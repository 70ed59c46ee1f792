/** What `cmd_meta_clear_image` promises, and through it the Hi-Z operation
    and the colour and depth/stencil clears: nothing for a range that misses
    the image; otherwise, for each of `min(mipLevels - base, count)` mip
    levels that is not skipped, `min(arraySize - base, count)` draws, one per
    slice, the slice restarting at the range's base slice on every level. */
module ClearProps {
  import opened Vk
  import opened Device
  import opened MetaHelpers
  import opened MetaState
  import opened Adjust
  import Bits
  import opened Builders
  import opened MetaOps
  import opened SliceProps
  import opened LoopProps

  /** What every clear keeps of the record it starts from: all but the
      destination binding, the depth/stencil state and the size, and of the
      depth/stencil state the operation and the layout flag. */
  predicate ClearFrame(m: MetaVal, m0: MetaVal)
  {
    && m == m0.(dst := m.dst, ds := m.ds, width := m.width, height := m.height)
    && m.ds.op == m0.ds.op && m.ds.optimal == m0.ds.optimal
  }

  /** What a clear of `range` keeps on top of the frame: the destination's
      offset; for a colour range the depth/stencil state, for the others the
      whole destination binding but its level and layer. */
  predicate ClearKept(m: MetaVal, m0: MetaVal, range: SubresourceRange)
  {
    && ClearFrame(m, m0)
    && m.dst.x == m0.dst.x && m.dst.y == m0.dst.y
    && (range.aspect == Color ==> m.ds == m0.ds)
    && (range.aspect != Color ==> m.dst == m0.dst.(lod := m.dst.lod, layer := m.dst.layer))
  }

  /** The record positioned at slice `layer` of mip level `lod`, with that
      level's size. */
  predicate ClearAt(dev: Device, m: MetaVal, m0: MetaVal, img: Image, range: SubresourceRange, lod: nat, layer: nat)
  {
    && ClearKept(m, m0, range)
    && m.dst.lod == lod && m.dst.layer == layer
    && m.width == dev.minify(img.width0, lod) && m.height == dev.minify(img.height0, lod)
  }

  /** When the depth/stencil view of the slice is created, the record holds it. */
  predicate DsBound(dev: Device, ds: DsVal, img: Image, lod: nat, layer: nat)
  {
    var v := dev.dsView(DsViewInfo(img, lod, layer));
    v.DsViewOk? ==> ds.view == Some(v.view)
  }

  /** The draw that clears slice `layer` of mip level `lod`: a colour range
      binds the slice as the destination; a depth or stencil range binds its
      depth/stencil view, with the range's aspect and `clear_val[1]` as the
      stencil reference. */
  predicate ClearDraw(dev: Device, d: MetaVal, m0: MetaVal, img: Image, format: Format, range: SubresourceRange,
                      lod: nat, layer: nat)
  {
    && ClearAt(dev, d, m0, img, range, lod, layer)
    && (range.aspect == Color ==> SliceBound(dev, d.dst, img, format, lod, layer))
    && (range.aspect != Color ==>
          d.ds.aspect == range.aspect && d.ds.stencilRef == m0.clearVal[1] && DsBound(dev, d.ds, img, lod, layer))
  }

  // ---------------------------------------------------------------------
  // The slice loop

  /** Round `k` of the slice loop of level `lod` starts at slice `layer + k`. */
  ghost function SliceAt(dev: Device, m0: MetaVal, img: Image, range: SubresourceRange, lod: nat, layer: nat)
    : (MetaVal, nat) -> bool
  {
    (m: MetaVal, k: nat) => ClearAt(dev, m, m0, img, range, lod, layer + k)
  }

  /** Round `k` of the slice loop of level `lod` clears slice `layer + k`. */
  ghost function SliceDrew(dev: Device, m0: MetaVal, img: Image, format: Format, range: SubresourceRange, lod: nat, layer: nat)
    : (MetaVal, nat) -> bool
  {
    (d: MetaVal, k: nat) => ClearDraw(dev, d, m0, img, format, range, lod, layer + k)
  }

  /** One round of the slice loop, from `x` at slice `layer` of level `lod`
      to `r`: one draw clearing that slice, and the record at the next slice. */
  predicate SliceAdvance(dev: Device, x: World, r: World, m0: MetaVal, img: Image, format: Format,
                         range: SubresourceRange, lod: nat, layer: nat)
  {
    && Extends(x, r) && |r.draws| == |x.draws| + 1
    && ClearDraw(dev, r.draws[|x.draws|], m0, img, format, range, lod, layer)
    && ClearAt(dev, r.meta, m0, img, range, lod, layer + 1)
  }

  /** One slice of a colour range: the slice is bound as the destination
      and drawn, and the record moves to the next slice. */
  lemma ClearLayerColor(dev: Device, p: World, m0: MetaVal, img: Image, format: Format, range: SubresourceRange,
                        lod: nat, layer: nat)
    requires range.aspect == Color && ClearAt(dev, p.meta, m0, img, range, lod, layer)
    ensures SliceAdvance(dev, p, ClearLayer(dev, p, img, format, range.aspect), m0, img, format, range, lod, layer)
  {
    var s := SetDstForImg(dev, p, img, format, lod, layer);
    SetDstBindsSlice(dev, p, img, format, lod, layer);
    DrawExtends(s);
    ExtendsTrans(p, s, Draw(s));
  }

  /** One slice of a depth or stencil range: its depth/stencil view and
      state are set and drawn, and the record moves to the next slice. */
  lemma ClearLayerDs(dev: Device, p: World, m0: MetaVal, img: Image, format: Format, range: SubresourceRange,
                     lod: nat, layer: nat)
    requires range.aspect != Color && ClearAt(dev, p.meta, m0, img, range, lod, layer)
    ensures SliceAdvance(dev, p, ClearLayer(dev, p, img, format, range.aspect), m0, img, format, range, lod, layer)
  {
    var s := SetDsView(dev, p, img, lod, layer);
    var s1 := s.(meta := SetDsState(s.meta, range.aspect, s.meta.clearVal[1]));
    var v := dev.dsView(DsViewInfo(img, lod, layer));
    if v.DsViewFailed? { FailExtends(p, v.status); }
    DrawExtends(s1);
    ExtendsTrans(p, s1, Draw(s1));
  }

  /** A depth or stencil slice whose view cannot be made logs the failure
      and still draws, with the view of the slice before it, which that
      slice's own draw was followed by destroying. */
  lemma FailedDsViewDrawsStaleView(dev: Device, p: World, img: Image, format: Format, aspect: Aspect)
    requires aspect != Color
    requires dev.dsView(DsViewInfo(img, p.meta.dst.lod, p.meta.dst.layer)).DsViewFailed?
    ensures var r := ClearLayer(dev, p, img, format, aspect);
            && |r.draws| == |p.draws| + 1
            && r.draws[|p.draws|].ds.view == p.meta.ds.view
            && r.errors == p.errors + [dev.dsView(DsViewInfo(img, p.meta.dst.lod, p.meta.dst.layer)).status]
  {
  }

  /** Round `k` of the slice loop of level `lod`, from a record at slice
      `layer + k`: that slice cleared, and the record at the next one. */
  lemma ClearLayerRound(dev: Device, x: World, m0: MetaVal, img: Image, format: Format, range: SubresourceRange,
                        lod: nat, layer: nat, k: nat)
    requires ClearAt(dev, x.meta, m0, img, range, lod, layer + k)
    ensures OneDraw(x, SliceStep(dev, img, format, range.aspect)(x, k),
                    SliceAt(dev, m0, img, range, lod, layer), SliceDrew(dev, m0, img, format, range, lod, layer), k)
  {
    var r := ClearLayer(dev, x, img, format, range.aspect);
    if range.aspect == Color {
      ClearLayerColor(dev, x, m0, img, format, range, lod, layer + k);
    } else {
      ClearLayerDs(dev, x, m0, img, format, range, lod, layer + k);
    }
    assert ClearDraw(dev, r.draws[|x.draws|], m0, img, format, range, lod, layer + k);
    assert ClearAt(dev, r.meta, m0, img, range, lod, layer + (k + 1));
  }

  /** Every round of the slice loop of `cmd_meta_clear_image` clears the
      slice it is at and moves to the next. */
  lemma ClearSliceSteps(dev: Device, m0: MetaVal, img: Image, format: Format, range: SubresourceRange, lod: nat, layer: nat)
    ensures OneDrawSteps(SliceStep(dev, img, format, range.aspect),
                         SliceAt(dev, m0, img, range, lod, layer), SliceDrew(dev, m0, img, format, range, lod, layer))
  {
    var at, drew := SliceAt(dev, m0, img, range, lod, layer), SliceDrew(dev, m0, img, format, range, lod, layer);
    forall x: World, k: nat | at(x.meta, k)
      ensures OneDraw(x, SliceStep(dev, img, format, range.aspect)(x, k), at, drew, k)
    {
      assert ClearAt(dev, x.meta, m0, img, range, lod, layer + k);
      ClearLayerRound(dev, x, m0, img, format, range, lod, layer, k);
    }
  }

  // ---------------------------------------------------------------------
  // The mip-level loop

  /** What a clear of `range` from record `m0` keeps. */
  ghost function Kept(m0: MetaVal, range: SubresourceRange): MetaVal -> bool
  {
    (m: MetaVal) => ClearKept(m, m0, range)
  }

  /** Round `i` of the mip-level loop skips level `baseMipLevel + i`. */
  function Skip(dev: Device, op: DsOp, img: Image, range: SubresourceRange): nat -> bool
  {
    (i: nat) => SkipsMip(dev, op, img, range.baseMipLevel + i)
  }

  /** Draw `j` of round `i` of the mip-level loop clears slice
      `baseArraySlice + j` of level `baseMipLevel + i`. */
  ghost function LevelDrew(dev: Device, m0: MetaVal, img: Image, format: Format, range: SubresourceRange)
    : (MetaVal, nat, nat) -> bool
  {
    (d: MetaVal, i: nat, j: nat) => ClearDraw(dev, d, m0, img, format, range, range.baseMipLevel + i, range.baseArraySlice + j)
  }

  /** A level whose slice loop went from `w1`, at the level's first slice,
      to `r`, started from `w` with only the record changed: the block of
      that level. */
  lemma LevelOfSlices(dev: Device, w: World, w1: World, r: World, m0: MetaVal, img: Image, format: Format,
                      range: SubresourceRange, layers: nat, i: nat)
    requires w1.draws == w.draws && w1.errors == w.errors
    requires !SkipsMip(dev, m0.ds.op, img, range.baseMipLevel + i)
    requires Extends(w1, r) && |r.draws| == |w1.draws| + layers
    requires SliceAt(dev, m0, img, range, range.baseMipLevel + i, range.baseArraySlice)(r.meta, layers)
    requires forall idx :: |w1.draws| <= idx < |r.draws| ==>
               SliceDrew(dev, m0, img, format, range, range.baseMipLevel + i, range.baseArraySlice)(r.draws[idx], idx - |w1.draws|)
    ensures BlockRound(w, r, Kept(m0, range), Skip(dev, m0.ds.op, img, range), layers, LevelDrew(dev, m0, img, format, range), i)
  {
    var lod := range.baseMipLevel + i;
    var kept, level := Kept(m0, range), LevelDrew(dev, m0, img, format, range);
    var at, drew := SliceAt(dev, m0, img, range, lod, range.baseArraySlice),
                    SliceDrew(dev, m0, img, format, range, lod, range.baseArraySlice);
    assert at(r.meta, layers);
    assert ClearAt(dev, r.meta, m0, img, range, lod, range.baseArraySlice + layers);
    assert kept(r.meta);
    forall idx | |w.draws| <= idx < |r.draws|
      ensures kept(r.draws[idx]) && level(r.draws[idx], i, idx - |w.draws|)
    {
      assert drew(r.draws[idx], idx - |w.draws|);
      assert ClearDraw(dev, r.draws[idx], m0, img, format, range, lod, range.baseArraySlice + (idx - |w.draws|));
    }
  }

  /** A skipped level changes the record only. */
  lemma LevelSkipped(dev: Device, w: World, w1: World, m0: MetaVal, img: Image, format: Format,
                     range: SubresourceRange, layers: nat, i: nat)
    requires w1.draws == w.draws && w1.errors == w.errors && ClearKept(w1.meta, m0, range)
    requires SkipsMip(dev, m0.ds.op, img, range.baseMipLevel + i)
    ensures BlockRound(w, w1, Kept(m0, range), Skip(dev, m0.ds.op, img, range), layers, LevelDrew(dev, m0, img, format, range), i)
  {
    assert Kept(m0, range)(w1.meta);
  }

  /** Level `baseMipLevel + i`: skipped, or `layers` draws, draw `j` clearing
      slice `baseArraySlice + j` of that level at that level's size. */
  lemma ClearMipRound(dev: Device, w: World, m0: MetaVal, img: Image, format: Format, range: SubresourceRange,
                      layers: nat, i: nat)
    requires ClearKept(w.meta, m0, range)
    ensures BlockRound(w, ClearMip(dev, w, img, format, range, layers, i), Kept(m0, range),
                       Skip(dev, m0.ds.op, img, range), layers, LevelDrew(dev, m0, img, format, range), i)
  {
    var lod := range.baseMipLevel + i;
    var w1 := w.(meta := MipStart(dev, w.meta, img, range, i));
    assert ClearAt(dev, w1.meta, m0, img, range, lod, range.baseArraySlice);
    if SkipsMip(dev, m0.ds.op, img, lod) {
      assert ClearMip(dev, w, img, format, range, layers, i) == w1;
      LevelSkipped(dev, w, w1, m0, img, format, range, layers, i);
    } else {
      var at, drew := SliceAt(dev, m0, img, range, lod, range.baseArraySlice),
                      SliceDrew(dev, m0, img, format, range, lod, range.baseArraySlice);
      var r := Loop(SliceStep(dev, img, format, range.aspect), w1, layers);
      assert ClearMip(dev, w, img, format, range, layers, i) == r;
      assert at(w1.meta, 0);
      ClearSliceSteps(dev, m0, img, format, range, lod, range.baseArraySlice);
      OneDrawLoop(SliceStep(dev, img, format, range.aspect), at, drew, w1, layers);
      LevelOfSlices(dev, w, w1, r, m0, img, format, range, layers, i);
    }
  }

  /** Every round of the mip-level loop of `cmd_meta_clear_image` is such a level. */
  lemma ClearMipSteps(dev: Device, m0: MetaVal, img: Image, format: Format, range: SubresourceRange, layers: nat)
    ensures BlockSteps(LevelStep(dev, img, format, range, layers), Kept(m0, range),
                       Skip(dev, m0.ds.op, img, range), layers, LevelDrew(dev, m0, img, format, range))
  {
    var kept, skip, level := Kept(m0, range), Skip(dev, m0.ds.op, img, range), LevelDrew(dev, m0, img, format, range);
    forall x: World, i: nat | kept(x.meta)
      ensures BlockRound(x, LevelStep(dev, img, format, range, layers)(x, i), kept, skip, layers, level, i)
    {
      ClearMipRound(dev, x, m0, img, format, range, layers, i);
    }
  }

  // ---------------------------------------------------------------------
  // cmd_meta_clear_image

  /** The draws `cmd_meta_clear_image` makes for `range` under operation `op`. */
  function ClearImageDraws(dev: Device, op: DsOp, img: Image, range: SubresourceRange): nat
  {
    if ClearOutOfRange(img, range) then 0
    else Counted(Skip(dev, op, img, range), ClearLayerCount(img, range), ClearMipCount(img, range))
  }

  /** The level and slice counts are the least of what the image has from
      the base on and what the range asks for. */
  lemma ClearCountsAreMin(img: Image, range: SubresourceRange)
    requires !ClearOutOfRange(img, range)
    ensures var mips := ClearMipCount(img, range);
            && mips <= range.mipLevels && range.baseMipLevel + mips <= img.mipLevels
            && (mips == range.mipLevels || range.baseMipLevel + mips == img.mipLevels)
    ensures var slices := ClearLayerCount(img, range);
            && slices <= range.arraySize && range.baseArraySlice + slices <= img.arraySize
            && (slices == range.arraySize || range.baseArraySlice + slices == img.arraySize)
  {
  }

  /** `cmd_meta_clear_image`: nothing for a range that misses the image;
      otherwise one draw per slice of every level of the range that is not
      skipped, every one of them keeping what the clear keeps, the record
      too. */
  lemma ClearImageOutcome(dev: Device, w: World, img: Image, format: Format, range: SubresourceRange)
    ensures var r := ClearImage(dev, w, img, format, range);
            && (ClearOutOfRange(img, range) ==> r == w)
            && Extends(w, r)
            && |r.draws| == |w.draws| + ClearImageDraws(dev, w.meta.ds.op, img, range)
            && ClearKept(r.meta, w.meta, range)
            && forall idx :: |w.draws| <= idx < |r.draws| ==> ClearKept(r.draws[idx], w.meta, range)
  {
    if !ClearOutOfRange(img, range) {
      var layers, kept := ClearLayerCount(img, range), Kept(w.meta, range);
      ClearMipSteps(dev, w.meta, img, format, range, layers);
      BlockLoopCount(LevelStep(dev, img, format, range, layers), kept, Skip(dev, w.meta.ds.op, img, range), layers,
                     LevelDrew(dev, w.meta, img, format, range), w, ClearMipCount(img, range));
    }
  }

  /** Inside the image, level `baseMipLevel + i` of the range, when not
      skipped, owns the draws after those of the levels before it: draw `j`
      of them clears slice `baseArraySlice + j` of that level. */
  lemma ClearImageLevels(dev: Device, w: World, img: Image, format: Format, range: SubresourceRange)
    requires !ClearOutOfRange(img, range)
    ensures forall i: nat {:trigger RoundBlock(ClearImage(dev, w, img, format, range), |w.draws|, Skip(dev, w.meta.ds.op, img, range),
                                               ClearLayerCount(img, range), LevelDrew(dev, w.meta, img, format, range), i)} ::
              i < ClearMipCount(img, range) && !Skip(dev, w.meta.ds.op, img, range)(i) ==>
              RoundBlock(ClearImage(dev, w, img, format, range), |w.draws|, Skip(dev, w.meta.ds.op, img, range),
                         ClearLayerCount(img, range), LevelDrew(dev, w.meta, img, format, range), i)
  {
    var layers, skip, level := ClearLayerCount(img, range), Skip(dev, w.meta.ds.op, img, range), LevelDrew(dev, w.meta, img, format, range);
    var r := Loop(LevelStep(dev, img, format, range, layers), w, ClearMipCount(img, range));
    assert ClearImage(dev, w, img, format, range) == r;
    ClearMipSteps(dev, w.meta, img, format, range, layers);
    BlockLoopLevels(LevelStep(dev, img, format, range, layers), Kept(w.meta, range), skip, layers, level, w, ClearMipCount(img, range));
  }

  /** Without a Hi-Z operation, draw `i * slices + j` of a range inside the
      image clears slice `baseArraySlice + j` of level `baseMipLevel + i`. */
  lemma ClearImageDrawAt(dev: Device, w: World, img: Image, format: Format, range: SubresourceRange, i: nat, j: nat)
    requires w.meta.ds.op == DsNop && !ClearOutOfRange(img, range)
    requires i < ClearMipCount(img, range) && j < ClearLayerCount(img, range)
    ensures var r := ClearImage(dev, w, img, format, range);
            var idx := |w.draws| + i * ClearLayerCount(img, range) + j;
            idx < |r.draws|
            && ClearDraw(dev, r.draws[idx], w.meta, img, format, range, range.baseMipLevel + i, range.baseArraySlice + j)
  {
    var layers, skip, level := ClearLayerCount(img, range), Skip(dev, DsNop, img, range), LevelDrew(dev, w.meta, img, format, range);
    var r := ClearImage(dev, w, img, format, range);
    forall i': nat | i' < ClearMipCount(img, range)
      ensures !skip(i')
    {
      assert !SkipsMip(dev, DsNop, img, range.baseMipLevel + i');
    }
    ClearImageLevels(dev, w, img, format, range);
    CountedNone(skip, layers, i);
    assert RoundBlock(r, |w.draws|, skip, layers, level, i);
    var from := |w.draws| + Counted(skip, layers, i);
    assert from + j == |w.draws| + i * layers + j;
    assert level(r.draws[from + j], i, j);
  }
}

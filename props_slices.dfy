/** The per-slice loops of the copies and the resolve: the `n` slices of a
    region are `n` draws in order, slice `k` of them at layer `first + k` (and,
    where a buffer is involved, `k` slices' worth of texels further into it),
    each with the destination bound to a view of exactly that slice. */
module SliceProps {
  import opened Vk
  import opened Device
  import opened MetaHelpers
  import opened MetaState
  import opened Adjust
  import opened Builders
  import opened MetaOps
  import opened LoopProps

  /** When the colour view of slice `layer` of mip level `lod` is created,
      the binding `b` holds it: valid, written, relocated to the image's
      memory, with the view's length and (unless the image is compressed, in
      which case dword 2, 4 and 5 are then adjusted) the view's words. */
  predicate SliceBound(dev: Device, b: BindingVal, img: Image, format: Format, lod: nat, layer: nat)
  {
    var v := dev.colorView(ColorViewInfo(img, format, lod, layer));
    v.ViewOk? ==>
      && b.valid && b.relocTarget == MemBo(img.mem) && b.relocFlags == RelocWrite
      && b.surfaceLen == |v.words|
      && (!dev.isCompressed(img.format) ==> b.surface[..|v.words|] == v.words)
  }

  /** `cmd_meta_set_dst_for_img` binds the slice it is asked for and leaves
      the draw log, the rest of the record and the coordinates alone. */
  lemma SetDstBindsSlice(dev: Device, w: World, img: Image, format: Format, lod: nat, layer: nat)
    ensures var r := SetDstForImg(dev, w, img, format, lod, layer);
            && Extends(w, r) && r.draws == w.draws
            && r.meta == w.meta.(dst := r.meta.dst)
            && r.meta.dst.lod == w.meta.dst.lod && r.meta.dst.layer == w.meta.dst.layer
            && r.meta.dst.x == w.meta.dst.x && r.meta.dst.y == w.meta.dst.y
            && SliceBound(dev, r.meta.dst, img, format, lod, layer)
  {
    SetDstForImgEffect(dev, w, img, format, lod, layer);
    var v := dev.colorView(ColorViewInfo(img, format, lod, layer));
    if v.ViewOk? {
      AdjustKeeps(dev, img, Bound(w.meta.dst, v.words, MemBo(img.mem), RelocWrite));
    } else {
      FailExtends(w, v.status);
    }
  }

  /** How far `k` slices of `area` texels each move a buffer position: the
      loop adds `area` once per slice. */
  function Slices(k: nat, area: nat): nat
  {
    if k == 0 then 0 else Slices(k - 1, area) + area
  }

  /** The distance is `k * area`. */
  lemma {:induction false} SlicesIsProduct(k: nat, area: nat)
    ensures Slices(k, area) == k * area
  {
    if k > 0 {
      SlicesIsProduct(k - 1, area);
      assert k * area == (k - 1) * area + area;
    }
  }

  /** What the region loops of the copies and the resolve leave as the
      operation set it up: the mode, the sample count, the depth/stencil
      state, the clear values, and the source binding but for its level,
      layer and coordinates. */
  predicate SetupKept(m: MetaVal, m0: MetaVal)
  {
    && m.mode == m0.mode && m.samples == m0.samples && m.ds == m0.ds && m.clearVal == m0.clearVal
    && m.src == m0.src.(lod := m.src.lod, layer := m.src.layer, x := m.src.x, y := m.src.y)
  }

  lemma SetupKeptTrans(m2: MetaVal, m1: MetaVal, m0: MetaVal)
    requires SetupKept(m2, m1) && SetupKept(m1, m0)
    ensures SetupKept(m2, m0)
  {
  }

  // ---------------------------------------------------------------------
  // vkCmdCopyImage

  /** The record `m` is `start` with both layers advanced by `k` and nothing
      else changed except the destination's surface. */
  predicate CopyAdvanced(m: MetaVal, start: MetaVal, k: nat)
  {
    && m == start.(src := m.src, dst := m.dst)
    && m.src == start.src.(layer := start.src.layer + k)
    && m.dst.lod == start.dst.lod && m.dst.layer == start.dst.layer + k
    && m.dst.x == start.dst.x && m.dst.y == start.dst.y
  }

  /** Draw `k` of a copy region started from record `start`: the record
      advanced by `k` slices, with the destination bound to that slice. */
  predicate CopySliceDraw(dev: Device, d: MetaVal, start: MetaVal, dst: Image, format: Format, k: nat)
  {
    CopyAdvanced(d, start, k) && SliceBound(dev, d.dst, dst, format, start.dst.lod, start.dst.layer + k)
  }

  /** Round `k` of a copy region started from record `start` begins with the
      record advanced by `k` slices. */
  ghost function CopyAt(start: MetaVal): (MetaVal, nat) -> bool
  {
    (m: MetaVal, k: nat) => CopyAdvanced(m, start, k)
  }

  /** Round `k` of a copy region started from record `start` draws slice `k`. */
  ghost function CopyDrew(dev: Device, start: MetaVal, dst: Image, format: Format): (MetaVal, nat) -> bool
  {
    (d: MetaVal, k: nat) => CopySliceDraw(dev, d, start, dst, format, k)
  }

  /** One slice step: draw the slice bound at the current layers, then move
      both layers on by one. */
  lemma CopyImageLayerStep(dev: Device, p: World, start: MetaVal, dst: Image, format: Format, k: nat)
    requires CopyAdvanced(p.meta, start, k)
    ensures var r := CopyImageLayer(dev, p, dst, format);
            && Extends(p, r) && |r.draws| == |p.draws| + 1
            && CopySliceDraw(dev, r.draws[|p.draws|], start, dst, format, k)
            && CopyAdvanced(r.meta, start, k + 1)
  {
    var s := SetDstForImg(dev, p, dst, format, p.meta.dst.lod, p.meta.dst.layer);
    SetDstBindsSlice(dev, p, dst, format, p.meta.dst.lod, p.meta.dst.layer);
    DrawExtends(s);
    ExtendsTrans(p, s, Draw(s));
  }

  /** Every round of the slice loop of `vkCmdCopyImage` draws the slice it
      is at and moves both layers on. */
  lemma CopyLayerSteps(dev: Device, start: MetaVal, dst: Image, format: Format)
    ensures OneDrawSteps(CopyLayerStep(dev, dst, format), CopyAt(start), CopyDrew(dev, start, dst, format))
  {
    var at, drew := CopyAt(start), CopyDrew(dev, start, dst, format);
    forall x: World, k: nat | at(x.meta, k)
      ensures OneDraw(x, CopyLayerStep(dev, dst, format)(x, k), at, drew, k)
    {
      var r := CopyImageLayer(dev, x, dst, format);
      assert CopyAdvanced(x.meta, start, k);
      CopyImageLayerStep(dev, x, start, dst, format, k);
      assert drew(r.draws[|x.draws|], k) && at(r.meta, k + 1);
    }
  }

  /** What `n` rounds of the copy loop from `w` to `r` give, spelled out. */
  lemma CopySlicesOf(dev: Device, w: World, r: World, dst: Image, format: Format, n: nat)
    requires Extends(w, r) && |r.draws| == |w.draws| + n
    requires CopyAt(w.meta)(r.meta, n)
    requires forall i :: |w.draws| <= i < |r.draws| ==> CopyDrew(dev, w.meta, dst, format)(r.draws[i], i - |w.draws|)
    ensures CopyAdvanced(r.meta, w.meta, n)
    ensures forall i :: |w.draws| <= i < |r.draws| ==> CopySliceDraw(dev, r.draws[i], w.meta, dst, format, i - |w.draws|)
  {
    forall i | |w.draws| <= i < |r.draws|
      ensures CopySliceDraw(dev, r.draws[i], w.meta, dst, format, i - |w.draws|)
    {
      assert CopyDrew(dev, w.meta, dst, format)(r.draws[i], i - |w.draws|);
    }
  }

  /** `n` slices of a copy region: `n` draws, draw `k` being slice `k`. */
  lemma CopyImageLayersDraws(dev: Device, w: World, dst: Image, format: Format, n: nat)
    ensures var r := CopyImageLayers(dev, w, dst, format, n);
            && Extends(w, r) && |r.draws| == |w.draws| + n
            && CopyAdvanced(r.meta, w.meta, n)
            && forall i :: |w.draws| <= i < |r.draws| ==> CopySliceDraw(dev, r.draws[i], w.meta, dst, format, i - |w.draws|)
  {
    assert CopyAt(w.meta)(w.meta, 0);
    CopyLayerSteps(dev, w.meta, dst, format);
    OneDrawLoop(CopyLayerStep(dev, dst, format), CopyAt(w.meta), CopyDrew(dev, w.meta, dst, format), w, n);
    CopySlicesOf(dev, w, Loop(CopyLayerStep(dev, dst, format), w, n), dst, format, n);
  }

  /** Where a region of `vkCmdCopyImage` starts from record `m`: the
      region's shader, mip levels and layers (the array slice plus the `z`
      offset), and its offsets and size, all six divided by the block width
      of the untyped format of a raw copy (the heights too); the rest of `m`
      kept. */
  predicate CopyRegionStarts(dev: Device, m: MetaVal, src: Image, raw: Option<Format>, r: ImageCopy, start: MetaVal)
  {
    && start.shader == CopyShader(src, r.extent.depth > 1)
    && start.src.lod == r.srcSubresource.mipLevel && start.dst.lod == r.destSubresource.mipLevel
    && start.src.layer == r.srcSubresource.arraySlice + r.srcOffset.z
    && start.dst.layer == r.destSubresource.arraySlice + r.destOffset.z
    && (raw.None? ==>
          && start.width == r.extent.width && start.height == r.extent.height
          && start.src.x == r.srcOffset.x && start.src.y == r.srcOffset.y
          && start.dst.x == r.destOffset.x && start.dst.y == r.destOffset.y)
    && (raw.Some? ==>
          var bw := dev.formatBlockWidth(raw.value);
          && start.width == r.extent.width / bw && start.height == r.extent.height / bw
          && start.src.x == r.srcOffset.x / bw && start.src.y == r.srcOffset.y / bw
          && start.dst.x == r.destOffset.x / bw && start.dst.y == r.destOffset.y / bw)
    && start == m.(shader := start.shader, src := start.src, dst := start.dst, width := start.width, height := start.height)
    && start.src == m.src.(lod := start.src.lod, layer := start.src.layer, x := start.src.x, y := start.src.y)
  }

  lemma CopyImageRegionStartFacts(dev: Device, m: MetaVal, src: Image, raw: Option<Format>, r: ImageCopy)
    ensures CopyRegionStarts(dev, m, src, raw, r, CopyImageRegionStart(dev, m, src, raw, r))
  {
  }

  /** One region of `vkCmdCopyImage`: `depth` draws from the region's start,
      slice `k` read from source layer `arraySlice + z + k` of the source mip
      level and written to the same-numbered destination slice. */
  lemma CopyImageRegionDraws(dev: Device, w: World, src: Image, dst: Image, raw: Option<Format>, r: ImageCopy)
    ensures var res := CopyImageRegion(dev, w, src, dst, raw, r);
            var start := CopyImageRegionStart(dev, w.meta, src, raw, r);
            && Extends(w, res) && |res.draws| == |w.draws| + r.extent.depth
            && CopyAdvanced(res.meta, start, r.extent.depth)
            && forall i :: |w.draws| <= i < |res.draws| ==>
                 CopySliceDraw(dev, res.draws[i], start, dst, CopyFormat(dst, raw), i - |w.draws|)
  {
    var start := CopyImageRegionStart(dev, w.meta, src, raw, r);
    CopyImageLayersDraws(dev, w.(meta := start), dst, CopyFormat(dst, raw), r.extent.depth);
    assert CopyImageRegion(dev, w, src, dst, raw, r) == CopyImageLayers(dev, w.(meta := start), dst, CopyFormat(dst, raw), r.extent.depth);
  }

  /** The sum of `f` over a list of regions. */
  function SumOf<T>(s: seq<T>, f: T -> nat): nat
    decreases |s|
  {
    if s == [] then 0 else f(s[0]) + SumOf(s[1..], f)
  }

  /** The regions of `vkCmdCopyImage` one after the other: one draw per
      slice of each, every draw and the final record keeping the set-up of
      the record `m0` the regions started from. */
  lemma {:induction false} CopyImageRegionsDraws(dev: Device, w: World, src: Image, dst: Image, raw: Option<Format>,
                                                 regions: seq<ImageCopy>, m0: MetaVal)
    requires SetupKept(w.meta, m0)
    ensures var res := CopyImageRegions(dev, w, src, dst, raw, regions);
            && Extends(w, res) && |res.draws| == |w.draws| + SumOf(regions, (r: ImageCopy) => r.extent.depth)
            && SetupKept(res.meta, m0)
            && forall i :: |w.draws| <= i < |res.draws| ==> SetupKept(res.draws[i], m0)
    decreases |regions|
  {
    if regions != [] {
      var r0 := regions[0];
      var w1 := CopyImageRegion(dev, w, src, dst, raw, r0);
      var res := CopyImageRegions(dev, w1, src, dst, raw, regions[1..]);
      var start := CopyImageRegionStart(dev, w.meta, src, raw, r0);
      CopyImageRegionStartFacts(dev, w.meta, src, raw, r0);
      CopyImageRegionDraws(dev, w, src, dst, raw, r0);
      assert SetupKept(w1.meta, m0);
      CopyImageRegionsDraws(dev, w1, src, dst, raw, regions[1..], m0);
      ExtendsTrans(w, w1, res);
      forall i | |w.draws| <= i < |res.draws|
        ensures SetupKept(res.draws[i], m0)
      {
        if i < |w1.draws| {
          assert res.draws[i] == res.draws[..|w1.draws|][i];
          assert CopySliceDraw(dev, w1.draws[i], start, dst, CopyFormat(dst, raw), i - |w.draws|);
        }
      }
    }
  }

  /** `vkCmdCopyImage` either refuses (mismatched image types, or different
      formats with a compressed one) with one failure and no draw, or draws
      once per slice of every region. */
  lemma CopyImageOutcome(dev: Device, w: World, src: Image, dst: Image, regions: seq<ImageCopy>)
    ensures var res := CopyImage(dev, w, src, dst, regions);
            && Extends(w, res)
            && (CopyImageRefused(dev, src, dst) ==> res.draws == w.draws && res.errors == w.errors + [ErrorUnknown])
            && (!CopyImageRefused(dev, src, dst) ==>
                  var raw := if src.format == dst.format then Some(ImgRawFormat(dev, src.format)) else None;
                  var init := CopyImageInit(dev, w, src, dst, raw);
                  var v := dev.imgView(SrcImgViewInfo(src, CopyFormat(src, raw), Color));
                  && |res.draws| == |w.draws| + SumOf(regions, (r: ImageCopy) => r.extent.depth)
                  && init.meta.mode == FsRect && init.meta.samples == dst.samples
                  && (v.ViewOk? ==> BoundTo(init.meta.src, ZeroMeta().src, v.words, MemBo(src.mem), RelocNone))
                  && forall i :: |w.draws| <= i < |res.draws| ==> SetupKept(res.draws[i], init.meta))
  {
    if !CopyImageRefused(dev, src, dst) {
      var raw := if src.format == dst.format then Some(ImgRawFormat(dev, src.format)) else None;
      var w0 := w.(meta := ZeroMeta().(mode := FsRect));
      var init := CopyImageInit(dev, w, src, dst, raw);
      assert Extends(w, init) by {
        var v := dev.imgView(SrcImgViewInfo(src, CopyFormat(src, raw), Color));
        if v.ViewFailed? { FailExtends(w0, v.status); }
      }
      CopyImageRegionsDraws(dev, init, src, dst, raw, regions, init.meta);
      ExtendsTrans(w, init, CopyImage(dev, w, src, dst, regions));
    }
  }
}

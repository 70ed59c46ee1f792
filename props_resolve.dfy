/** What `vkCmdResolveImage` promises: a refused pair of images is one
    failure and no draw; otherwise every slice of every region is one draw of
    the resolve shader for the source's sample count, reading the region's
    source slice and writing the region's destination slice, which is bound
    afresh for that draw. */
module ResolveProps {
  import opened Vk
  import opened Device
  import opened MetaHelpers
  import opened MetaState
  import opened Builders
  import opened MetaOps
  import opened SliceProps
  import opened LoopProps

  /** `m` differs from `m0` only in what the slice loop sets: both bindings'
      coordinates, the destination's surface, and the size. */
  predicate ResolveSame(m: MetaVal, m0: MetaVal)
  {
    && m == m0.(src := m.src, dst := m.dst, width := m.width, height := m.height)
    && m.src == m0.src.(lod := m.src.lod, layer := m.src.layer, x := m.src.x, y := m.src.y)
  }

  /** Draw `s` of region `r` made from record `m0`: the source's level,
      layer `arraySlice + s` and offset, the destination's level, layer
      `arraySlice + s` and offset, the region's width and height, and the
      destination bound to that slice; nothing else of `m0` changed. */
  predicate ResolveSliceDraw(dev: Device, d: MetaVal, m0: MetaVal, dst: Image, format: Format, r: ImageResolve, s: nat)
  {
    && d == m0.(src := d.src, dst := d.dst, width := r.extent.width, height := r.extent.height)
    && d.src == m0.src.(lod := r.srcSubresource.mipLevel, layer := r.srcSubresource.arraySlice + s,
                        x := r.srcOffset.x, y := r.srcOffset.y)
    && d.dst.lod == r.destSubresource.mipLevel && d.dst.layer == r.destSubresource.arraySlice + s
    && d.dst.x == r.destOffset.x && d.dst.y == r.destOffset.y
    && SliceBound(dev, d.dst, dst, format, r.destSubresource.mipLevel, r.destSubresource.arraySlice + s)
  }

  lemma ResolveSameTrans(m2: MetaVal, m1: MetaVal, m0: MetaVal)
    requires ResolveSame(m2, m1) && ResolveSame(m1, m0)
    ensures ResolveSame(m2, m0)
  {
  }

  /** Slice `s` appends the draw of slice `s` and keeps the loop's invariant. */
  lemma ResolveSliceStep(dev: Device, p: World, m0: MetaVal, dst: Image, format: Format, r: ImageResolve, s: nat)
    requires ResolveSame(p.meta, m0)
    ensures var res := ResolveSlice(dev, p, dst, format, r, s);
            && Extends(p, res) && |res.draws| == |p.draws| + 1
            && ResolveSliceDraw(dev, res.draws[|p.draws|], m0, dst, format, r, s)
            && ResolveSame(res.meta, m0)
  {
    var m := ResolveSliceMeta(p.meta, r, s);
    var s1 := SetDstForImg(dev, p.(meta := m), dst, format, m.dst.lod, m.dst.layer);
    SetDstBindsSlice(dev, p.(meta := m), dst, format, m.dst.lod, m.dst.layer);
    DrawExtends(s1);
    ExtendsTrans(p, s1, Draw(s1));
  }

  /** Every round of the slice loop of region `r` keeps the record within
      `ResolveSame` of `m0`, whatever the round. */
  ghost function ResolveAt(m0: MetaVal): (MetaVal, nat) -> bool
  {
    (m: MetaVal, k: nat) => ResolveSame(m, m0)
  }

  /** Round `k` of region `r` draws slice `k`. */
  ghost function ResolveDrew(dev: Device, m0: MetaVal, dst: Image, format: Format, r: ImageResolve): (MetaVal, nat) -> bool
  {
    (d: MetaVal, k: nat) => ResolveSliceDraw(dev, d, m0, dst, format, r, k)
  }

  /** Every round of the slice loop of `vkCmdResolveImage` draws the slice
      it is at. */
  lemma ResolveSteps(dev: Device, m0: MetaVal, dst: Image, format: Format, r: ImageResolve)
    ensures OneDrawSteps(ResolveStep(dev, dst, format, r), ResolveAt(m0), ResolveDrew(dev, m0, dst, format, r))
  {
    var at, drew := ResolveAt(m0), ResolveDrew(dev, m0, dst, format, r);
    forall x: World, k: nat | at(x.meta, k)
      ensures OneDraw(x, ResolveStep(dev, dst, format, r)(x, k), at, drew, k)
    {
      var res := ResolveSlice(dev, x, dst, format, r, k);
      assert ResolveSame(x.meta, m0);
      ResolveSliceStep(dev, x, m0, dst, format, r, k);
      assert drew(res.draws[|x.draws|], k) && at(res.meta, k + 1);
    }
  }

  /** What the rounds from `w` to `res` give, spelled out. */
  lemma ResolveSlicesOf(dev: Device, w: World, res: World, dst: Image, format: Format, r: ImageResolve)
    requires forall i :: |w.draws| <= i < |res.draws| ==> ResolveDrew(dev, w.meta, dst, format, r)(res.draws[i], i - |w.draws|)
    ensures forall i :: |w.draws| <= i < |res.draws| ==> ResolveSliceDraw(dev, res.draws[i], w.meta, dst, format, r, i - |w.draws|)
  {
    forall i | |w.draws| <= i < |res.draws|
      ensures ResolveSliceDraw(dev, res.draws[i], w.meta, dst, format, r, i - |w.draws|)
    {
      assert ResolveDrew(dev, w.meta, dst, format, r)(res.draws[i], i - |w.draws|);
    }
  }

  /** One region: `depth` draws, draw `k` resolving slice `k` of the region. */
  lemma ResolveRegionDraws(dev: Device, w: World, dst: Image, format: Format, r: ImageResolve)
    ensures var res := ResolveSlices(dev, w, dst, format, r, r.extent.depth);
            && Extends(w, res) && |res.draws| == |w.draws| + r.extent.depth
            && ResolveSame(res.meta, w.meta)
            && forall i :: |w.draws| <= i < |res.draws| ==>
                 ResolveSliceDraw(dev, res.draws[i], w.meta, dst, format, r, i - |w.draws|)
  {
    var res := ResolveSlices(dev, w, dst, format, r, r.extent.depth);
    assert ResolveAt(w.meta)(w.meta, 0);
    ResolveSteps(dev, w.meta, dst, format, r);
    OneDrawLoop(ResolveStep(dev, dst, format, r), ResolveAt(w.meta), ResolveDrew(dev, w.meta, dst, format, r), w, r.extent.depth);
    assert ResolveAt(w.meta)(res.meta, r.extent.depth);
    ResolveSlicesOf(dev, w, res, dst, format, r);
  }

  /** Over all regions: one draw per slice, every one of them `m0` apart
      from the coordinates, the size and the destination binding. */
  lemma {:induction false} ResolveRegionsDraws(dev: Device, w: World, dst: Image, format: Format,
                                               regions: seq<ImageResolve>, m0: MetaVal)
    requires ResolveSame(w.meta, m0)
    ensures var res := ResolveRegions(dev, w, dst, format, regions);
            && Extends(w, res)
            && |res.draws| == |w.draws| + SumOf(regions, (r: ImageResolve) => r.extent.depth)
            && ResolveSame(res.meta, m0)
            && forall i :: |w.draws| <= i < |res.draws| ==> ResolveSame(res.draws[i], m0)
    decreases |regions|
  {
    if regions != [] {
      var r0 := regions[0];
      var w1 := ResolveSlices(dev, w, dst, format, r0, r0.extent.depth);
      var res := ResolveRegions(dev, w, dst, format, regions);
      assert res == ResolveRegions(dev, w1, dst, format, regions[1..]);
      ResolveRegionDraws(dev, w, dst, format, r0);
      ResolveSameTrans(w1.meta, w.meta, m0);
      ResolveRegionsDraws(dev, w1, dst, format, regions[1..], m0);
      ExtendsTrans(w, w1, res);
      forall i | |w.draws| <= i < |res.draws|
        ensures ResolveSame(res.draws[i], m0)
      {
        if i < |w1.draws| {
          assert res.draws[i] == res.draws[..|w1.draws|][i];
          assert ResolveSliceDraw(dev, w1.draws[i], w.meta, dst, format, r0, i - |w.draws|);
          ResolveSameTrans(w1.draws[i], w.meta, m0);
        }
      }
    }
  }

  /** `vkCmdResolveImage` refuses a single-sampled source, a multisampled
      destination or a format mismatch with one failure and no draw;
      otherwise it draws once per slice of every region, every draw a
      single-sampled rectangle of the resolve shader chosen by the source's
      sample count, with the source image bound once for all of them. */
  lemma ResolveImageOutcome(dev: Device, w: World, src: Image, dst: Image, regions: seq<ImageResolve>)
    ensures var res := ResolveImage(dev, w, src, dst, regions);
            && Extends(w, res)
            && (ResolveRefused(src, dst) ==> res.draws == w.draws && res.errors == w.errors + [ErrorUnknown])
            && (!ResolveRefused(src, dst) ==>
                  var format := ImgRawFormat(dev, src.format);
                  var init := SetSrcForImg(dev, w.(meta := ResolveMeta(src)), src, format, Color);
                  var v := dev.imgView(SrcImgViewInfo(src, format, Color));
                  && |res.draws| == |w.draws| + SumOf(regions, (r: ImageResolve) => r.extent.depth)
                  && (v.ViewOk? ==> BoundTo(init.meta.src, ZeroMeta().src, v.words, MemBo(src.mem), RelocNone))
                  && (forall i :: |w.draws| <= i < |res.draws| ==> ResolveSame(res.draws[i], init.meta))
                  && forall i :: |w.draws| <= i < |res.draws| ==>
                       && res.draws[i].mode == FsRect
                       && res.draws[i].shader == ResolveShader(src.samples)
                       && res.draws[i].samples == 1)
  {
    if !ResolveRefused(src, dst) {
      var format := ImgRawFormat(dev, src.format);
      var w0 := w.(meta := ResolveMeta(src));
      var init := SetSrcForImg(dev, w0, src, format, Color);
      var v := dev.imgView(SrcImgViewInfo(src, format, Color));
      if v.ViewFailed? { FailExtends(w0, v.status); }
      ResolveRegionsDraws(dev, init, dst, format, regions, init.meta);
      ExtendsTrans(w, init, ResolveImage(dev, w, src, dst, regions));
    }
  }
}

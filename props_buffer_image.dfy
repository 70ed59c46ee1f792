/** What `vkCmdCopyBufferToImage` and `vkCmdCopyImageToBuffer` promise: one
    draw per slice of every region, the image side moving one layer per slice
    and the buffer side moving one slice's worth of texels
    (`width * height`) per slice. */
module BufferImageProps {
  import opened Vk
  import opened Device
  import opened MetaHelpers
  import opened MetaState
  import opened Builders
  import opened MetaOps
  import opened SliceProps
  import opened LoopProps

  // ---------------------------------------------------------------------
  // vkCmdCopyBufferToImage

  /** The record `m` is `start` after `k` slices: the buffer position `dist`
      texels further on, the destination `k` layers further on, and nothing
      else changed except the destination's surface. */
  predicate ToImageAdvanced(m: MetaVal, start: MetaVal, k: nat, dist: nat)
  {
    && m == start.(src := m.src, dst := m.dst)
    && m.src == start.src.(x := start.src.x + dist)
    && m.dst.lod == start.dst.lod && m.dst.layer == start.dst.layer + k
    && m.dst.x == start.dst.x && m.dst.y == start.dst.y
  }

  /** Draw `k` of a region: the record after `k` slices, the buffer position
      `k` slices' worth of texels further on, with the destination bound to
      its slice. */
  predicate ToImageSliceDraw(dev: Device, d: MetaVal, start: MetaVal, img: Image, format: Format, k: nat)
  {
    && ToImageAdvanced(d, start, k, Slices(k, start.width * start.height))
    && SliceBound(dev, d.dst, img, format, start.dst.lod, start.dst.layer + k)
  }

  /** What the regions of `vkCmdCopyBufferToImage` leave as set up: the
      mode, the shader, the sample count, the depth/stencil state, the clear
      values, and the buffer binding but for its position. */
  predicate ToImageKept(m: MetaVal, m0: MetaVal)
  {
    && m.mode == m0.mode && m.shader == m0.shader && m.samples == m0.samples
    && m.ds == m0.ds && m.clearVal == m0.clearVal
    && m.src == m0.src.(x := m.src.x)
  }

  lemma ToImageKeptTrans(m2: MetaVal, m1: MetaVal, m0: MetaVal)
    requires ToImageKept(m2, m1) && ToImageKept(m1, m0)
    ensures ToImageKept(m2, m0)
  {
  }

  /** Round `k` of a region started from record `start` begins with the
      record after `k` slices. */
  ghost function ToImageAt(start: MetaVal): (MetaVal, nat) -> bool
  {
    (m: MetaVal, k: nat) => ToImageAdvanced(m, start, k, Slices(k, start.width * start.height))
  }

  /** Round `k` of a region started from record `start` draws slice `k`. */
  ghost function ToImageDrew(dev: Device, start: MetaVal, img: Image, format: Format): (MetaVal, nat) -> bool
  {
    (d: MetaVal, k: nat) => ToImageSliceDraw(dev, d, start, img, format, k)
  }

  /** Slice `k` draws slice `k` and leaves the record after `k + 1` slices. */
  lemma BufferToImageLayerStep(dev: Device, p: World, start: MetaVal, img: Image, format: Format, k: nat)
    requires ToImageAdvanced(p.meta, start, k, Slices(k, start.width * start.height))
    ensures var r := BufferToImageLayer(dev, p, img, format);
            && Extends(p, r) && |r.draws| == |p.draws| + 1
            && ToImageSliceDraw(dev, r.draws[|p.draws|], start, img, format, k)
            && ToImageAdvanced(r.meta, start, k + 1, Slices(k + 1, start.width * start.height))
  {
    var s := SetDstForImg(dev, p, img, format, p.meta.dst.lod, p.meta.dst.layer);
    SetDstBindsSlice(dev, p, img, format, p.meta.dst.lod, p.meta.dst.layer);
    DrawExtends(s);
    ExtendsTrans(p, s, Draw(s));
  }

  /** Every round of the slice loop of `vkCmdCopyBufferToImage` draws the
      slice it is at and moves on one layer and one slice of texels. */
  lemma ToImageSteps(dev: Device, start: MetaVal, img: Image, format: Format)
    ensures OneDrawSteps(ToImageStep(dev, img, format), ToImageAt(start), ToImageDrew(dev, start, img, format))
  {
    var at, drew := ToImageAt(start), ToImageDrew(dev, start, img, format);
    forall x: World, k: nat | at(x.meta, k)
      ensures OneDraw(x, ToImageStep(dev, img, format)(x, k), at, drew, k)
    {
      var r := BufferToImageLayer(dev, x, img, format);
      assert ToImageAdvanced(x.meta, start, k, Slices(k, start.width * start.height));
      BufferToImageLayerStep(dev, x, start, img, format, k);
      assert drew(r.draws[|x.draws|], k) && at(r.meta, k + 1);
    }
  }

  /** What `n` rounds of the loop from `w` to `r` give, spelled out. */
  lemma ToImageSlicesOf(dev: Device, w: World, r: World, img: Image, format: Format, n: nat)
    requires forall i :: |w.draws| <= i < |r.draws| ==> ToImageDrew(dev, w.meta, img, format)(r.draws[i], i - |w.draws|)
    ensures forall i :: |w.draws| <= i < |r.draws| ==> ToImageSliceDraw(dev, r.draws[i], w.meta, img, format, i - |w.draws|)
  {
    forall i | |w.draws| <= i < |r.draws|
      ensures ToImageSliceDraw(dev, r.draws[i], w.meta, img, format, i - |w.draws|)
    {
      assert ToImageDrew(dev, w.meta, img, format)(r.draws[i], i - |w.draws|);
    }
  }

  /** `n` slices of a region: `n` draws, draw `k` being slice `k`, and the
      record left after `n` slices. */
  lemma BufferToImageLayersDraws(dev: Device, w: World, img: Image, format: Format, n: nat)
    ensures var r := BufferToImageLayers(dev, w, img, format, n);
            && Extends(w, r) && |r.draws| == |w.draws| + n
            && ToImageAdvanced(r.meta, w.meta, n, Slices(n, w.meta.width * w.meta.height))
            && forall i :: |w.draws| <= i < |r.draws| ==> ToImageSliceDraw(dev, r.draws[i], w.meta, img, format, i - |w.draws|)
  {
    var r := Loop(ToImageStep(dev, img, format), w, n);
    assert ToImageAt(w.meta)(w.meta, 0);
    ToImageSteps(dev, w.meta, img, format);
    OneDrawLoop(ToImageStep(dev, img, format), ToImageAt(w.meta), ToImageDrew(dev, w.meta, img, format), w, n);
    assert ToImageAt(w.meta)(r.meta, n);
    ToImageSlicesOf(dev, w, r, img, format, n);
  }

  /** Where a region of `vkCmdCopyBufferToImage` starts: the buffer offset
      counted in texels of the image's untyped format, the region's mip
      level and layer, its image coordinates and size in blocks (both
      heights divided by the block width), and the rest of `m` kept. */
  predicate BufferToImageStarts(dev: Device, m: MetaVal, img: Image, r: BufferImageCopy, start: MetaVal)
  {
    var bw := dev.formatBlockWidth(img.format);
    && start.src.x == r.bufferOffset / dev.formatSize(ImgRawFormat(dev, img.format))
    && start.dst.lod == r.imageSubresource.mipLevel
    && start.dst.layer == r.imageSubresource.arraySlice + r.imageOffset.z
    && start.dst.x == r.imageOffset.x / bw && start.dst.y == r.imageOffset.y / bw
    && start.width == r.imageExtent.width / bw && start.height == r.imageExtent.height / bw
    && start.(src := m.src, dst := m.dst, width := m.width, height := m.height) == m
  }

  lemma BufferToImageRegionStartFacts(dev: Device, m: MetaVal, img: Image, r: BufferImageCopy)
    ensures BufferToImageStarts(dev, m, img, r, BufferToImageRegionStart(dev, m, img, r))
  {
  }

  /** One region of `vkCmdCopyBufferToImage`: `depth` draws, starting at the
      buffer offset counted in texels of the image's untyped format and at
      the region's image coordinates and size in blocks (both heights
      divided by the block width), slice `k` reading `k` slices further into
      the buffer and writing image layer `arraySlice + z + k`. */
  lemma BufferToImageRegionDraws(dev: Device, w: World, img: Image, r: BufferImageCopy)
    ensures var res := BufferToImageRegion(dev, w, img, r);
            var start := BufferToImageRegionStart(dev, w.meta, img, r);
            && Extends(w, res) && |res.draws| == |w.draws| + r.imageExtent.depth
            && ToImageAdvanced(res.meta, start, r.imageExtent.depth, Slices(r.imageExtent.depth, start.width * start.height))
            && forall i :: |w.draws| <= i < |res.draws| ==>
                 ToImageSliceDraw(dev, res.draws[i], start, img, ImgRawFormat(dev, img.format), i - |w.draws|)
  {
    var start := BufferToImageRegionStart(dev, w.meta, img, r);
    var w1 := w.(meta := start);
    var format := ImgRawFormat(dev, img.format);
    BufferToImageLayersDraws(dev, w1, img, format, r.imageExtent.depth);
    assert BufferToImageRegion(dev, w, img, r) == BufferToImageLayers(dev, w1, img, format, r.imageExtent.depth);
  }

  /** The regions of `vkCmdCopyBufferToImage` one after the other: one draw
      per slice of each, every draw and the final record keeping the set-up
      of the record `m0` the regions started from. */
  lemma {:induction false} BufferToImageRegionsDraws(dev: Device, w: World, img: Image, regions: seq<BufferImageCopy>,
                                                     m0: MetaVal)
    requires ToImageKept(w.meta, m0)
    ensures var res := BufferToImageRegions(dev, w, img, regions);
            && Extends(w, res) && |res.draws| == |w.draws| + SumOf(regions, (r: BufferImageCopy) => r.imageExtent.depth)
            && ToImageKept(res.meta, m0)
            && forall i :: |w.draws| <= i < |res.draws| ==> ToImageKept(res.draws[i], m0)
    decreases |regions|
  {
    if regions != [] {
      var r0 := regions[0];
      var w1 := BufferToImageRegion(dev, w, img, r0);
      var res := BufferToImageRegions(dev, w1, img, regions[1..]);
      var start := BufferToImageRegionStart(dev, w.meta, img, r0);
      BufferToImageRegionStartFacts(dev, w.meta, img, r0);
      BufferToImageRegionDraws(dev, w, img, r0);
      assert ToImageKept(w1.meta, m0);
      BufferToImageRegionsDraws(dev, w1, img, regions[1..], m0);
      ExtendsTrans(w, w1, res);
      forall i | |w.draws| <= i < |res.draws|
        ensures ToImageKept(res.draws[i], m0)
      {
        if i < |w1.draws| {
          assert res.draws[i] == res.draws[..|w1.draws|][i];
          assert ToImageSliceDraw(dev, w1.draws[i], start, img, ImgRawFormat(dev, img.format), i - |w.draws|);
        }
      }
    }
  }

  /** `vkCmdCopyBufferToImage` draws once per slice of every region, every
      draw a rectangle of the memory-to-image shader with the image's sample
      count and the buffer bound once, in the image's untyped format. */
  lemma CopyBufferToImageOutcome(dev: Device, w: World, buf: Buffer, img: Image, regions: seq<BufferImageCopy>)
    ensures var res := CopyBufferToImage(dev, w, buf, img, regions);
            var init := BufferToImageInit(dev, w, buf, img);
            var v := CreateBufView(dev, Some(buf), buf.size, ImgRawFormat(dev, img.format));
            && Extends(w, res)
            && |res.draws| == |w.draws| + SumOf(regions, (r: BufferImageCopy) => r.imageExtent.depth)
            && init.meta.mode == FsRect && init.meta.shader == FsCopyMemToImg && init.meta.samples == img.samples
            && (v.ViewOk? ==> BoundTo(init.meta.src, ZeroBinding(), v.words, MemBo(buf.mem), RelocNone))
            && forall i :: |w.draws| <= i < |res.draws| ==> ToImageKept(res.draws[i], init.meta)
  {
    var init := BufferToImageInit(dev, w, buf, img);
    var w0 := w.(meta := ZeroMeta().(mode := FsRect, shader := FsCopyMemToImg, samples := img.samples));
    var v := CreateBufView(dev, Some(buf), buf.size, ImgRawFormat(dev, img.format));
    if v.ViewFailed? {
      FailExtends(w0, v.status);
    }
    BufferToImageRegionsDraws(dev, init, img, regions, init.meta);
    ExtendsTrans(w, init, CopyBufferToImage(dev, w, buf, img, regions));
  }

  // ---------------------------------------------------------------------
  // vkCmdCopyImageToBuffer

  /** The record `m` is `start` after `k` slices: the source `k` layers
      further on, the buffer position `k` slices' worth of texels further on,
      and nothing else changed. */
  predicate ToBufferAdvanced(m: MetaVal, start: MetaVal, k: nat)
  {
    && m == start.(src := m.src, dst := m.dst)
    && m.src == start.src.(layer := start.src.layer + k)
    && m.dst == start.dst.(x := start.dst.x + Slices(k, start.width * start.height))
  }

  /** What the regions of `vkCmdCopyImageToBuffer` leave as set up: the
      mode, the shader, the sample count, the depth/stencil state, the clear
      values, the image binding but for its level, layer and coordinates,
      and the buffer binding but for its position. */
  predicate ToBufferKept(m: MetaVal, m0: MetaVal)
  {
    && m.mode == m0.mode && m.shader == m0.shader && m.samples == m0.samples
    && m.ds == m0.ds && m.clearVal == m0.clearVal
    && m.src == m0.src.(lod := m.src.lod, layer := m.src.layer, x := m.src.x, y := m.src.y)
    && m.dst == m0.dst.(x := m.dst.x)
  }

  lemma ToBufferKeptTrans(m2: MetaVal, m1: MetaVal, m0: MetaVal)
    requires ToBufferKept(m2, m1) && ToBufferKept(m1, m0)
    ensures ToBufferKept(m2, m0)
  {
  }

  /** Round `k` of a region started from record `start` begins with, and
      draws, the record after `k` slices. */
  ghost function ToBufferAt(start: MetaVal): (MetaVal, nat) -> bool
  {
    (m: MetaVal, k: nat) => ToBufferAdvanced(m, start, k)
  }

  /** Slice `k` draws the record after `k` slices and leaves the record
      after `k + 1`. */
  lemma ImageToBufferLayerStep(p: World, start: MetaVal, k: nat)
    requires ToBufferAdvanced(p.meta, start, k)
    ensures var r := ImageToBufferLayer(p);
            && Extends(p, r) && |r.draws| == |p.draws| + 1
            && ToBufferAdvanced(r.draws[|p.draws|], start, k)
            && ToBufferAdvanced(r.meta, start, k + 1)
  {
    DrawExtends(p);
  }

  /** Every round of the slice loop of `vkCmdCopyImageToBuffer` draws the
      record it is at and moves on one layer and one slice of texels. */
  lemma ToBufferSteps(start: MetaVal)
    ensures OneDrawSteps(ToBufferStep(), ToBufferAt(start), ToBufferAt(start))
  {
    var at := ToBufferAt(start);
    forall x: World, k: nat | at(x.meta, k)
      ensures OneDraw(x, ToBufferStep()(x, k), at, at, k)
    {
      var r := ImageToBufferLayer(x);
      assert ToBufferAdvanced(x.meta, start, k);
      ImageToBufferLayerStep(x, start, k);
      assert at(r.draws[|x.draws|], k) && at(r.meta, k + 1);
    }
  }

  /** `n` slices of a region: `n` draws, draw `k` being the record after `k`
      slices, and the record left after `n` slices. */
  lemma ImageToBufferLayersDraws(w: World, n: nat)
    ensures var r := ImageToBufferLayers(w, n);
            && Extends(w, r) && |r.draws| == |w.draws| + n
            && ToBufferAdvanced(r.meta, w.meta, n)
            && forall i :: |w.draws| <= i < |r.draws| ==> ToBufferAdvanced(r.draws[i], w.meta, i - |w.draws|)
  {
    var at := ToBufferAt(w.meta);
    var r := ImageToBufferLayers(w, n);
    assert at(w.meta, 0);
    ToBufferSteps(w.meta);
    OneDrawLoop(ToBufferStep(), at, at, w, n);
    assert at(r.meta, n);
    forall i | |w.draws| <= i < |r.draws|
      ensures ToBufferAdvanced(r.draws[i], w.meta, i - |w.draws|)
    {
      assert at(r.draws[i], i - |w.draws|);
    }
  }

  /** One region of `vkCmdCopyImageToBuffer`: `depth` draws, starting at the
      region's image coordinates and size divided by the untyped format's
      block width (both heights too) and at the buffer offset in texels;
      slice `k` reads image layer `arraySlice + z + k` and writes `k` slices'
      worth of texels further into the buffer. */
  lemma ImageToBufferRegionDraws(dev: Device, w: World, imgFormat: Format, r: BufferImageCopy)
    ensures var start := ImageToBufferRegionStart(dev, w.meta, imgFormat, r);
            var res := ImageToBufferLayers(w.(meta := start), r.imageExtent.depth);
            var bw := dev.formatBlockWidth(imgFormat);
            && Extends(w, res) && |res.draws| == |w.draws| + r.imageExtent.depth
            && start.src.lod == r.imageSubresource.mipLevel
            && start.src.layer == r.imageSubresource.arraySlice + r.imageOffset.z
            && start.src.x == r.imageOffset.x / bw && start.src.y == r.imageOffset.y / bw
            && start.dst.x == r.bufferOffset / dev.formatSize(imgFormat)
            && start.width == r.imageExtent.width / bw && start.height == r.imageExtent.height / bw
            && start.(src := w.meta.src, dst := w.meta.dst, width := w.meta.width, height := w.meta.height) == w.meta
            && ToBufferAdvanced(res.meta, start, r.imageExtent.depth)
            && forall i :: |w.draws| <= i < |res.draws| ==> ToBufferAdvanced(res.draws[i], start, i - |w.draws|)
  {
    var start := ImageToBufferRegionStart(dev, w.meta, imgFormat, r);
    var w1 := w.(meta := start);
    ImageToBufferLayersDraws(w1, r.imageExtent.depth);
  }

  /** The regions of `vkCmdCopyImageToBuffer` one after the other: one draw
      per slice of each, every draw and the final record keeping the set-up
      of the record `m0` the regions started from. */
  lemma {:induction false} ImageToBufferRegionsDraws(dev: Device, w: World, imgFormat: Format, regions: seq<BufferImageCopy>,
                                                     m0: MetaVal)
    requires ToBufferKept(w.meta, m0)
    ensures var res := ImageToBufferRegions(dev, w, imgFormat, regions);
            && Extends(w, res) && |res.draws| == |w.draws| + SumOf(regions, (r: BufferImageCopy) => r.imageExtent.depth)
            && ToBufferKept(res.meta, m0)
            && forall i :: |w.draws| <= i < |res.draws| ==> ToBufferKept(res.draws[i], m0)
    decreases |regions|
  {
    if regions != [] {
      var start := ImageToBufferRegionStart(dev, w.meta, imgFormat, regions[0]);
      var w1 := ImageToBufferLayers(w.(meta := start), regions[0].imageExtent.depth);
      var res := ImageToBufferRegions(dev, w1, imgFormat, regions[1..]);
      ImageToBufferRegionDraws(dev, w, imgFormat, regions[0]);
      assert ToBufferKept(w1.meta, m0);
      ImageToBufferRegionsDraws(dev, w1, imgFormat, regions[1..], m0);
      ExtendsTrans(w, w1, res);
      forall i | |w.draws| <= i < |res.draws|
        ensures ToBufferKept(res.draws[i], m0)
      {
        if i < |w1.draws| {
          assert res.draws[i] == res.draws[..|w1.draws|][i];
          assert ToBufferAdvanced(w1.draws[i], start, i - |w.draws|);
        }
      }
    }
  }

  /** `vkCmdCopyImageToBuffer` refuses, before any draw and with one
      failure, an image whose texel size has no untyped format or (on GEN6)
      is below four bytes; otherwise it draws once per slice of every region,
      every draw single-sampled points of the shader chosen by the texel
      size, with the image bound once as source and the buffer once as
      destination in the chosen stride. */
  lemma CopyImageToBufferOutcome(dev: Device, w: World, img: Image, buf: Buffer, regions: seq<BufferImageCopy>)
    ensures var res := CopyImageToBuffer(dev, w, img, buf, regions);
            && Extends(w, res)
            && (ImageToBufferRefused(dev, img) ==> res.draws == w.draws && res.errors == w.errors + [ErrorUnknown])
            && (!ImageToBufferRefused(dev, img) ==>
                  var imgFormat := ImgRawFormat(dev, img.format);
                  var c := ImageToBufferChoice(imgFormat).value;
                  var init := ImageToBufferInit(dev, w, img, buf, c);
                  var vs := dev.imgView(SrcImgViewInfo(img, imgFormat, Color));
                  var vd := CreateBufView(dev, Some(buf), buf.size, c.bufFormat);
                  && |res.draws| == |w.draws| + SumOf(regions, (r: BufferImageCopy) => r.imageExtent.depth)
                  && init.meta.mode == VsPoints && init.meta.shader == c.shader && init.meta.samples == 1
                  && (vs.ViewOk? ==> BoundTo(init.meta.src, ZeroBinding(), vs.words, MemBo(img.mem), RelocNone))
                  && (vd.ViewOk? ==> BoundTo(init.meta.dst, ZeroBinding(), vd.words, MemBo(buf.mem), RelocWrite))
                  && forall i :: |w.draws| <= i < |res.draws| ==> ToBufferKept(res.draws[i], init.meta))
  {
    var imgFormat := ImgRawFormat(dev, img.format);
    if !ImageToBufferRefused(dev, img) {
      var c := ImageToBufferChoice(imgFormat).value;
      var w1 := w.(meta := ZeroMeta().(mode := VsPoints, shader := c.shader));
      var ws := SetSrcForImg(dev, w1, img, imgFormat, Color);
      var w2 := SetDstForBuf(dev, ws, buf, c.bufFormat);
      var vs := dev.imgView(SrcImgViewInfo(img, imgFormat, Color));
      var vd := CreateBufView(dev, Some(buf), buf.size, c.bufFormat);
      if vs.ViewFailed? { FailExtends(w1, vs.status); }
      if vd.ViewFailed? { FailExtends(ws, vd.status); }
      ExtendsTrans(w1, ws, w2);
      var w3 := ImageToBufferInit(dev, w, img, buf, c);
      ImageToBufferRegionsDraws(dev, w3, imgFormat, regions, w3.meta);
      ExtendsTrans(w, w3, CopyImageToBuffer(dev, w, img, buf, regions));
    }
  }
}

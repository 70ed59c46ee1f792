/** The meta operations as maps from one `World` to the next.  A loop of the
    driver over a list (regions, ranges, rectangles) is a recursive function
    over the part not yet visited; a counted loop (slices, mip levels) is
    `Loop` applied to a step function that is the loop's body.  The loops of
    `CmdOps` keep "the function applied to what is done so far gives the
    current world" or "what remains, applied to the current world, gives the
    final world" as their invariant. */
module MetaOps {
  import opened Vk
  import opened Device
  import opened MetaHelpers
  import opened MetaState
  import opened Builders

  // ---------------------------------------------------------------------
  // Counted loops

  /** `n` rounds of a loop whose body is `f`: round `i` works on what the
      rounds before it left. */
  function Loop(f: (World, nat) -> World, w: World, n: nat): World
    decreases n
  {
    if n == 0 then w else f(Loop(f, w, n - 1), n - 1)
  }

  // ---------------------------------------------------------------------
  // vkCmdCopyBuffer

  /** The record before the first region: points mode, one row, one sample. */
  function CopyBufferInit(w: World): World
  {
    w.(meta := ZeroMeta().(mode := VsPoints, height := 1, samples := 1))
  }

  /** A region's byte offsets and size, as the record first takes them. */
  function CopyBufferCoords(m: MetaVal, r: BufferCopy): MetaVal
  {
    m.(src := m.src.(x := r.srcOffset), dst := m.dst.(x := r.destOffset), width := r.copySize)
  }

  /** The shader and working format of a region whose coordinates are in `m`:
      dword units and a 16-byte stride when aligned, bytes and a 4-byte stride
      otherwise.  `None` is the GEN6 refusal of an unaligned copy. */
  function CopyBufferSetup(dev: Device, m: MetaVal, r: BufferCopy): Option<(MetaVal, Format)>
  {
    if DwordAligned(r.srcOffset, r.destOffset, r.copySize) then
      Some((m.(shader := VsCopyMem, src := m.src.(x := m.src.x / 4),
               dst := m.dst.(x := m.dst.x / 4), width := m.width / 4),
            R32G32B32A32Uint))
    else if dev.gen == Gen6 then None
    else Some((m.(shader := VsCopyMemUnaligned), R8G8B8A8Uint))
  }

  /** The bindings are rebuilt only when the working format changes. */
  function CopyBufferBind(dev: Device, w: World, format: Format, fmt: Format, src: Buffer, dst: Buffer): World
  {
    if format != fmt then SetDstForBuf(dev, SetSrcForBuf(dev, w, src, fmt), dst, fmt) else w
  }

  /** One region: the world and the cached working format afterwards. */
  function CopyBufferRegion(dev: Device, w: World, format: Format, src: Buffer, dst: Buffer, r: BufferCopy): (World, Format)
  {
    var m := CopyBufferCoords(w.meta, r);
    match CopyBufferSetup(dev, m, r)
    case None => (Fail(w.(meta := m), ErrorUnknown), format)
    case Some(choice) =>
      (Draw(CopyBufferBind(dev, w.(meta := choice.0), format, choice.1, src, dst)), choice.1)
  }

  function CopyBufferRegions(dev: Device, w: World, format: Format, src: Buffer, dst: Buffer, regions: seq<BufferCopy>): World
    decreases |regions|
  {
    if regions == [] then w
    else
      var next := CopyBufferRegion(dev, w, format, src, dst, regions[0]);
      CopyBufferRegions(dev, next.0, next.1, src, dst, regions[1..])
  }

  /** `vkCmdCopyBuffer`; the cached format starts as `VK_FORMAT_UNDEFINED`. */
  function CopyBuffer(dev: Device, w: World, src: Buffer, dst: Buffer, regions: seq<BufferCopy>): World
  {
    CopyBufferRegions(dev, CopyBufferInit(w), Undefined, src, dst, regions)
  }

  // ---------------------------------------------------------------------
  // vkCmdCopyImage

  /** The format the source is viewed in and the destination written in: the
      untyped format for a raw copy, the image's own format otherwise. */
  function CopyFormat(img: Image, raw: Option<Format>): Format
  {
    if raw.Some? then raw.value else img.format
  }

  /** The record before the first region: rectangle mode, the source bound
      once, and the destination's sample count. */
  function CopyImageInit(dev: Device, w: World, src: Image, dst: Image, raw: Option<Format>): World
  {
    var w1 := SetSrcForImg(dev, w.(meta := ZeroMeta().(mode := FsRect)), src, CopyFormat(src, raw), Color);
    w1.(meta := w1.meta.(samples := dst.samples))
  }

  /** A region's shader and coordinates; a raw copy divides all six values by
      the untyped format's block width (the heights too). */
  function CopyImageRegionStart(dev: Device, m: MetaVal, src: Image, raw: Option<Format>, r: ImageCopy): MetaVal
  {
    var m1 := m.(shader := CopyShader(src, r.extent.depth > 1),
                 src := m.src.(lod := r.srcSubresource.mipLevel,
                               layer := r.srcSubresource.arraySlice + r.srcOffset.z,
                               x := r.srcOffset.x, y := r.srcOffset.y),
                 dst := m.dst.(lod := r.destSubresource.mipLevel,
                               layer := r.destSubresource.arraySlice + r.destOffset.z,
                               x := r.destOffset.x, y := r.destOffset.y),
                 width := r.extent.width, height := r.extent.height);
    if raw.Some? then
      var bw := dev.formatBlockWidth(raw.value);
      m1.(src := m1.src.(x := m1.src.x / bw, y := m1.src.y / bw),
          dst := m1.dst.(x := m1.dst.x / bw, y := m1.dst.y / bw),
          width := m1.width / bw, height := m1.height / bw)
    else m1
  }

  /** One slice: bind the destination slice, draw, advance both layers. */
  function CopyImageLayer(dev: Device, w: World, dst: Image, format: Format): World
  {
    var w1 := Draw(SetDstForImg(dev, w, dst, format, w.meta.dst.lod, w.meta.dst.layer));
    w1.(meta := w1.meta.(src := w1.meta.src.(layer := w1.meta.src.layer + 1),
                         dst := w1.meta.dst.(layer := w1.meta.dst.layer + 1)))
  }

  /** The body of the slice loop of `vkCmdCopyImage`. */
  function CopyLayerStep(dev: Device, dst: Image, format: Format): (World, nat) -> World
  {
    (x: World, k: nat) => CopyImageLayer(dev, x, dst, format)
  }

  /** The first `n` slices of a region. */
  function CopyImageLayers(dev: Device, w: World, dst: Image, format: Format, n: nat): World
  {
    Loop(CopyLayerStep(dev, dst, format), w, n)
  }

  function CopyImageRegion(dev: Device, w: World, src: Image, dst: Image, raw: Option<Format>, r: ImageCopy): World
  {
    CopyImageLayers(dev, w.(meta := CopyImageRegionStart(dev, w.meta, src, raw, r)), dst, CopyFormat(dst, raw), r.extent.depth)
  }

  function CopyImageRegions(dev: Device, w: World, src: Image, dst: Image, raw: Option<Format>, regions: seq<ImageCopy>): World
    decreases |regions|
  {
    if regions == [] then w
    else CopyImageRegions(dev, CopyImageRegion(dev, w, src, dst, raw, regions[0]), src, dst, raw, regions[1..])
  }

  /** Which of the two image-copy refusals applies: different image types, or
      different formats one of which is compressed. */
  predicate CopyImageRefused(dev: Device, src: Image, dst: Image)
  {
    || src.imageType != dst.imageType
    || (src.format != dst.format && (dev.isCompressed(src.format) || dev.isCompressed(dst.format)))
  }

  /** `vkCmdCopyImage`: images of one format are copied raw, through the
      untyped format of their texel size. */
  function CopyImage(dev: Device, w: World, src: Image, dst: Image, regions: seq<ImageCopy>): World
  {
    if CopyImageRefused(dev, src, dst) then Fail(w, ErrorUnknown)
    else
      var raw := if src.format == dst.format then Some(ImgRawFormat(dev, src.format)) else None;
      CopyImageRegions(dev, CopyImageInit(dev, w, src, dst, raw), src, dst, raw, regions)
  }

  /** `vkCmdBlitImage` is not implemented and always fails as unavailable. */
  function BlitImage(w: World): World
  {
    Fail(w, ErrorUnavailable)
  }

  // ---------------------------------------------------------------------
  // vkCmdCopyBufferToImage

  function BufferToImageInit(dev: Device, w: World, buf: Buffer, img: Image): World
  {
    var m := ZeroMeta().(mode := FsRect, shader := FsCopyMemToImg, samples := img.samples);
    SetSrcForBuf(dev, w.(meta := m), buf, ImgRawFormat(dev, img.format))
  }

  /** A region's coordinates: the buffer offset in texels of the untyped
      format, the image coordinates and extent divided by the image format's
      block width (the heights too). */
  function BufferToImageRegionStart(dev: Device, m: MetaVal, img: Image, r: BufferImageCopy): MetaVal
  {
    var format := ImgRawFormat(dev, img.format);
    var bw := dev.formatBlockWidth(img.format);
    m.(src := m.src.(x := r.bufferOffset / dev.formatSize(format)),
       dst := m.dst.(lod := r.imageSubresource.mipLevel,
                     layer := r.imageSubresource.arraySlice + r.imageOffset.z,
                     x := r.imageOffset.x / bw, y := r.imageOffset.y / bw),
       width := r.imageExtent.width / bw, height := r.imageExtent.height / bw)
  }

  /** One slice: bind the destination slice, draw, move the buffer position
      past one slice's texels and go to the next layer. */
  function BufferToImageLayer(dev: Device, w: World, img: Image, format: Format): World
  {
    var w1 := Draw(SetDstForImg(dev, w, img, format, w.meta.dst.lod, w.meta.dst.layer));
    w1.(meta := w1.meta.(src := w1.meta.src.(x := w1.meta.src.x + w1.meta.width * w1.meta.height),
                         dst := w1.meta.dst.(layer := w1.meta.dst.layer + 1)))
  }

  /** The body of the slice loop of `vkCmdCopyBufferToImage`. */
  function ToImageStep(dev: Device, img: Image, format: Format): (World, nat) -> World
  {
    (x: World, k: nat) => BufferToImageLayer(dev, x, img, format)
  }

  /** The first `n` slices of a region. */
  function BufferToImageLayers(dev: Device, w: World, img: Image, format: Format, n: nat): World
  {
    Loop(ToImageStep(dev, img, format), w, n)
  }

  function BufferToImageRegion(dev: Device, w: World, img: Image, r: BufferImageCopy): World
  {
    BufferToImageLayers(dev, w.(meta := BufferToImageRegionStart(dev, w.meta, img, r)), img,
                        ImgRawFormat(dev, img.format), r.imageExtent.depth)
  }

  function BufferToImageRegions(dev: Device, w: World, img: Image, regions: seq<BufferImageCopy>): World
    decreases |regions|
  {
    if regions == [] then w
    else BufferToImageRegions(dev, BufferToImageRegion(dev, w, img, regions[0]), img, regions[1..])
  }

  /** `vkCmdCopyBufferToImage`. */
  function CopyBufferToImage(dev: Device, w: World, buf: Buffer, img: Image, regions: seq<BufferImageCopy>): World
  {
    BufferToImageRegions(dev, BufferToImageInit(dev, w, buf, img), img, regions)
  }

  // ---------------------------------------------------------------------
  // vkCmdCopyImageToBuffer

  /** The refusal of `vkCmdCopyImageToBuffer`: no untyped format for the
      texel size, or a texel below four bytes on GEN6. */
  predicate ImageToBufferRefused(dev: Device, img: Image)
  {
    var imgFormat := ImgRawFormat(dev, img.format);
    ImageToBufferChoice(imgFormat).None? || (dev.gen == Gen6 && dev.formatSize(imgFormat) < 4)
  }

  /** A region's coordinates: image coordinates and extent divided by the
      untyped format's block width (the heights too), the buffer offset in
      texels. */
  function ImageToBufferRegionStart(dev: Device, m: MetaVal, imgFormat: Format, r: BufferImageCopy): MetaVal
  {
    var bw := dev.formatBlockWidth(imgFormat);
    m.(src := m.src.(lod := r.imageSubresource.mipLevel,
                     layer := r.imageSubresource.arraySlice + r.imageOffset.z,
                     x := r.imageOffset.x / bw, y := r.imageOffset.y / bw),
       dst := m.dst.(x := r.bufferOffset / dev.formatSize(imgFormat)),
       width := r.imageExtent.width / bw, height := r.imageExtent.height / bw)
  }

  /** One slice: draw, go to the next layer, move the buffer position past
      one slice's texels. */
  function ImageToBufferLayer(w: World): World
  {
    var w1 := Draw(w);
    w1.(meta := w1.meta.(src := w1.meta.src.(layer := w1.meta.src.layer + 1),
                         dst := w1.meta.dst.(x := w1.meta.dst.x + w1.meta.width * w1.meta.height)))
  }

  /** The body of the slice loop of `vkCmdCopyImageToBuffer`. */
  function ToBufferStep(): (World, nat) -> World
  {
    (x: World, k: nat) => ImageToBufferLayer(x)
  }

  /** The first `n` slices of a region. */
  function ImageToBufferLayers(w: World, n: nat): World
  {
    Loop(ToBufferStep(), w, n)
  }

  function ImageToBufferRegions(dev: Device, w: World, imgFormat: Format, regions: seq<BufferImageCopy>): World
    decreases |regions|
  {
    if regions == [] then w
    else
      var w1 := w.(meta := ImageToBufferRegionStart(dev, w.meta, imgFormat, regions[0]));
      ImageToBufferRegions(dev, ImageToBufferLayers(w1, regions[0].imageExtent.depth), imgFormat, regions[1..])
  }

  /** The set-up of `vkCmdCopyImageToBuffer` once the shader `c` is chosen:
      points of that shader, the image as source in its untyped format, the
      buffer as destination in the chosen stride, one sample. */
  function ImageToBufferInit(dev: Device, w: World, img: Image, buf: Buffer, c: ToMemChoice): World
  {
    var w1 := w.(meta := ZeroMeta().(mode := VsPoints, shader := c.shader));
    var w2 := SetDstForBuf(dev, SetSrcForImg(dev, w1, img, ImgRawFormat(dev, img.format), Color), buf, c.bufFormat);
    w2.(meta := w2.meta.(samples := 1))
  }

  /** `vkCmdCopyImageToBuffer`: the shader and the buffer's stride come from
      the image's untyped format. */
  function CopyImageToBuffer(dev: Device, w: World, img: Image, buf: Buffer, regions: seq<BufferImageCopy>): World
  {
    var imgFormat := ImgRawFormat(dev, img.format);
    var w0 := w.(meta := ZeroMeta().(mode := VsPoints));
    match ImageToBufferChoice(imgFormat)
    case None => Fail(w0, ErrorUnknown)
    case Some(c) =>
      var w1 := w0.(meta := w0.meta.(shader := c.shader));
      if dev.gen == Gen6 && dev.formatSize(imgFormat) < 4 then Fail(w1, ErrorUnknown)
      else ImageToBufferRegions(dev, ImageToBufferInit(dev, w, img, buf, c), imgFormat, regions)
  }

  // ---------------------------------------------------------------------
  // vkCmdUpdateBuffer and vkCmdFillBuffer

  /** The record of an update: `stateOffset` is where `cmd_state_pointer`
      placed the data in the state writer. */
  function UpdateMeta(destOffset: DeviceSize, dataSize: DeviceSize, stateOffset: nat): MetaVal
  {
    var z := ZeroMeta();
    z.(mode := VsPoints, shader := VsCopyMem,
       src := z.src.(x := stateOffset / 4), dst := z.dst.(x := destOffset / 4),
       width := dataSize / 4, height := 1, samples := 1)
  }

  /** `vkCmdUpdateBuffer`: the data was written to the state writer at
      `stateOffset`; it is copied from there into the buffer by one draw. */
  function UpdateBuffer(dev: Device, w: World, dst: Buffer, destOffset: DeviceSize, dataSize: DeviceSize, stateOffset: nat): World
  {
    if !OffsetSizeAligned(destOffset, dataSize) then Fail(w, ErrorUnknown)
    else
      var w1 := SetSrcForWriter(dev, w.(meta := UpdateMeta(destOffset, dataSize, stateOffset)),
                                StateWriter, stateOffset + dataSize, R32G32B32A32Uint);
      Draw(SetDstForBuf(dev, w1, dst, R32G32B32A32Uint))
  }

  function FillMeta(destOffset: DeviceSize, fillSize: DeviceSize, data: U32): MetaVal
  {
    var z := ZeroMeta();
    z.(mode := VsPoints, shader := VsFillMem, clearVal := z.clearVal[0 := data],
       dst := z.dst.(x := destOffset / 4), width := fillSize / 4, height := 1, samples := 1)
  }

  /** `vkCmdFillBuffer`: one draw writes the dword `data` over the range. */
  function FillBuffer(dev: Device, w: World, dst: Buffer, destOffset: DeviceSize, fillSize: DeviceSize, data: U32): World
  {
    if !OffsetSizeAligned(destOffset, fillSize) then Fail(w, ErrorUnknown)
    else Draw(SetDstForBuf(dev, w.(meta := FillMeta(destOffset, fillSize, data)), dst, R32G32B32A32Uint))
  }

  // ---------------------------------------------------------------------
  // cmd_meta_clear_image

  function Min(a: nat, b: nat): nat
  {
    if a <= b then a else b
  }

  /** The range misses the image: its base mip level or base slice is past
      the image's. */
  predicate ClearOutOfRange(img: Image, range: SubresourceRange)
  {
    range.baseMipLevel >= img.mipLevels || range.baseArraySlice >= img.arraySize
  }

  /** The number of mip levels and of slices a range clears. */
  function ClearMipCount(img: Image, range: SubresourceRange): nat
  {
    if range.baseMipLevel >= img.mipLevels then 0
    else Min(img.mipLevels - range.baseMipLevel, range.mipLevels)
  }

  function ClearLayerCount(img: Image, range: SubresourceRange): nat
  {
    if range.baseArraySlice >= img.arraySize then 0
    else Min(img.arraySize - range.baseArraySlice, range.arraySize)
  }

  /** One slice: a colour view, or a depth/stencil view and state, then a
      draw, then the next layer. */
  function ClearLayer(dev: Device, w: World, img: Image, format: Format, aspect: Aspect): World
  {
    var w1 :=
      if aspect == Color then
        Draw(SetDstForImg(dev, w, img, format, w.meta.dst.lod, w.meta.dst.layer))
      else
        var w0 := SetDsView(dev, w, img, w.meta.dst.lod, w.meta.dst.layer);
        Draw(w0.(meta := SetDsState(w0.meta, aspect, w0.meta.clearVal[1])));
    w1.(meta := w1.meta.(dst := w1.meta.dst.(layer := w1.meta.dst.layer + 1)))
  }

  /** The body of the slice loop. */
  function SliceStep(dev: Device, img: Image, format: Format, aspect: Aspect): (World, nat) -> World
  {
    (x: World, j: nat) => ClearLayer(dev, x, img, format, aspect)
  }

  /** The first `n` slices of a mip level. */
  function ClearLayers(dev: Device, w: World, img: Image, format: Format, aspect: Aspect, n: nat): World
  {
    Loop(SliceStep(dev, img, format, aspect), w, n)
  }

  /** A mip level is skipped when a Hi-Z operation is asked for and Hi-Z
      cannot be enabled at that level. */
  predicate SkipsMip(dev: Device, op: DsOp, img: Image, lod: nat)
  {
    op != DsNop && !dev.canEnableHiz(img, lod)
  }

  /** The record at the start of mip level `base + i`: the level, the base
      slice, and the level's size. */
  function MipStart(dev: Device, m: MetaVal, img: Image, range: SubresourceRange, i: nat): MetaVal
  {
    var lod := range.baseMipLevel + i;
    m.(dst := m.dst.(lod := lod, layer := range.baseArraySlice),
       width := dev.minify(img.width0, lod), height := dev.minify(img.height0, lod))
  }

  function ClearMip(dev: Device, w: World, img: Image, format: Format, range: SubresourceRange, layers: nat, i: nat): World
  {
    var w1 := w.(meta := MipStart(dev, w.meta, img, range, i));
    if SkipsMip(dev, w1.meta.ds.op, img, range.baseMipLevel + i) then w1
    else ClearLayers(dev, w1, img, format, range.aspect, layers)
  }

  /** The body of the mip-level loop. */
  function LevelStep(dev: Device, img: Image, format: Format, range: SubresourceRange, layers: nat): (World, nat) -> World
  {
    (x: World, i: nat) => ClearMip(dev, x, img, format, range, layers, i)
  }

  /** The first `n` mip levels of the range. */
  function ClearMips(dev: Device, w: World, img: Image, format: Format, range: SubresourceRange, layers: nat, n: nat): World
  {
    Loop(LevelStep(dev, img, format, range, layers), w, n)
  }

  /** `cmd_meta_clear_image`: every slice of every mip level of the range
      that lies inside the image, with the record `w.meta` set up by the
      caller. */
  function ClearImage(dev: Device, w: World, img: Image, format: Format, range: SubresourceRange): World
  {
    if ClearOutOfRange(img, range) then w
    else ClearMips(dev, w, img, format, range, ClearLayerCount(img, range), ClearMipCount(img, range))
  }

  function ClearRanges(dev: Device, w: World, img: Image, format: Format, ranges: seq<SubresourceRange>): World
    decreases |ranges|
  {
    if ranges == [] then w
    else ClearRanges(dev, ClearImage(dev, w, img, format, ranges[0]), img, format, ranges[1..])
  }

  // ---------------------------------------------------------------------
  // cmd_meta_ds_op and the clears

  /** The record of a Hi-Z operation. */
  function DsOpMeta(op: DsOp, img: Image): MetaVal
  {
    var z := ZeroMeta();
    z.(mode := DepthStencilRect, samples := img.samples,
       ds := z.ds.(aspect := Depth, op := op, optimal := true))
  }

  /** `cmd_meta_ds_op`: only for the depth aspect of an image with a Hi-Z
      buffer; anything else does nothing. */
  function DepthStencilOp(dev: Device, w: World, op: DsOp, img: Image, range: SubresourceRange): World
  {
    if !img.hiz || range.aspect != Depth then w
    else ClearImage(dev, w.(meta := DsOpMeta(op, img)), img, img.format, range)
  }

  function ClearColorMeta(img: Image, color: ClearColor): MetaVal
  {
    ZeroMeta().(mode := FsRect, shader := FsClearColor, samples := img.samples,
                clearVal := [color.r, color.g, color.b, color.a])
  }

  /** `cmd_meta_clear_color_image` (and `vkCmdClearColorImage`). */
  function ClearColorImage(dev: Device, w: World, img: Image, color: ClearColor, ranges: seq<SubresourceRange>): World
  {
    ClearRanges(dev, w.(meta := ClearColorMeta(img, color)), img, img.format, ranges)
  }

  /** The layout test of `cmd_meta_clear_depth_stencil_image`. */
  predicate DsOptimalLayout(layout: ImageLayout)
  {
    layout == DepthStencilAttachmentOptimal || layout == DepthStencilReadOnlyOptimal
  }

  /** The record of a depth/stencil clear; `depthBits` is the bit pattern of
      the float depth. */
  function ClearDsMeta(img: Image, layout: ImageLayout, depthBits: U32, stencil: U32): MetaVal
  {
    var z := ZeroMeta();
    z.(mode := DepthStencilRect, shader := FsClearDepth, samples := img.samples,
       clearVal := [depthBits, stencil, 0, 0], ds := z.ds.(optimal := DsOptimalLayout(layout)))
  }

  /** `cmd_meta_clear_depth_stencil_image` (and `vkCmdClearDepthStencilImage`). */
  function ClearDepthStencilImage(dev: Device, w: World, img: Image, layout: ImageLayout, depthBits: U32, stencil: U32,
                                  ranges: seq<SubresourceRange>): World
  {
    ClearRanges(dev, w.(meta := ClearDsMeta(img, layout, depthBits, stencil)), img, img.format, ranges)
  }

  /** The whole-layer range a rectangle of a colour attachment clears. */
  function ColorAttachmentRange(view: AttachmentView, rect: Rect3D): SubresourceRange
  {
    SubresourceRange(Color, view.mipLevel, 1, rect.offset.z, rect.extent.depth)
  }

  /** `vkCmdClearColorAttachment`: one colour-image clear per rectangle. */
  function ClearColorAttachment(dev: Device, w: World, view: AttachmentView, color: ClearColor, rects: seq<Rect3D>): World
    decreases |rects|
  {
    if rects == [] then w
    else
      var w1 := ClearColorImage(dev, w, view.image, color, [ColorAttachmentRange(view, rects[0])]);
      ClearColorAttachment(dev, w1, view, color, rects[1..])
  }

  /** The depth range a rectangle of a depth/stencil attachment clears; the
      mip level is always 0. */
  function DsAttachmentRange(rect: Rect3D): SubresourceRange
  {
    SubresourceRange(Depth, 0, 1, rect.offset.z, rect.extent.depth)
  }

  /** One rectangle: a depth clear if the depth bit is set, then a stencil
      clear of the same slices if the stencil bit is set. */
  function DsAttachmentRect(dev: Device, w: World, view: AttachmentView, aspects: AspectFlags, layout: ImageLayout,
                            depthBits: U32, stencil: U32, rect: Rect3D): World
  {
    var range := DsAttachmentRange(rect);
    var w1 := if aspects.depth then ClearDepthStencilImage(dev, w, view.image, layout, depthBits, stencil, [range]) else w;
    if aspects.stencil then ClearDepthStencilImage(dev, w1, view.image, layout, depthBits, stencil, [range.(aspect := Stencil)])
    else w1
  }

  /** `vkCmdClearDepthStencilAttachment`. */
  function ClearDepthStencilAttachment(dev: Device, w: World, view: AttachmentView, aspects: AspectFlags, layout: ImageLayout,
                                       depthBits: U32, stencil: U32, rects: seq<Rect3D>): World
    decreases |rects|
  {
    if rects == [] then w
    else
      var w1 := DsAttachmentRect(dev, w, view, aspects, layout, depthBits, stencil, rects[0]);
      ClearDepthStencilAttachment(dev, w1, view, aspects, layout, depthBits, stencil, rects[1..])
  }

  // ---------------------------------------------------------------------
  // vkCmdResolveImage

  /** The refusal of `vkCmdResolveImage`. */
  predicate ResolveRefused(src: Image, dst: Image)
  {
    src.samples <= 1 || dst.samples > 1 || src.format != dst.format
  }

  /** The record of slice `s` of a region. */
  function ResolveSliceMeta(m: MetaVal, r: ImageResolve, s: nat): MetaVal
  {
    m.(src := m.src.(lod := r.srcSubresource.mipLevel, layer := r.srcSubresource.arraySlice + s,
                     x := r.srcOffset.x, y := r.srcOffset.y),
       dst := m.dst.(lod := r.destSubresource.mipLevel, layer := r.destSubresource.arraySlice + s,
                     x := r.destOffset.x, y := r.destOffset.y),
       width := r.extent.width, height := r.extent.height)
  }

  function ResolveSlice(dev: Device, w: World, dst: Image, format: Format, r: ImageResolve, s: nat): World
  {
    var m := ResolveSliceMeta(w.meta, r, s);
    Draw(SetDstForImg(dev, w.(meta := m), dst, format, m.dst.lod, m.dst.layer))
  }

  /** The body of the slice loop of `vkCmdResolveImage`. */
  function ResolveStep(dev: Device, dst: Image, format: Format, r: ImageResolve): (World, nat) -> World
  {
    (x: World, s: nat) => ResolveSlice(dev, x, dst, format, r, s)
  }

  /** The first `n` slices of a region. */
  function ResolveSlices(dev: Device, w: World, dst: Image, format: Format, r: ImageResolve, n: nat): World
  {
    Loop(ResolveStep(dev, dst, format, r), w, n)
  }

  function ResolveRegions(dev: Device, w: World, dst: Image, format: Format, regions: seq<ImageResolve>): World
    decreases |regions|
  {
    if regions == [] then w
    else ResolveRegions(dev, ResolveSlices(dev, w, dst, format, regions[0], regions[0].extent.depth), dst, format, regions[1..])
  }

  function ResolveMeta(src: Image): MetaVal
  {
    ZeroMeta().(mode := FsRect, shader := ResolveShader(src.samples), samples := 1)
  }

  /** `vkCmdResolveImage`. */
  function ResolveImage(dev: Device, w: World, src: Image, dst: Image, regions: seq<ImageResolve>): World
  {
    if ResolveRefused(src, dst) then Fail(w, ErrorUnknown)
    else
      var format := ImgRawFormat(dev, src.format);
      ResolveRegions(dev, SetSrcForImg(dev, w.(meta := ResolveMeta(src)), src, format, Color), dst, format, regions)
  }
}

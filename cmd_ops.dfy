/** The meta operations of the command buffer as methods: each creates its
    own record (or, for `cmd_meta_clear_image`, works on the caller's), fills
    it region by region, slice by slice, and leaves the command buffer's draw
    and error logs exactly as the pure specification in `MetaOps` says when
    started from a zeroed record. */
module CmdOps {
  import opened Vk
  import opened Device
  import opened MetaHelpers
  import opened MetaState
  import opened CmdMeta
  import MetaOps
  import Builders

  /** The world an operation starts from: a zeroed record and the command
      buffer's logs as they are. */
  function Start(cmd: Cmd): World
    reads cmd
  {
    World(ZeroMeta(), cmd.draws, cmd.errors)
  }

  /** What a meta operation leaves behind: its draws and its failures. */
  function Logs(w: World): (seq<MetaVal>, seq<Status>)
  {
    (w.draws, w.errors)
  }

  // ---------------------------------------------------------------------
  // vkCmdCopyBuffer

  /** A region's coordinates, shader and working format: dword units when
      source offset, destination offset and size are all dword-aligned, bytes
      otherwise; `ok` is false for the GEN6 refusal of an unaligned copy. */
  method CopyBufferSetup(dev: Device, meta: MetaOp, region: BufferCopy) returns (ok: bool, fmt: Format)
    requires meta.Valid()
    modifies meta, meta.src, meta.dst
    ensures var setup := MetaOps.CopyBufferSetup(dev, MetaOps.CopyBufferCoords(old(meta.Value()), region), region);
            && ok == setup.Some?
            && (ok ==> (meta.Value(), fmt) == setup.value)
            && (!ok ==> meta.Value() == MetaOps.CopyBufferCoords(old(meta.Value()), region))
  {
    ghost var m := meta.Value();
    meta.src.x := region.srcOffset;
    meta.dst.x := region.destOffset;
    meta.width := region.copySize;
    assert meta.Value() == MetaOps.CopyBufferCoords(m, region);

    if DwordAligned(region.srcOffset, region.destOffset, region.copySize) {
      meta.shader := VsCopyMem;
      meta.src.x := meta.src.x / 4;
      meta.dst.x := meta.dst.x / 4;
      meta.width := meta.width / 4;
      return true, R32G32B32A32Uint;
    }
    if dev.gen == Gen6 {
      return false, Undefined;
    }
    meta.shader := VsCopyMemUnaligned;
    return true, R8G8B8A8Uint;
  }

  /** Both bindings are rebuilt in the new working format when it differs
      from the cached one. */
  method CopyBufferBind(cmd: Cmd, meta: MetaOp, format: Format, fmt: Format, src: Buffer, dst: Buffer)
    requires meta.Valid()
    modifies cmd, meta.src, meta.dst, meta.src.surface, meta.dst.surface
    ensures WorldOf(cmd, meta) == MetaOps.CopyBufferBind(cmd.dev, old(WorldOf(cmd, meta)), format, fmt, src, dst)
  {
    if format != fmt {
      SetSrcForBuf(cmd, src, fmt, meta);
      SetDstForBuf(cmd, dst, fmt, meta);
    }
  }

  /** The body of the region loop of `vkCmdCopyBuffer`; `format` is the
      working format cached from the previous region, `fmt` the one after
      this region.  A refused region is recorded as a failure and the loop
      goes on. */
  method CopyBufferRegion(cmd: Cmd, meta: MetaOp, format: Format, src: Buffer, dst: Buffer, region: BufferCopy)
    returns (fmt: Format)
    requires meta.Valid()
    modifies cmd, meta, meta.src, meta.dst, meta.src.surface, meta.dst.surface
    ensures (WorldOf(cmd, meta), fmt) == MetaOps.CopyBufferRegion(cmd.dev, old(WorldOf(cmd, meta)), format, src, dst, region)
  {
    ghost var w := WorldOf(cmd, meta);
    var ok;
    ok, fmt := CopyBufferSetup(cmd.dev, meta, region);
    if !ok {
      cmd.Fail(ErrorUnknown);
      return format;
    }
    CopyBufferBind(cmd, meta, format, fmt, src, dst);
    cmd.DrawMeta(meta);
  }

  /** `vkCmdCopyBuffer`. */
  method CopyBuffer(cmd: Cmd, src: Buffer, dst: Buffer, regions: seq<BufferCopy>)
    modifies cmd
    ensures var r := MetaOps.CopyBuffer(cmd.dev, World(ZeroMeta(), old(cmd.draws), old(cmd.errors)), src, dst, regions);
            cmd.draws == r.draws && cmd.errors == r.errors
  {
    var meta := new MetaOp();
    meta.mode := VsPoints;
    meta.height := 1;
    meta.samples := 1;
    var format := Undefined;
    ghost var w0 := MetaOps.CopyBufferInit(World(ZeroMeta(), old(cmd.draws), old(cmd.errors)));
    assert WorldOf(cmd, meta) == w0;

    for i := 0 to |regions|
      invariant meta.Valid() && fresh(meta.Repr())
      invariant MetaOps.CopyBufferRegions(cmd.dev, WorldOf(cmd, meta), format, src, dst, regions[i..])
             == MetaOps.CopyBufferRegions(cmd.dev, w0, Undefined, src, dst, regions)
    {
      assert regions[i..][1..] == regions[i + 1..];
      format := CopyBufferRegion(cmd, meta, format, src, dst, regions[i]);
    }
  }

  // ---------------------------------------------------------------------
  // vkCmdCopyImage

  /** A region's shader, levels, layers, coordinates and size; a raw copy
      divides coordinates and size by the untyped format's block width. */
  method CopyImageRegionStart(dev: Device, meta: MetaOp, src: Image, raw: Option<Format>, region: ImageCopy)
    requires meta.Valid()
    modifies meta, meta.src, meta.dst
    ensures meta.Value() == MetaOps.CopyImageRegionStart(dev, old(meta.Value()), src, raw, region)
  {
    var srcX: nat, srcY: nat := region.srcOffset.x, region.srcOffset.y;
    var dstX: nat, dstY: nat := region.destOffset.x, region.destOffset.y;
    var width: nat, height: nat := region.extent.width, region.extent.height;
    if raw.Some? {
      var blockWidth := dev.formatBlockWidth(raw.value);
      srcX, srcY := srcX / blockWidth, srcY / blockWidth;
      dstX, dstY := dstX / blockWidth, dstY / blockWidth;
      width, height := width / blockWidth, height / blockWidth;
    }

    meta.shader := CopyShader(src, region.extent.depth > 1);
    meta.src.Place(region.srcSubresource.mipLevel, region.srcSubresource.arraySlice + region.srcOffset.z, srcX, srcY);
    meta.dst.Place(region.destSubresource.mipLevel, region.destSubresource.arraySlice + region.destOffset.z, dstX, dstY);
    meta.width, meta.height := width, height;
  }

  /** One slice of a region: the destination slice is bound, drawn, and
      both layers advance. */
  method CopyImageLayer(cmd: Cmd, meta: MetaOp, dst: Image, format: Format)
    requires meta.Valid()
    modifies cmd, meta.src, meta.dst, meta.dst.surface
    ensures WorldOf(cmd, meta) == MetaOps.CopyImageLayer(cmd.dev, old(WorldOf(cmd, meta)), dst, format)
  {
    SetDstForImg(cmd, dst, format, meta.dst.lod, meta.dst.layer, meta);
    cmd.DrawMeta(meta);
    meta.src.NextLayer();
    meta.dst.NextLayer();
  }

  method CopyImageRegion(cmd: Cmd, meta: MetaOp, src: Image, dst: Image, raw: Option<Format>, region: ImageCopy)
    requires meta.Valid()
    modifies cmd, meta, meta.src, meta.dst, meta.dst.surface
    ensures WorldOf(cmd, meta) == MetaOps.CopyImageRegion(cmd.dev, old(WorldOf(cmd, meta)), src, dst, raw, region)
  {
    CopyImageRegionStart(cmd.dev, meta, src, raw, region);
    ghost var w1 := WorldOf(cmd, meta);
    assert w1 == old(WorldOf(cmd, meta)).(meta := MetaOps.CopyImageRegionStart(cmd.dev, old(meta.Value()), src, raw, region));
    var format := MetaOps.CopyFormat(dst, raw);
    var depth := region.extent.depth;
    for j := 0 to depth
      invariant WorldOf(cmd, meta) == MetaOps.CopyImageLayers(cmd.dev, w1, dst, format, j)
    {
      CopyImageLayer(cmd, meta, dst, format);
    }
  }

  /** `vkCmdCopyImage`. */
  method CopyImage(cmd: Cmd, src: Image, dst: Image, regions: seq<ImageCopy>)
    modifies cmd
    ensures (cmd.draws, cmd.errors) == Logs(MetaOps.CopyImage(cmd.dev, old(Start(cmd)), src, dst, regions))
  {
    if src.imageType != dst.imageType {
      cmd.Fail(ErrorUnknown);
      return;
    }
    var raw: Option<Format> := None;
    if src.format == dst.format {
      raw := Some(ImgRawFormat(cmd.dev, src.format));
    } else if cmd.dev.isCompressed(src.format) || cmd.dev.isCompressed(dst.format) {
      cmd.Fail(ErrorUnknown);
      return;
    }

    var meta := new MetaOp();
    meta.mode := FsRect;
    SetSrcForImg(cmd, src, MetaOps.CopyFormat(src, raw), Color, meta);
    meta.samples := dst.samples;
    ghost var w0 := WorldOf(cmd, meta);
    assert w0 == MetaOps.CopyImageInit(cmd.dev, old(Start(cmd)), src, dst, raw);

    for i := 0 to |regions|
      invariant meta.Valid() && fresh(meta.Repr())
      invariant MetaOps.CopyImageRegions(cmd.dev, WorldOf(cmd, meta), src, dst, raw, regions[i..])
             == MetaOps.CopyImageRegions(cmd.dev, w0, src, dst, raw, regions)
    {
      assert regions[i..][1..] == regions[i + 1..];
      CopyImageRegion(cmd, meta, src, dst, raw, regions[i]);
    }
  }

  /** `vkCmdBlitImage`. */
  method BlitImage(cmd: Cmd)
    modifies cmd
    ensures (cmd.draws, cmd.errors) == Logs(MetaOps.BlitImage(old(Start(cmd))))
  {
    cmd.Fail(ErrorUnavailable);
  }

  // ---------------------------------------------------------------------
  // vkCmdCopyBufferToImage

  method BufferToImageRegionStart(dev: Device, meta: MetaOp, img: Image, region: BufferImageCopy)
    requires meta.Valid()
    modifies meta, meta.src, meta.dst
    ensures meta.Value() == MetaOps.BufferToImageRegionStart(dev, old(meta.Value()), img, region)
  {
    var format := ImgRawFormat(dev, img.format);
    var blockWidth := dev.formatBlockWidth(img.format);
    meta.src.x := region.bufferOffset / dev.formatSize(format);
    meta.dst.Place(region.imageSubresource.mipLevel, region.imageSubresource.arraySlice + region.imageOffset.z,
                   region.imageOffset.x / blockWidth, region.imageOffset.y / blockWidth);
    meta.width, meta.height := region.imageExtent.width / blockWidth, region.imageExtent.height / blockWidth;
  }

  /** One slice: bind, draw, move past the slice's texels in the buffer, and
      go to the next layer. */
  method BufferToImageLayer(cmd: Cmd, meta: MetaOp, img: Image, format: Format)
    requires meta.Valid()
    modifies cmd, meta.src, meta.dst, meta.dst.surface
    ensures WorldOf(cmd, meta) == MetaOps.BufferToImageLayer(cmd.dev, old(WorldOf(cmd, meta)), img, format)
  {
    SetDstForImg(cmd, img, format, meta.dst.lod, meta.dst.layer, meta);
    cmd.DrawMeta(meta);
    ghost var w1 := WorldOf(cmd, meta);
    meta.src.x := meta.src.x + meta.width * meta.height;
    meta.dst.NextLayer();
    assert meta.Value() == w1.meta.(src := w1.meta.src.(x := w1.meta.src.x + w1.meta.width * w1.meta.height),
                                    dst := w1.meta.dst.(layer := w1.meta.dst.layer + 1));
  }

  method BufferToImageRegion(cmd: Cmd, meta: MetaOp, img: Image, region: BufferImageCopy)
    requires meta.Valid()
    modifies cmd, meta, meta.src, meta.dst, meta.dst.surface
    ensures WorldOf(cmd, meta) == MetaOps.BufferToImageRegion(cmd.dev, old(WorldOf(cmd, meta)), img, region)
  {
    BufferToImageRegionStart(cmd.dev, meta, img, region);
    ghost var w1 := WorldOf(cmd, meta);
    assert w1 == old(WorldOf(cmd, meta)).(meta := MetaOps.BufferToImageRegionStart(cmd.dev, old(meta.Value()), img, region));
    var format := ImgRawFormat(cmd.dev, img.format);
    var depth := region.imageExtent.depth;
    for j := 0 to depth
      invariant WorldOf(cmd, meta) == MetaOps.BufferToImageLayers(cmd.dev, w1, img, format, j)
    {
      BufferToImageLayer(cmd, meta, img, format);
    }
  }

  /** `vkCmdCopyBufferToImage`. */
  method CopyBufferToImage(cmd: Cmd, buf: Buffer, img: Image, regions: seq<BufferImageCopy>)
    modifies cmd
    ensures (cmd.draws, cmd.errors) == Logs(MetaOps.CopyBufferToImage(cmd.dev, old(Start(cmd)), buf, img, regions))
  {
    var meta := new MetaOp();
    meta.mode := FsRect;
    meta.shader := FsCopyMemToImg;
    meta.samples := img.samples;
    var format := ImgRawFormat(cmd.dev, img.format);
    SetSrcForBuf(cmd, buf, format, meta);
    ghost var w0 := WorldOf(cmd, meta);
    assert w0 == MetaOps.BufferToImageInit(cmd.dev, old(Start(cmd)), buf, img);

    for i := 0 to |regions|
      invariant meta.Valid() && fresh(meta.Repr())
      invariant MetaOps.BufferToImageRegions(cmd.dev, WorldOf(cmd, meta), img, regions[i..])
             == MetaOps.BufferToImageRegions(cmd.dev, w0, img, regions)
    {
      assert regions[i..][1..] == regions[i + 1..];
      BufferToImageRegion(cmd, meta, img, regions[i]);
    }
  }

  // ---------------------------------------------------------------------
  // vkCmdCopyImageToBuffer

  method ImageToBufferRegionStart(dev: Device, meta: MetaOp, imgFormat: Format, region: BufferImageCopy)
    requires meta.Valid()
    modifies meta, meta.src, meta.dst
    ensures meta.Value() == MetaOps.ImageToBufferRegionStart(dev, old(meta.Value()), imgFormat, region)
  {
    var blockWidth := dev.formatBlockWidth(imgFormat);
    meta.src.Place(region.imageSubresource.mipLevel, region.imageSubresource.arraySlice + region.imageOffset.z,
                   region.imageOffset.x / blockWidth, region.imageOffset.y / blockWidth);
    meta.dst.x := region.bufferOffset / dev.formatSize(imgFormat);
    meta.width, meta.height := region.imageExtent.width / blockWidth, region.imageExtent.height / blockWidth;
  }

  /** One slice: draw, next layer, move past the slice's texels in the
      buffer. */
  method ImageToBufferLayer(cmd: Cmd, meta: MetaOp)
    requires meta.Valid()
    modifies cmd, meta.src, meta.dst
    ensures WorldOf(cmd, meta) == MetaOps.ImageToBufferLayer(old(WorldOf(cmd, meta)))
  {
    cmd.DrawMeta(meta);
    ghost var w1 := WorldOf(cmd, meta);
    meta.src.NextLayer();
    meta.dst.x := meta.dst.x + meta.width * meta.height;
    assert meta.Value() == w1.meta.(src := w1.meta.src.(layer := w1.meta.src.layer + 1),
                                    dst := w1.meta.dst.(x := w1.meta.dst.x + w1.meta.width * w1.meta.height));
  }

  method ImageToBufferRegion(cmd: Cmd, meta: MetaOp, imgFormat: Format, region: BufferImageCopy)
    requires meta.Valid()
    modifies cmd, meta, meta.src, meta.dst
    ensures WorldOf(cmd, meta)
         == MetaOps.ImageToBufferLayers(old(WorldOf(cmd, meta)).(meta := MetaOps.ImageToBufferRegionStart(cmd.dev, old(meta.Value()), imgFormat, region)),
                                        region.imageExtent.depth)
  {
    ImageToBufferRegionStart(cmd.dev, meta, imgFormat, region);
    ghost var w1 := WorldOf(cmd, meta);
    assert w1 == old(WorldOf(cmd, meta)).(meta := MetaOps.ImageToBufferRegionStart(cmd.dev, old(meta.Value()), imgFormat, region));
    var depth := region.imageExtent.depth;
    for j := 0 to depth
      invariant WorldOf(cmd, meta) == MetaOps.ImageToBufferLayers(w1, j)
    {
      ImageToBufferLayer(cmd, meta);
    }
  }

  /** The region loop of `vkCmdCopyImageToBuffer`. */
  method ImageToBufferRegions(cmd: Cmd, meta: MetaOp, imgFormat: Format, regions: seq<BufferImageCopy>)
    requires meta.Valid()
    modifies cmd, meta, meta.src, meta.dst
    ensures WorldOf(cmd, meta) == MetaOps.ImageToBufferRegions(cmd.dev, old(WorldOf(cmd, meta)), imgFormat, regions)
  {
    ghost var w0 := WorldOf(cmd, meta);
    for i := 0 to |regions|
      invariant MetaOps.ImageToBufferRegions(cmd.dev, WorldOf(cmd, meta), imgFormat, regions[i..])
             == MetaOps.ImageToBufferRegions(cmd.dev, w0, imgFormat, regions)
    {
      assert regions[i..][1..] == regions[i + 1..];
      ImageToBufferRegion(cmd, meta, imgFormat, regions[i]);
    }
  }

  /** `vkCmdCopyImageToBuffer`. */
  method CopyImageToBuffer(cmd: Cmd, img: Image, buf: Buffer, regions: seq<BufferImageCopy>)
    modifies cmd
    ensures (cmd.draws, cmd.errors) == Logs(MetaOps.CopyImageToBuffer(cmd.dev, old(Start(cmd)), img, buf, regions))
  {
    var meta := new MetaOp();
    meta.mode := VsPoints;
    var imgFormat := ImgRawFormat(cmd.dev, img.format);
    var choice := ImageToBufferChoice(imgFormat);
    if choice.None? {
      cmd.Fail(ErrorUnknown);
      return;
    }
    meta.shader := choice.value.shader;
    if cmd.dev.gen == Gen6 && cmd.dev.formatSize(imgFormat) < 4 {
      cmd.Fail(ErrorUnknown);
      return;
    }

    ghost var w1 := WorldOf(cmd, meta);
    assert w1 == old(Start(cmd)).(meta := ZeroMeta().(mode := VsPoints, shader := choice.value.shader));
    SetSrcForImg(cmd, img, imgFormat, Color, meta);
    SetDstForBuf(cmd, buf, choice.value.bufFormat, meta);
    ghost var w2 := WorldOf(cmd, meta);
    assert w2 == Builders.SetDstForBuf(cmd.dev, Builders.SetSrcForImg(cmd.dev, w1, img, imgFormat, Color), buf, choice.value.bufFormat);
    meta.SetSamples(1);
    ImageToBufferRegions(cmd, meta, imgFormat, regions);
  }

  // ---------------------------------------------------------------------
  // vkCmdUpdateBuffer and vkCmdFillBuffer

  /** The record of `vkCmdUpdateBuffer` before its bindings. */
  method UpdateRecord(destOffset: DeviceSize, dataSize: DeviceSize, stateOffset: nat) returns (meta: MetaOp)
    ensures meta.Valid() && fresh(meta.Repr())
    ensures meta.Value() == MetaOps.UpdateMeta(destOffset, dataSize, stateOffset)
  {
    meta := new MetaOp();
    meta.mode := VsPoints;
    meta.shader := VsCopyMem;
    meta.src.x := stateOffset / 4;
    meta.dst.x := destOffset / 4;
    meta.width := dataSize / 4;
    meta.height := 1;
    meta.samples := 1;
  }

  /** `vkCmdUpdateBuffer`; `stateOffset` is where the data was placed in the
      state writer. */
  method UpdateBuffer(cmd: Cmd, dst: Buffer, destOffset: DeviceSize, dataSize: DeviceSize, stateOffset: nat)
    modifies cmd
    ensures (cmd.draws, cmd.errors) == Logs(MetaOps.UpdateBuffer(cmd.dev, old(Start(cmd)), dst, destOffset, dataSize, stateOffset))
  {
    if !OffsetSizeAligned(destOffset, dataSize) {
      cmd.Fail(ErrorUnknown);
      return;
    }
    var meta := UpdateRecord(destOffset, dataSize, stateOffset);
    assert WorldOf(cmd, meta) == old(Start(cmd)).(meta := MetaOps.UpdateMeta(destOffset, dataSize, stateOffset));

    var format := R32G32B32A32Uint;
    SetSrcForWriter(cmd, StateWriter, stateOffset + dataSize, format, meta);
    SetDstForBuf(cmd, dst, format, meta);
    cmd.DrawMeta(meta);
  }

  /** The record of `vkCmdFillBuffer` before its binding. */
  method FillRecord(destOffset: DeviceSize, fillSize: DeviceSize, data: U32) returns (meta: MetaOp)
    ensures meta.Valid() && fresh(meta.Repr())
    ensures meta.Value() == MetaOps.FillMeta(destOffset, fillSize, data)
  {
    meta := new MetaOp();
    meta.mode := VsPoints;
    meta.shader := VsFillMem;
    meta.clearVal[0] := data;
    meta.dst.x := destOffset / 4;
    meta.width := fillSize / 4;
    meta.height := 1;
    meta.samples := 1;
    assert meta.clearVal[..] == ZeroMeta().clearVal[0 := data];
  }

  /** `vkCmdFillBuffer`. */
  method FillBuffer(cmd: Cmd, dst: Buffer, destOffset: DeviceSize, fillSize: DeviceSize, data: U32)
    modifies cmd
    ensures (cmd.draws, cmd.errors) == Logs(MetaOps.FillBuffer(cmd.dev, old(Start(cmd)), dst, destOffset, fillSize, data))
  {
    if !OffsetSizeAligned(destOffset, fillSize) {
      cmd.Fail(ErrorUnknown);
      return;
    }
    var meta := FillRecord(destOffset, fillSize, data);
    assert WorldOf(cmd, meta) == old(Start(cmd)).(meta := MetaOps.FillMeta(destOffset, fillSize, data));

    var format := R32G32B32A32Uint;
    SetDstForBuf(cmd, dst, format, meta);
    cmd.DrawMeta(meta);
  }

  // ---------------------------------------------------------------------
  // cmd_meta_clear_image

  /** One slice: a colour view, or a depth/stencil view and state with the
      stencil value of the record, then a draw, then the next layer. */
  method ClearLayer(cmd: Cmd, img: Image, format: Format, aspect: Aspect, meta: MetaOp)
    requires meta.Valid()
    modifies cmd, meta, meta.dst, meta.dst.surface
    ensures WorldOf(cmd, meta) == MetaOps.ClearLayer(cmd.dev, old(WorldOf(cmd, meta)), img, format, aspect)
  {
    if aspect == Color {
      SetDstForImg(cmd, img, format, meta.dst.lod, meta.dst.layer, meta);
      cmd.DrawMeta(meta);
    } else {
      SetDsView(cmd, img, meta.dst.lod, meta.dst.layer, meta);
      SetDsState(aspect, meta.clearVal[1], meta);
      cmd.DrawMeta(meta);
    }
    meta.dst.NextLayer();
  }

  /** Mip level `base + i`: the level, the base slice and the level's size
      are set; the level is skipped when a Hi-Z operation cannot use it, and
      otherwise each of its `layers` slices is cleared. */
  method ClearMip(cmd: Cmd, img: Image, format: Format, range: SubresourceRange, layers: nat, i: nat, meta: MetaOp)
    requires meta.Valid()
    modifies cmd, meta, meta.dst, meta.dst.surface
    ensures WorldOf(cmd, meta) == MetaOps.ClearMip(cmd.dev, old(WorldOf(cmd, meta)), img, format, range, layers, i)
  {
    var lod := range.baseMipLevel + i;
    meta.dst.SetLevel(lod, range.baseArraySlice);
    meta.SetSize(cmd.dev.minify(img.width0, lod), cmd.dev.minify(img.height0, lod));
    ghost var w1 := WorldOf(cmd, meta);
    assert w1 == old(WorldOf(cmd, meta)).(meta := MetaOps.MipStart(cmd.dev, old(meta.Value()), img, range, i));

    if meta.ds.op != DsNop && !cmd.dev.canEnableHiz(img, lod) {
      return;
    }
    for j := 0 to layers
      invariant WorldOf(cmd, meta) == MetaOps.ClearLayers(cmd.dev, w1, img, format, range.aspect, j)
    {
      ClearLayer(cmd, img, format, range.aspect, meta);
    }
  }

  /** The mip-level loop of `cmd_meta_clear_image`. */
  method ClearMips(cmd: Cmd, img: Image, format: Format, range: SubresourceRange, layers: nat, mipLevels: nat, meta: MetaOp)
    requires meta.Valid()
    modifies cmd, meta, meta.dst, meta.dst.surface
    ensures WorldOf(cmd, meta) == MetaOps.ClearMips(cmd.dev, old(WorldOf(cmd, meta)), img, format, range, layers, mipLevels)
  {
    ghost var w0 := WorldOf(cmd, meta);
    for i := 0 to mipLevels
      invariant WorldOf(cmd, meta) == MetaOps.ClearMips(cmd.dev, w0, img, format, range, layers, i)
    {
      ClearMip(cmd, img, format, range, layers, i, meta);
    }
  }

  /** `cmd_meta_clear_image`: clears the part of `range` inside the image
      with the caller's record. */
  method ClearImage(cmd: Cmd, img: Image, format: Format, meta: MetaOp, range: SubresourceRange)
    requires meta.Valid()
    modifies cmd, meta, meta.dst, meta.dst.surface
    ensures WorldOf(cmd, meta) == MetaOps.ClearImage(cmd.dev, old(WorldOf(cmd, meta)), img, format, range)
  {
    if range.baseMipLevel >= img.mipLevels || range.baseArraySlice >= img.arraySize {
      assert MetaOps.ClearImage(cmd.dev, WorldOf(cmd, meta), img, format, range) == WorldOf(cmd, meta);
      return;
    }
    var mipLevels := img.mipLevels - range.baseMipLevel;
    if mipLevels > range.mipLevels {
      mipLevels := range.mipLevels;
    }
    var arraySize := img.arraySize - range.baseArraySlice;
    if arraySize > range.arraySize {
      arraySize := range.arraySize;
    }
    assert mipLevels == MetaOps.ClearMipCount(img, range) && arraySize == MetaOps.ClearLayerCount(img, range);

    ClearMips(cmd, img, format, range, arraySize, mipLevels, meta);
  }

  /** Every range in turn, with one record. */
  method ClearRanges(cmd: Cmd, img: Image, format: Format, meta: MetaOp, ranges: seq<SubresourceRange>)
    requires meta.Valid()
    modifies cmd, meta, meta.dst, meta.dst.surface
    ensures WorldOf(cmd, meta) == MetaOps.ClearRanges(cmd.dev, old(WorldOf(cmd, meta)), img, format, ranges)
  {
    ghost var w0 := WorldOf(cmd, meta);
    for i := 0 to |ranges|
      invariant MetaOps.ClearRanges(cmd.dev, WorldOf(cmd, meta), img, format, ranges[i..])
             == MetaOps.ClearRanges(cmd.dev, w0, img, format, ranges)
    {
      assert ranges[i..][1..] == ranges[i + 1..];
      ClearImage(cmd, img, format, meta, ranges[i]);
    }
  }

  // ---------------------------------------------------------------------
  // cmd_meta_ds_op and the clears

  /** The record of a Hi-Z operation. */
  method DsOpRecord(op: DsOp, img: Image) returns (meta: MetaOp)
    ensures meta.Valid() && fresh(meta.Repr())
    ensures meta.Value() == MetaOps.DsOpMeta(op, img)
  {
    meta := new MetaOp();
    meta.mode := DepthStencilRect;
    meta.samples := img.samples;
    meta.ds := meta.ds.(aspect := Depth, op := op, optimal := true);
  }

  /** `cmd_meta_ds_op`. */
  method DepthStencilOp(cmd: Cmd, op: DsOp, img: Image, range: SubresourceRange)
    modifies cmd
    ensures (cmd.draws, cmd.errors) == Logs(MetaOps.DepthStencilOp(cmd.dev, old(Start(cmd)), op, img, range))
  {
    if !img.hiz {
      return;
    }
    if range.aspect != Depth {
      return;
    }
    var meta := DsOpRecord(op, img);
    ClearImage(cmd, img, img.format, meta, range);
  }

  /** The record of a colour clear. */
  method ClearColorRecord(img: Image, color: ClearColor) returns (meta: MetaOp)
    ensures meta.Valid() && fresh(meta.Repr())
    ensures meta.Value() == MetaOps.ClearColorMeta(img, color)
  {
    meta := new MetaOp();
    meta.mode := FsRect;
    meta.shader := FsClearColor;
    meta.samples := img.samples;
    meta.clearVal[0] := color.r;
    meta.clearVal[1] := color.g;
    meta.clearVal[2] := color.b;
    meta.clearVal[3] := color.a;
    assert meta.clearVal[..] == [color.r, color.g, color.b, color.a];
  }

  /** `cmd_meta_clear_color_image`. */
  method ClearColorImage(cmd: Cmd, img: Image, color: ClearColor, ranges: seq<SubresourceRange>)
    modifies cmd
    ensures (cmd.draws, cmd.errors) == Logs(MetaOps.ClearColorImage(cmd.dev, old(Start(cmd)), img, color, ranges))
  {
    var meta := ClearColorRecord(img, color);
    var format := img.format;
    ClearRanges(cmd, img, format, meta, ranges);
  }

  /** The record of a depth/stencil clear. */
  method ClearDsRecord(img: Image, layout: ImageLayout, depthBits: U32, stencil: U32) returns (meta: MetaOp)
    ensures meta.Valid() && fresh(meta.Repr())
    ensures meta.Value() == MetaOps.ClearDsMeta(img, layout, depthBits, stencil)
  {
    meta := new MetaOp();
    meta.mode := DepthStencilRect;
    meta.shader := FsClearDepth;
    meta.samples := img.samples;
    meta.clearVal[0] := depthBits;
    meta.clearVal[1] := stencil;
    if layout == DepthStencilAttachmentOptimal || layout == DepthStencilReadOnlyOptimal {
      meta.ds := meta.ds.(optimal := true);
    }
    assert meta.clearVal[..] == [depthBits, stencil, 0, 0];
  }

  /** `cmd_meta_clear_depth_stencil_image`; `depthBits` is the bit pattern
      of the float depth. */
  method ClearDepthStencilImage(cmd: Cmd, img: Image, layout: ImageLayout, depthBits: U32, stencil: U32,
                                ranges: seq<SubresourceRange>)
    modifies cmd
    ensures (cmd.draws, cmd.errors)
         == Logs(MetaOps.ClearDepthStencilImage(cmd.dev, old(Start(cmd)), img, layout, depthBits, stencil, ranges))
  {
    var meta := ClearDsRecord(img, layout, depthBits, stencil);
    ClearRanges(cmd, img, img.format, meta, ranges);
  }

  /** `vkCmdClearColorAttachment`: one colour-image clear of whole layers per
      rectangle; `view` is the attachment the subpass names. */
  method ClearColorAttachment(cmd: Cmd, view: AttachmentView, color: ClearColor, rects: seq<Rect3D>)
    modifies cmd
    ensures (cmd.draws, cmd.errors) == Logs(MetaOps.ClearColorAttachment(cmd.dev, old(Start(cmd)), view, color, rects))
  {
    ghost var w0 := old(Start(cmd));
    ghost var w := w0;
    for i := 0 to |rects|
      invariant (cmd.draws, cmd.errors) == Logs(w)
      invariant MetaOps.ClearColorAttachment(cmd.dev, w, view, color, rects[i..])
             == MetaOps.ClearColorAttachment(cmd.dev, w0, view, color, rects)
    {
      assert rects[i..][1..] == rects[i + 1..];
      var range := MetaOps.ColorAttachmentRange(view, rects[i]);
      assert MetaOps.ClearColorImage(cmd.dev, w, view.image, color, [range])
          == MetaOps.ClearColorImage(cmd.dev, Start(cmd), view.image, color, [range]);
      w := MetaOps.ClearColorImage(cmd.dev, w, view.image, color, [range]);
      ClearColorImage(cmd, view.image, color, [range]);
    }
  }

  /** One rectangle of `vkCmdClearDepthStencilAttachment`: a depth clear if
      the depth bit is set, then a stencil clear if the stencil bit is. */
  method DsAttachmentRect(cmd: Cmd, view: AttachmentView, aspects: AspectFlags, layout: ImageLayout,
                          depthBits: U32, stencil: U32, rect: Rect3D, ghost w: World)
    requires (cmd.draws, cmd.errors) == Logs(w)
    modifies cmd
    ensures (cmd.draws, cmd.errors)
         == Logs(MetaOps.DsAttachmentRect(cmd.dev, w, view, aspects, layout, depthBits, stencil, rect))
  {
    var range := MetaOps.DsAttachmentRange(rect);
    ghost var w1 := w;
    if aspects.depth {
      assert MetaOps.ClearDepthStencilImage(cmd.dev, w, view.image, layout, depthBits, stencil, [range])
          == MetaOps.ClearDepthStencilImage(cmd.dev, Start(cmd), view.image, layout, depthBits, stencil, [range]);
      w1 := MetaOps.ClearDepthStencilImage(cmd.dev, w, view.image, layout, depthBits, stencil, [range]);
      ClearDepthStencilImage(cmd, view.image, layout, depthBits, stencil, [range]);
    }
    if aspects.stencil {
      range := range.(aspect := Stencil);
      assert MetaOps.ClearDepthStencilImage(cmd.dev, w1, view.image, layout, depthBits, stencil, [range])
          == MetaOps.ClearDepthStencilImage(cmd.dev, Start(cmd), view.image, layout, depthBits, stencil, [range]);
      ClearDepthStencilImage(cmd, view.image, layout, depthBits, stencil, [range]);
    }
  }

  /** `vkCmdClearDepthStencilAttachment`; `view` is the subpass's
      depth/stencil attachment. */
  method ClearDepthStencilAttachment(cmd: Cmd, view: AttachmentView, aspects: AspectFlags, layout: ImageLayout,
                                     depthBits: U32, stencil: U32, rects: seq<Rect3D>)
    modifies cmd
    ensures (cmd.draws, cmd.errors)
         == Logs(MetaOps.ClearDepthStencilAttachment(cmd.dev, old(Start(cmd)), view, aspects, layout, depthBits, stencil, rects))
  {
    ghost var w0 := old(Start(cmd));
    ghost var w := w0;
    for i := 0 to |rects|
      invariant (cmd.draws, cmd.errors) == Logs(w)
      invariant MetaOps.ClearDepthStencilAttachment(cmd.dev, w, view, aspects, layout, depthBits, stencil, rects[i..])
             == MetaOps.ClearDepthStencilAttachment(cmd.dev, w0, view, aspects, layout, depthBits, stencil, rects)
    {
      assert rects[i..][1..] == rects[i + 1..];
      DsAttachmentRect(cmd, view, aspects, layout, depthBits, stencil, rects[i], w);
      w := MetaOps.DsAttachmentRect(cmd.dev, w, view, aspects, layout, depthBits, stencil, rects[i]);
    }
  }

  // ---------------------------------------------------------------------
  // vkCmdResolveImage

  /** Slice `s` of a region: both bindings placed, the size set, the
      destination slice bound, and a draw. */
  method ResolveSlice(cmd: Cmd, meta: MetaOp, dst: Image, format: Format, region: ImageResolve, s: nat)
    requires meta.Valid()
    modifies cmd, meta, meta.src, meta.dst, meta.dst.surface
    ensures WorldOf(cmd, meta) == MetaOps.ResolveSlice(cmd.dev, old(WorldOf(cmd, meta)), dst, format, region, s)
  {
    meta.src.Place(region.srcSubresource.mipLevel, region.srcSubresource.arraySlice + s,
                   region.srcOffset.x, region.srcOffset.y);
    meta.dst.Place(region.destSubresource.mipLevel, region.destSubresource.arraySlice + s,
                   region.destOffset.x, region.destOffset.y);
    meta.SetSize(region.extent.width, region.extent.height);
    assert WorldOf(cmd, meta) == old(WorldOf(cmd, meta)).(meta := MetaOps.ResolveSliceMeta(old(meta.Value()), region, s));
    SetDstForImg(cmd, dst, format, meta.dst.lod, meta.dst.layer, meta);
    cmd.DrawMeta(meta);
  }

  method ResolveRegion(cmd: Cmd, meta: MetaOp, dst: Image, format: Format, region: ImageResolve)
    requires meta.Valid()
    modifies cmd, meta, meta.src, meta.dst, meta.dst.surface
    ensures WorldOf(cmd, meta) == MetaOps.ResolveSlices(cmd.dev, old(WorldOf(cmd, meta)), dst, format, region, region.extent.depth)
  {
    ghost var w0 := WorldOf(cmd, meta);
    for s := 0 to region.extent.depth
      invariant WorldOf(cmd, meta) == MetaOps.ResolveSlices(cmd.dev, w0, dst, format, region, s)
    {
      ResolveSlice(cmd, meta, dst, format, region, s);
    }
  }

  /** The record of a resolve before its bindings. */
  method ResolveRecord(src: Image) returns (meta: MetaOp)
    ensures meta.Valid() && fresh(meta.Repr())
    ensures meta.Value() == MetaOps.ResolveMeta(src)
  {
    meta := new MetaOp();
    meta.mode := FsRect;
    meta.shader := ResolveShader(src.samples);
    meta.samples := 1;
  }

  /** `vkCmdResolveImage`. */
  method ResolveImage(cmd: Cmd, src: Image, dst: Image, regions: seq<ImageResolve>)
    modifies cmd
    ensures (cmd.draws, cmd.errors) == Logs(MetaOps.ResolveImage(cmd.dev, old(Start(cmd)), src, dst, regions))
  {
    if src.samples <= 1 || dst.samples > 1 || src.format != dst.format {
      cmd.Fail(ErrorUnknown);
      return;
    }
    var meta := ResolveRecord(src);
    var format := ImgRawFormat(cmd.dev, src.format);
    SetSrcForImg(cmd, src, format, Color, meta);
    ghost var w0 := WorldOf(cmd, meta);

    for i := 0 to |regions|
      invariant meta.Valid() && fresh(meta.Repr())
      invariant MetaOps.ResolveRegions(cmd.dev, WorldOf(cmd, meta), dst, format, regions[i..])
             == MetaOps.ResolveRegions(cmd.dev, w0, dst, format, regions)
    {
      assert regions[i..][1..] == regions[i + 1..];
      ResolveRegion(cmd, meta, dst, format, regions[i]);
    }
  }
}

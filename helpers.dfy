/** The pure choices the meta operations make: the range of a buffer view, the
    dword-alignment test, the untyped format that moves a texel's bytes, the
    copy shader for an image, the view type for a source image, and the
    shader tables of resolve and image-to-buffer copy. */
module MetaHelpers {
  import opened Vk
  import opened Device
  import Bits

  /** `enum intel_dev_meta_shader`; `ShaderUnset` is the zero value a cleared
      meta record keeps when no shader is chosen. */
  datatype Shader =
    | ShaderUnset
    | VsFillMem
    | VsCopyMem
    | VsCopyMemUnaligned
    | VsCopyR8ToMem
    | VsCopyR16ToMem
    | VsCopyR32ToMem
    | VsCopyR32G32ToMem
    | VsCopyR32G32B32A32ToMem
    | FsCopyMemToImg
    | FsCopy1D
    | FsCopy1DArray
    | FsCopy2D
    | FsCopy2DArray
    | FsCopy2DMs
    | FsClearColor
    | FsClearDepth
    | FsResolve2X
    | FsResolve4X
    | FsResolve8X
    | FsResolve16X

  // ---------------------------------------------------------------------
  // Buffer-view range

  /** The range a buffer view is created with: the requested range rounded up
      to a whole number of elements of `stride` bytes, so that the hardware
      does not drop a partial last element.  It is the least multiple of the
      stride that is not below the request. */
  function RoundedRange(range: nat, stride: Pos): (r: nat)
    ensures r % stride == 0
    ensures range <= r < range + stride
    ensures range % stride == 0 ==> r == range
  {
    if range % stride != 0 then
      var r := range + (stride - range % stride);
      Bits.DivModUnique(r, stride, range / stride + 1, 0);
      r
    else
      range
  }

  /** No multiple of the stride lies between the request and the rounded range. */
  lemma RoundedRangeLeast(range: nat, stride: Pos, m: nat)
    requires m % stride == 0 && range <= m
    ensures RoundedRange(range, stride) <= m
  {
    var q, k := range / stride, m / stride;
    assert m == stride * k;
    if range % stride != 0 {
      if k <= q {
        Bits.MulLe(stride, k, q);
        assert false;
      }
      Bits.MulLe(stride, q + 1, k);
      assert RoundedRange(range, stride) == stride * (q + 1);
    }
  }

  /** The create-info `cmd_meta_create_buf_view` hands to the buffer-view
      constructor: a formatted view of `buffer` whose range is the requested
      range rounded up to the format's element size. */
  function BufViewInfoFor(dev: Device, buffer: Option<Buffer>, range: nat, format: Format): (info: BufViewInfo)
    ensures info.buffer == buffer && info.format == format
    ensures info.range % dev.formatSize(format) == 0
    ensures range <= info.range < range + dev.formatSize(format)
  {
    BufViewInfo(buffer, RoundedRange(range, dev.formatSize(format)), format)
  }

  // ---------------------------------------------------------------------
  // Alignment

  /** `x & 3` as its two bits, bit 0 first. */
  function Low2(x: DeviceSize): seq<bool>
  {
    Bits.FromNat(x, 2)
  }

  /** `cmd_meta_mem_dword_aligned`: `!((src_offset | dst_offset | size) & 0x3)`,
      taken bit by bit over the two low bits. */
  predicate DwordAligned(srcOffset: DeviceSize, dstOffset: DeviceSize, size: DeviceSize)
  {
    forall i :: 0 <= i < 2 ==> !(Low2(srcOffset)[i] || Low2(dstOffset)[i] || Low2(size)[i])
  }

  /** The test in `vkCmdUpdateBuffer` and `vkCmdFillBuffer`:
      `!((offset | size) & 3)`. */
  predicate OffsetSizeAligned(offset: DeviceSize, size: DeviceSize)
  {
    forall i :: 0 <= i < 2 ==> !(Low2(offset)[i] || Low2(size)[i])
  }

  /** The two low bits of `x` are clear exactly when `x` is a multiple of four. */
  lemma LowBitsClear(x: DeviceSize)
    ensures (!Low2(x)[0] && !Low2(x)[1]) <==> x % 4 == 0
  {
    assert Bits.FromNat(x / 2, 1) == [(x / 2) % 2 == 1] + Bits.FromNat(x / 2 / 2, 0);
    assert Low2(x) == [x % 2 == 1, (x / 2) % 2 == 1];
    Bits.ModTwice(x, 2);
  }

  /** A copy is dword-aligned exactly when both offsets and the size are
      multiples of four. */
  lemma DwordAlignedIff(srcOffset: DeviceSize, dstOffset: DeviceSize, size: DeviceSize)
    ensures DwordAligned(srcOffset, dstOffset, size)
        <==> srcOffset % 4 == 0 && dstOffset % 4 == 0 && size % 4 == 0
  {
    LowBitsClear(srcOffset);
    LowBitsClear(dstOffset);
    LowBitsClear(size);
  }

  /** An update or fill is accepted exactly when offset and size are multiples
      of four. */
  lemma OffsetSizeAlignedIff(offset: DeviceSize, size: DeviceSize)
    ensures OffsetSizeAligned(offset, size) <==> offset % 4 == 0 && size % 4 == 0
  {
    LowBitsClear(offset);
    LowBitsClear(size);
  }

  // ---------------------------------------------------------------------
  // Raw formats

  /** The untyped format whose texel has `size` bytes: 1, 2, 4, 8 and 16 bytes
      map to five different formats and every other size to
      `VK_FORMAT_UNDEFINED` (the source asserts in debug builds). */
  function RawFormatForSize(size: nat): (f: Format)
    ensures size == 1 <==> f == R8Uint
    ensures size == 2 <==> f == R16Uint
    ensures size == 4 <==> f == R32Uint
    ensures size == 8 <==> f == R32G32Uint
    ensures size == 16 <==> f == R32G32B32A32Uint
    ensures f == Undefined <==> size !in {1, 2, 4, 8, 16}
  {
    match size
    case 1 => R8Uint
    case 2 => R16Uint
    case 4 => R32Uint
    case 8 => R32G32Uint
    case 16 => R32G32B32A32Uint
    case _ => Undefined
  }

  /** `cmd_meta_img_raw_format`: the untyped format for a format's texel size. */
  function ImgRawFormat(dev: Device, format: Format): Format
  {
    RawFormatForSize(dev.formatSize(format))
  }

  /** The format table gives the untyped formats their own sizes. */
  predicate RawSizesAgree(dev: Device)
  {
    && dev.formatSize(R8Uint) == 1
    && dev.formatSize(R16Uint) == 2
    && dev.formatSize(R32Uint) == 4
    && dev.formatSize(R32G32Uint) == 8
    && dev.formatSize(R32G32B32A32Uint) == 16
  }

  /** Reinterpreting a format as its untyped format keeps the texel size, so a
      raw copy moves exactly the bytes of each texel. */
  lemma RawFormatKeepsSize(dev: Device, format: Format)
    requires RawSizesAgree(dev)
    requires ImgRawFormat(dev, format) != Undefined
    ensures dev.formatSize(ImgRawFormat(dev, format)) == dev.formatSize(format)
  {
    var s := dev.formatSize(format);
    assert s in {1, 2, 4, 8, 16};
  }

  /** Two formats share an untyped format exactly when their texel sizes agree
      (for supported sizes). */
  lemma RawFormatSameIffSameSize(dev: Device, f: Format, g: Format)
    requires ImgRawFormat(dev, f) != Undefined
    ensures ImgRawFormat(dev, f) == ImgRawFormat(dev, g) <==> dev.formatSize(f) == dev.formatSize(g)
  {
    var s := dev.formatSize(f);
    assert s in {1, 2, 4, 8, 16};
  }

  // ---------------------------------------------------------------------
  // Shader and view-type tables

  /** Copy shaders by the kind of image they address. */
  predicate IsArrayCopy(s: Shader)
  {
    s == FsCopy1DArray || s == FsCopy2DArray
  }

  predicate IsOneDimCopy(s: Shader)
  {
    s == FsCopy1D || s == FsCopy1DArray
  }

  /** `get_shader_id`: the copy shader for an image of the given type and
      sample count, arrayed when the copy spans more than one slice. */
  function CopyShader(img: Image, copyArray: bool): (s: Shader)
    ensures s in {FsCopy1D, FsCopy1DArray, FsCopy2D, FsCopy2DArray, FsCopy2DMs}
    ensures IsOneDimCopy(s) <==> img.imageType == Type1D
    ensures s == FsCopy2DMs <==> img.imageType == Type2D && img.samples > 1
    ensures IsArrayCopy(s) <==> img.imageType == Type3D || (copyArray && s != FsCopy2DMs)
  {
    match img.imageType
    case Type1D => if copyArray then FsCopy1DArray else FsCopy1D
    case Type2D =>
      if img.samples > 1 then FsCopy2DMs
      else if copyArray then FsCopy2DArray
      else FsCopy2D
    case Type3D => FsCopy2DArray
  }

  predicate IsArrayView(v: ViewType)
  {
    v == View1DArray || v == View2DArray
  }

  /** The view type `cmd_meta_set_src_for_img` asks for: arrayed exactly when
      the image has more than one slice, 3D only for a many-slice 3D image; a
      one-slice 3D image matches no case and keeps the zero value, so it is
      viewed as 1D like a one-slice 1D image. */
  function SrcViewType(img: Image): (v: ViewType)
    ensures v == View1D <==> img.arraySize == 1 && img.imageType != Type2D
    ensures v == View2D <==> img.arraySize == 1 && img.imageType == Type2D
    ensures v == View3D <==> img.imageType == Type3D && img.arraySize != 1
    ensures IsArrayView(v) <==> img.imageType != Type3D && img.arraySize != 1
    ensures v == View1DArray <==> img.imageType == Type1D && img.arraySize != 1
  {
    if img.arraySize == 1 then
      match img.imageType
      case Type1D => View1D
      case Type2D => View2D
      case Type3D => View1D
    else
      match img.imageType
      case Type1D => View1DArray
      case Type2D => View2DArray
      case Type3D => View3D
  }

  /** The resolve shader for a source sample count: 4, 8 and 16 samples have
      their own shaders, 2 and every other count use the 2x one. */
  function ResolveShader(samples: nat): (s: Shader)
    ensures s == FsResolve4X <==> samples == 4
    ensures s == FsResolve8X <==> samples == 8
    ensures s == FsResolve16X <==> samples == 16
    ensures s == FsResolve2X <==> samples !in {4, 8, 16}
  {
    match samples
    case 4 => FsResolve4X
    case 8 => FsResolve8X
    case 16 => FsResolve16X
    case _ => FsResolve2X
  }

  /** The shader and buffer format of an image-to-buffer copy, chosen by the
      image's untyped format: one copy shader per supported format, and a
      buffer format that only fixes the element stride (4 bytes for 1- and
      2-byte texels, 16 bytes otherwise). */
  datatype ToMemChoice = ToMemChoice(shader: Shader, bufFormat: Format)

  function ImageToBufferChoice(imgFormat: Format): (c: Option<ToMemChoice>)
    ensures c.None? <==> imgFormat !in {R8Uint, R16Uint, R32Uint, R32G32Uint, R32G32B32A32Uint}
    ensures c.Some? && imgFormat in {R8Uint, R16Uint} ==> c.value.bufFormat == R8G8B8A8Uint
    ensures c.Some? && imgFormat !in {R8Uint, R16Uint} ==> c.value.bufFormat == R32G32B32A32Uint
    ensures c.Some? ==> (c.value.shader == VsCopyR8ToMem <==> imgFormat == R8Uint)
    ensures c.Some? ==> (c.value.shader == VsCopyR16ToMem <==> imgFormat == R16Uint)
    ensures c.Some? ==> (c.value.shader == VsCopyR32ToMem <==> imgFormat == R32Uint)
    ensures c.Some? ==> (c.value.shader == VsCopyR32G32ToMem <==> imgFormat == R32G32Uint)
    ensures c.Some? ==> (c.value.shader == VsCopyR32G32B32A32ToMem <==> imgFormat == R32G32B32A32Uint)
  {
    match imgFormat
    case R8Uint => Some(ToMemChoice(VsCopyR8ToMem, R8G8B8A8Uint))
    case R16Uint => Some(ToMemChoice(VsCopyR16ToMem, R8G8B8A8Uint))
    case R32Uint => Some(ToMemChoice(VsCopyR32ToMem, R32G32B32A32Uint))
    case R32G32Uint => Some(ToMemChoice(VsCopyR32G32ToMem, R32G32B32A32Uint))
    case R32G32B32A32Uint => Some(ToMemChoice(VsCopyR32G32B32A32ToMem, R32G32B32A32Uint))
    case _ => None
  }
}

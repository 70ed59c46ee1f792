/** The API-level values the meta operations of the Intel Vulkan driver take:
    formats, image and buffer descriptions, copy/clear/resolve regions.  Buffers
    and images are only read by these operations, so they are values here. */
module Vk {

  /** A `uint32_t`. */
  type U32 = x: nat | x < 0x1_0000_0000

  /** A `VkDeviceSize` (`uint64_t`). */
  type DeviceSize = x: nat | x < 0x1_0000_0000_0000_0000

  type Pos = x: nat | x > 0 witness 1

  datatype Option<T> = None | Some(value: T)

  /** The `VkResult` codes handed to the command buffer's error sink. Codes
      returned by the view constructors are opaque. */
  datatype Status = ErrorUnknown | ErrorUnavailable | OtherError(code: nat)

  /** `VkFormat`: the formats the meta operations name, and every other one. */
  datatype Format =
    | Undefined
    | R8Uint
    | R16Uint
    | R32Uint
    | R32G32Uint
    | R32G32B32A32Uint
    | R8G8B8A8Uint
    | OtherFormat(id: nat)

  datatype ImageType = Type1D | Type2D | Type3D

  /** `VkImageAspect`; its zero value is the colour aspect. */
  datatype Aspect = Color | Depth | Stencil

  /** The depth and stencil bits of a `VkImageAspectFlags` mask. */
  datatype AspectFlags = AspectFlags(depth: bool, stencil: bool)

  /** `VkImageLayout`: only the two depth/stencil-optimal layouts are told apart. */
  datatype ImageLayout =
    | DepthStencilAttachmentOptimal
    | DepthStencilReadOnlyOptimal
    | OtherLayout(id: nat)

  /** A buffer: its size and the memory object backing it. */
  datatype Buffer = Buffer(size: DeviceSize, mem: nat)

  /** An image: the fields of `intel_img` and of its layout that the meta
      operations read.  `format` is the layout's format, `hiz` says whether the
      layout's auxiliary surface is a Hi-Z buffer, `mem` names the memory
      object backing the image. */
  datatype Image = Image(
    imageType: ImageType,
    format: Format,
    samples: nat,
    mipLevels: nat,
    arraySize: nat,
    width0: nat,
    height0: nat,
    blockWidth: Pos,
    blockHeight: Pos,
    hiz: bool,
    mem: nat)

  datatype Offset3D = Offset3D(x: nat, y: nat, z: nat)
  datatype Extent3D = Extent3D(width: nat, height: nat, depth: nat)

  /** `VkImageSubresource`. */
  datatype Subresource = Subresource(aspect: Aspect, mipLevel: nat, arraySlice: nat)

  /** `VkImageSubresourceRange`. */
  datatype SubresourceRange = SubresourceRange(
    aspect: Aspect,
    baseMipLevel: nat,
    mipLevels: nat,
    baseArraySlice: nat,
    arraySize: nat)

  /** `VkBufferCopy`. */
  datatype BufferCopy = BufferCopy(srcOffset: DeviceSize, destOffset: DeviceSize, copySize: DeviceSize)

  /** `VkImageCopy`. */
  datatype ImageCopy = ImageCopy(
    srcSubresource: Subresource,
    srcOffset: Offset3D,
    destSubresource: Subresource,
    destOffset: Offset3D,
    extent: Extent3D)

  /** `VkBufferImageCopy`. */
  datatype BufferImageCopy = BufferImageCopy(
    bufferOffset: DeviceSize,
    imageSubresource: Subresource,
    imageOffset: Offset3D,
    imageExtent: Extent3D)

  /** `VkImageResolve`. */
  datatype ImageResolve = ImageResolve(
    srcSubresource: Subresource,
    srcOffset: Offset3D,
    destSubresource: Subresource,
    destOffset: Offset3D,
    extent: Extent3D)

  /** `VkRect3D`. */
  datatype Rect3D = Rect3D(offset: Offset3D, extent: Extent3D)

  /** The `u32[4]` view of a `VkClearColorValue`. */
  datatype ClearColor = ClearColor(r: U32, g: U32, b: U32, a: U32)

  /** The attachment view bound as a render target: its image and mip level. */
  datatype AttachmentView = AttachmentView(image: Image, mipLevel: nat)
}

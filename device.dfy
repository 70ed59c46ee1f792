/** What the meta operations ask of the rest of the driver: the hardware
    generation, the surface-descriptor field positions per generation, the
    format tables, the view-object constructors and the image-layout queries.
    None of these is part of the meta-operation layer, so each is a field of
    the `Device` value, and a command buffer holds its device. */
module Device {
  import opened Vk
  import opened Bits

  /** The hardware generation (`cmd_gen`): GEN6, GEN7 or GEN7.5. */
  datatype Gen = Gen6 | Gen7 | Gen75

  /** `cmd_gen(cmd) >= INTEL_GEN(7)`. */
  predicate AtLeastGen7(g: Gen)
  {
    g != Gen6
  }

  /** The positions of the surface-descriptor fields the compressed-destination
      adjustment rewrites: width and height in dword 2, the minimum array
      element in dword 4, the X and Y offsets in dword 5. */
  datatype SurfaceFields = SurfaceFields(
    width: Field,
    height: Field,
    minArrayElement: Field,
    xOffset: Field,
    yOffset: Field)

  predicate FieldsWellFormed(t: SurfaceFields)
  {
    && WellFormed(t.width) && WellFormed(t.height) && WellFormed(t.minArrayElement)
    && WellFormed(t.xOffset) && WellFormed(t.yOffset)
    && Disjoint(t.width, t.height) && Disjoint(t.xOffset, t.yOffset)
  }

  /** Encoded surface words as the view constructors produce them; a binding
      holds at most eight. */
  type SurfaceWords = s: seq<Dword> | |s| <= 8

  /** What a view constructor returns: the view's encoded words, or the
      `VkResult` it failed with. */
  datatype ViewResult = ViewOk(words: SurfaceWords) | ViewFailed(status: Status)

  /** A depth/stencil attachment view object, by identity. */
  datatype DsViewHandle = DsViewHandle(id: nat)

  datatype DsViewResult = DsViewOk(view: DsViewHandle) | DsViewFailed(status: Status)

  /** `VkImageViewType`; `View1D` is its zero value, the one a cleared
      create-info keeps when no case of the view-type choice applies. */
  datatype ViewType = View1D | View2D | View3D | View1DArray | View2DArray

  /** The create-info of a formatted buffer view; `buffer` is `None` for
      `VK_NULL_HANDLE`. */
  datatype BufViewInfo = BufViewInfo(buffer: Option<Buffer>, range: nat, format: Format)

  /** The create-info of an image view; the subresource range always spans
      every mip level and array slice and the swizzle is the identity. */
  datatype ImgViewInfo = ImgViewInfo(image: Image, viewType: ViewType, format: Format, aspect: Aspect)

  /** The create-info of a colour attachment view of one array slice. */
  datatype ColorViewInfo = ColorViewInfo(image: Image, format: Format, mipLevel: nat, baseArraySlice: nat)

  /** The create-info of a depth/stencil attachment view of one array slice. */
  datatype DsViewInfo = DsViewInfo(image: Image, mipLevel: nat, baseArraySlice: nat)

  /** `intel_layout_get_slice_tile_offset`: the byte offset of the tile holding
      a slice, and the slice's X/Y pixel offset within that tile. */
  datatype TileOffset = TileOffset(offset: nat, x: nat, y: nat)

  datatype Device = Device(
    gen: Gen,
    /** GEN6 and GEN7 positions of the surface fields */
    fields6: SurfaceFields,
    fields7: SurfaceFields,
    /** icd_format_get_size */
    formatSize: Format -> Pos,
    /** icd_format_get_block_width */
    formatBlockWidth: Format -> Pos,
    /** icd_format_is_compressed */
    isCompressed: Format -> bool,
    /** intel_buf_view_create */
    bufView: BufViewInfo -> ViewResult,
    /** intel_img_view_create */
    imgView: ImgViewInfo -> ViewResult,
    /** intel_att_view_create_for_color */
    colorView: ColorViewInfo -> ViewResult,
    /** intel_att_view_create_for_ds */
    dsView: DsViewInfo -> DsViewResult,
    /** intel_layout_get_slice_tile_offset(layout, lod, layer) */
    sliceTileOffset: (Image, nat, nat) -> TileOffset,
    /** intel_img_can_enable_hiz(img, lod) */
    canEnableHiz: (Image, nat) -> bool,
    /** u_minify(size, lod) */
    minify: (nat, nat) -> nat)

  /** The field table for the device's generation. */
  function FieldsFor(dev: Device): SurfaceFields
  {
    if AtLeastGen7(dev.gen) then dev.fields7 else dev.fields6
  }
}

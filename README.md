# Meta operations of the Intel Vulkan driver

This project models `icd/intel/cmd_meta.c`, the "meta operation" layer of the
Intel Vulkan ICD. The layer implements these commands:

- buffer and image copies (`vkCmdCopyBuffer`, `vkCmdCopyImage`,
  `vkCmdCopyBufferToImage`, `vkCmdCopyImageToBuffer`);
- buffer update and fill (`vkCmdUpdateBuffer`, `vkCmdFillBuffer`);
- clears (`cmd_meta_clear_image`, `cmd_meta_ds_op`, the colour and
  depth/stencil image clears, and the two attachment clears);
- `vkCmdResolveImage`;
- the unimplemented `vkCmdBlitImage`.

Each command fills in one meta record. The record holds:

- the mode;
- the shader;
- a source and a destination surface binding (valid flag, surface words,
  relocation target, offset and flags, level, layer, x and y);
- the depth/stencil state;
- the clear values;
- the width, height and sample count.

Each command then hands the record to `cmd_draw_meta` once per unit of work.
A failure goes to `cmd_fail`.

The model has two layers.

**Values.** A `World` holds the current record, the log of records handed to
`cmd_draw_meta` (`draws`) and the log of statuses given to `cmd_fail`
(`errors`).

- The builders and commands are functions over worlds.
- Every counted loop of the source is one generic `Loop` of a step function.
- The properties are lemmas about these functions.

**Objects.** Classes model the state the C code updates in place:

- `Cmd` holds the device and the two logs;
- `Binding` holds a surface binding, with its words in an `array`;
- `MetaOp` holds a meta record.

The builders and commands are methods with loops. Each method is proved to
leave exactly the logs, or the record, that its value-level function computes.

The device is a datatype of oracles:

- format size, block width and compression;
- the view constructors, which return surface words or a failure status;
- the slice tile offset;
- whether Hi-Z can be enabled;
- the mip-size function;
- the GEN generation;
- the GEN6/GEN7 surface bit-field table.

Surface dwords are 32-entry bit strings. `GEN_EXTRACT` and `GEN_SHIFT32` are
modelled on them (`Bits`).

Five behaviours of the code are kept as written:

- A failed destination binding in the image copies and the resolve is still
  followed by the draw (`icd/intel/cmd_meta.c:561-565`, `632-635`,
  `1132-1135`).
- The untyped image copy divides `y` and `height` by the block width, as it
  does `x` and `width` (`icd/intel/cmd_meta.c:552-557`).
- The X/Y tile offsets are ORed into dword 5 without clearing the field first
  (`icd/intel/cmd_meta.c:240-248`). `Adjust.AdjustLayerNonZero` therefore
  pins the new field values only when the old fields were clear.
- A single-slice 3D source image matches no case of the view-type choice, so
  its view keeps the zero value of the cleared create-info, the 1D view type
  (`icd/intel/cmd_meta.c:128-157`).
- In the depth/stencil clear loop, a slice whose depth/stencil view cannot be
  made still sets the state and draws. The record then still holds the view
  of the slice before, which was destroyed after that slice's draw and is
  destroyed again (`icd/intel/cmd_meta.c:859-868`).

## Model

| member | source | states |
|---|---|---|
| MetaHelpers.RoundedRange | icd/intel/cmd_meta.c:55-57 | the view range is a multiple of the format stride, at least the requested range and less than one stride above it; a range already a multiple is unchanged |
| MetaHelpers.RoundedRangeLeast | icd/intel/cmd_meta.c:55-57 | no multiple of the stride that covers the range is smaller than the rounded range: it is the least one |
| MetaHelpers.BufViewInfoFor | icd/intel/cmd_meta.c:35-60 | the buffer-view create info names the buffer and format asked for, with the range rounded up to the stride |
| MetaHelpers.DwordAlignedIff | icd/intel/cmd_meta.c:379-385 | the low-two-bits test of the ORed offsets and size holds exactly when all three are multiples of 4 |
| MetaHelpers.OffsetSizeAlignedIff | icd/intel/cmd_meta.c:747-750 | `(offset \| size) & 3 == 0` holds exactly when both are multiples of 4 (also the check at 793-796) |
| MetaHelpers.RawFormatForSize | icd/intel/cmd_meta.c:387-413 | texel size 1, 2, 4, 8, 16 gives R8, R16, R32, R32G32, R32G32B32A32 UINT, each in both directions; every other size gives UNDEFINED |
| MetaHelpers.RawFormatKeepsSize | icd/intel/cmd_meta.c:387-413 | the untyped format chosen for a format has that format's texel size, on a device whose size table agrees |
| MetaHelpers.RawFormatSameIffSameSize | icd/intel/cmd_meta.c:387-413 | for a format whose texel size has an untyped format (1, 2, 4, 8 or 16 bytes), another format shares that untyped format exactly when their texel sizes are equal |
| MetaHelpers.CopyShader | icd/intel/cmd_meta.c:354-377 | the copy shader is one-dimensional exactly for 1D images, the multisampled 2D shader exactly for multisampled 2D images, and an array shader exactly for 3D images or array copies that are not multisampled |
| MetaHelpers.SrcViewType | icd/intel/cmd_meta.c:128-157 | the source view is an array view exactly for a non-3D image of more than one layer, 3D exactly for a layered 3D image, 2D exactly for a single-layer 2D image, and 1D (the zero value of the cleared create-info) exactly for a single-layer 1D or 3D image |
| MetaHelpers.ResolveShader | icd/intel/cmd_meta.c:1093-1107 | 4, 8 and 16 samples pick the 4X, 8X and 16X resolve shaders, each in both directions; every other count picks 2X |
| MetaHelpers.ImageToBufferChoice | icd/intel/cmd_meta.c:665-690 | there is a choice exactly for the five untyped formats, each with its own copy shader (R8, R16, R32, R32G32, R32G32B32A32 to memory); 1- and 2-byte texels use the 4-byte stride, the others the 16-byte stride |
| Builders.SetSrcForBuf | icd/intel/cmd_meta.c:62-88 | on success, only the source binding changes: it is valid, holds the view's words and relocates to the buffer's memory with no flags; a failed view records its status and changes nothing else |
| Builders.SetDstForBuf | icd/intel/cmd_meta.c:90-116 | the same for the destination binding, relocated for writing |
| Builders.SetSrcForImg | icd/intel/cmd_meta.c:118-187 | the source binding holds the image view's words and relocates to the image's memory; a failed view records its status and changes nothing else |
| Builders.SetDstForImgEffect | icd/intel/cmd_meta.c:251-289 | the destination binding holds the colour view's words, relocated for writing, and is adjusted when the image is compressed; a failure changes nothing but the error log; level, layer and coordinates are never touched |
| Builders.SetSrcForWriter | icd/intel/cmd_meta.c:291-318 | the source binding holds the view's words and relocates to the state writer, flagged as a writer target |
| Builders.SetDsView | icd/intel/cmd_meta.c:320-343 | only the depth/stencil view changes, to the new view; a failure changes nothing but the error log |
| Builders.SetDsState | icd/intel/cmd_meta.c:345-352 | only the aspect and the stencil reference change |
| Adjust.BlockDimCovers | icd/intel/cmd_meta.c:208-210 | the stored "size minus one" converted to blocks is the ceiling of the real size over the block, minus one, and no larger than before |
| Adjust.AdjustedDw2Field | icd/intel/cmd_meta.c:213-223 | after clearing and ORing, the width and height fields of dword 2 hold the new values |
| Adjust.AdjustSize | icd/intel/cmd_meta.c:196-223 | the new stored width and height are the old ones converted to block units |
| Adjust.AdjustKeeps | icd/intel/cmd_meta.c:213-248 | only dwords 2, 4 and 5 and the relocation offset change; the bits of dword 2 outside the width and height fields are kept |
| Adjust.AdjustLayerZero | icd/intel/cmd_meta.c:225-226 | at layer 0, dwords 4 and 5 and the relocation offset are unchanged |
| Adjust.AdjustLayerNonZero | icd/intel/cmd_meta.c:228-248 | at another layer, the min-array-element field is cleared, the relocation offset becomes the slice's tile offset and dword 5 only gains bits; a dword 5 whose X/Y fields were clear then holds the offsets in blocks, shifted right by 2 and by 1 |
| Bits.ExtractShift32Exact | icd/intel/cmd_meta.c:213-223 | a value that fits its field and is shifted into it is extracted back unchanged |
| CmdMeta.Cmd.Fail | icd/intel/cmd_meta.c:72-75 | `cmd_fail` appends its status to the error log and leaves the draw log alone |
| CmdMeta.Cmd.DrawMeta | icd/intel/cmd_meta.c:482-482 | `cmd_draw_meta` appends a snapshot of the record to the draw log |
| CmdMeta.Binding.Bind | icd/intel/cmd_meta.c:77-87 | the common tail of the builders: valid, the words copied over the front of the surface, the length and the relocation set |
| CmdMeta.SetSrcForBuf | icd/intel/cmd_meta.c:62-88 | the in-place builder leaves the command and record that `Builders.SetSrcForBuf` computes |
| CmdMeta.SetDstForBuf | icd/intel/cmd_meta.c:90-116 | likewise for `Builders.SetDstForBuf` |
| CmdMeta.SetSrcForImg | icd/intel/cmd_meta.c:118-187 | likewise for `Builders.SetSrcForImg` |
| CmdMeta.AdjustCompressedDst | icd/intel/cmd_meta.c:189-249 | the bit-field surgery on the destination array gives the binding `Adjust.AdjustCompressedDst` computes |
| CmdMeta.SetDstForImg | icd/intel/cmd_meta.c:251-289 | likewise for `Builders.SetDstForImg` |
| CmdMeta.SetSrcForWriter | icd/intel/cmd_meta.c:291-318 | likewise for `Builders.SetSrcForWriter` |
| CmdMeta.SetDsView | icd/intel/cmd_meta.c:320-343 | likewise for `Builders.SetDsView` |
| CmdMeta.SetDsState | icd/intel/cmd_meta.c:345-352 | likewise for `Builders.SetDsState` |
| BufferCopyProps.AlignedRegion | icd/intel/cmd_meta.c:445-456 | an aligned region draws once with the dword copy shader, the offsets and size divided by 4, and the 16-byte working format |
| BufferCopyProps.UnalignedRegion | icd/intel/cmd_meta.c:466-472 | an unaligned region after GEN6 draws once with the unaligned shader, the byte offsets and size, and the 4-byte working format |
| BufferCopyProps.RefusedRegion | icd/intel/cmd_meta.c:458-464 | an unaligned region on GEN6 records one failure, draws nothing and keeps the working format |
| BufferCopyProps.BindEffect | icd/intel/cmd_meta.c:475-480 | the buffers are rebound only when the working format changes, and then both bindings take the new views |
| BufferCopyProps.RegionRebindsOnFormatChange | icd/intel/cmd_meta.c:437-483 | a region's draw carries the previous bindings when the format is unchanged, and fresh views of both buffers when it changes |
| BufferCopyProps.RegionExtends | icd/intel/cmd_meta.c:437-483 | a region only appends to the logs, one draw unless refused |
| BufferCopyProps.RegionsDrawCount | icd/intel/cmd_meta.c:437-483 | the loop draws once per region that is not refused |
| BufferCopyProps.CopyBufferDrawCount | icd/intel/cmd_meta.c:415-484 | `vkCmdCopyBuffer` only appends to the logs, one draw per region less the refused ones |
| BufferCopyProps.FirstRegionBinds | icd/intel/cmd_meta.c:426-480 | the format starts UNDEFINED and refused regions keep it, so the first region that draws, after any number of refused ones, binds both buffers afresh |
| SliceProps.SetDstBindsSlice | icd/intel/cmd_meta.c:251-289 | binding the destination for a slice binds the colour view of that level and layer, or records its failure |
| SliceProps.SlicesIsProduct | icd/intel/cmd_meta.c:637-638 | `k` slices advance the buffer position by `k * width * height` |
| SliceProps.CopyImageLayersDraws | icd/intel/cmd_meta.c:560-569 | `n` slices draw `n` times; draw `k` reads source layer `+k` and writes destination layer `+k` of the region's levels |
| SliceProps.CopyImageRegionDraws | icd/intel/cmd_meta.c:530-569 | a region draws `depth` times, one per slice, and leaves the record `depth` layers on |
| SliceProps.CopyImageRegionsDraws | icd/intel/cmd_meta.c:526-570 | the regions draw the sum of their depths; every draw keeps the mode, samples and source view set up before the loop |
| SliceProps.CopyImageOutcome | icd/intel/cmd_meta.c:486-571 | images of different types, or of different formats of which either is compressed, fail once before any draw; otherwise one draw per slice of every region, each a rectangle at the destination's sample count reading the source view bound once |
| CmdOps.CopyBuffer | icd/intel/cmd_meta.c:415-484 | the loop over regions leaves the logs of `MetaOps.CopyBuffer` |
| CmdOps.CopyImage | icd/intel/cmd_meta.c:486-571 | the nested region and slice loops leave the logs of `MetaOps.CopyImage` |
| CmdOps.BlitImage | icd/intel/cmd_meta.c:573-589 | the blit records one "unavailable" failure and draws nothing |
| BufferImageProps.BufferToImageLayerStep | icd/intel/cmd_meta.c:631-639 | a slice draws the destination slice it is at, then moves one layer on and one slice of texels further into the buffer |
| BufferImageProps.BufferToImageLayersDraws | icd/intel/cmd_meta.c:631-639 | `n` slices draw `n` times, draw `k` at layer `+k` and buffer position `+k` slices |
| BufferImageProps.BufferToImageRegionDraws | icd/intel/cmd_meta.c:620-639 | a region draws `depth` times and leaves the record `depth` slices on |
| BufferImageProps.BufferToImageRegionsDraws | icd/intel/cmd_meta.c:616-640 | the regions draw the sum of their depths, every draw keeping the mode, shader, samples and buffer binding set up before the loop |
| BufferImageProps.CopyBufferToImageOutcome | icd/intel/cmd_meta.c:591-641 | one draw per slice of every region, each a memory-to-image rectangle at the image's sample count reading the buffer bound once in the image's untyped format |
| BufferImageProps.ImageToBufferLayerStep | icd/intel/cmd_meta.c:723-728 | a slice draws the record it is at, then moves one layer on and one slice of texels further into the buffer |
| BufferImageProps.ImageToBufferLayersDraws | icd/intel/cmd_meta.c:723-728 | `n` slices draw `n` times, draw `k` at layer `+k` and buffer position `+k` slices |
| BufferImageProps.ImageToBufferRegionDraws | icd/intel/cmd_meta.c:713-728 | a region starts at its level, layer and coordinates in blocks and at the buffer offset in texels, and draws `depth` times |
| BufferImageProps.ImageToBufferRegionsDraws | icd/intel/cmd_meta.c:709-729 | the regions draw the sum of their depths, every draw keeping the set-up and both bindings but for the positions |
| BufferImageProps.CopyImageToBufferOutcome | icd/intel/cmd_meta.c:643-730 | a texel size with no untyped format, or below 4 bytes on GEN6, fails once before any draw; otherwise one draw per slice of every region, each single-sampled points of the chosen shader with both bindings made once |
| CmdOps.CopyBufferToImage | icd/intel/cmd_meta.c:591-641 | the nested loops leave the logs of `MetaOps.CopyBufferToImage` |
| CmdOps.CopyImageToBuffer | icd/intel/cmd_meta.c:643-730 | the nested loops leave the logs of `MetaOps.CopyImageToBuffer` |
| UpdateFillProps.UpdateBufferOutcome | icd/intel/cmd_meta.c:732-778 | an offset or size that is not a multiple of 4 fails once with no draw; otherwise exactly one draw of points copying `size/4` dwords from the state writer to dword `offset/4` of the buffer, single-sampled, one row high |
| UpdateFillProps.FillBufferOutcome | icd/intel/cmd_meta.c:780-818 | the same check; otherwise exactly one draw of the fill shader writing the word into `size/4` dwords from dword `offset/4`, with no source |
| CmdOps.UpdateBuffer | icd/intel/cmd_meta.c:732-778 | the method leaves the logs of `MetaOps.UpdateBuffer` |
| CmdOps.FillBuffer | icd/intel/cmd_meta.c:780-818 | the method leaves the logs of `MetaOps.FillBuffer` |
| ClearProps.ClearLayerColor | icd/intel/cmd_meta.c:854-858 | a colour slice binds the destination slice and draws it |
| ClearProps.ClearLayerDs | icd/intel/cmd_meta.c:859-868 | a depth/stencil slice binds the depth/stencil view of the slice and draws it |
| ClearProps.FailedDsViewDrawsStaleView | icd/intel/cmd_meta.c:859-868 | when the slice's depth/stencil view cannot be made, the failure is logged and the slice is still drawn with the previous slice's view |
| ClearProps.ClearMipRound | icd/intel/cmd_meta.c:841-871 | a level that is not skipped draws one slice per layer from the range's base layer; a skipped level draws nothing |
| ClearProps.ClearCountsAreMin | icd/intel/cmd_meta.c:833-839 | the level and layer counts are the least of what the image has from the base on and what the range asks for |
| ClearProps.ClearImageOutcome | icd/intel/cmd_meta.c:820-873 | a range outside the image draws nothing; otherwise one draw per layer of every level that is not skipped for Hi-Z, every draw keeping the caller's set-up |
| ClearProps.ClearImageLevels | icd/intel/cmd_meta.c:841-871 | each level that is not skipped owns the block of draws after the earlier levels, in layer order |
| ClearProps.ClearImageDrawAt | icd/intel/cmd_meta.c:841-871 | without a Hi-Z operation, draw `i * layers + j` clears layer `base + j` of level `base + i` |
| ClearEntryProps.ClearImageDrawsNoOp | icd/intel/cmd_meta.c:833-851 | without a Hi-Z operation no level is skipped: levels times layers draws |
| ClearEntryProps.ClearRangesOutcome | icd/intel/cmd_meta.c:924-926 | the clears of several ranges draw the sum of their counts and keep the caller's set-up |
| ClearEntryProps.DepthStencilOpOutcome | icd/intel/cmd_meta.c:875-896 | nothing happens without Hi-Z or outside the depth aspect; otherwise every draw is an optimal depth/stencil rectangle of the operation at the image's sample count |
| ClearEntryProps.ClearColorImageOutcome | icd/intel/cmd_meta.c:898-938 | every draw is a colour-clear rectangle at the image's sample count carrying the four clear words |
| ClearEntryProps.ClearDepthStencilImageOutcome | icd/intel/cmd_meta.c:940-986 | every draw is a depth-clear depth/stencil rectangle carrying the depth bits and stencil, optimal exactly for the two optimal layouts |
| ClearEntryProps.ColorAttachmentRectDraws | icd/intel/cmd_meta.c:1009-1015 | a rectangle clears one level of the view from layer `z`, as many layers as the image has left, up to `depth` |
| ClearEntryProps.ClearColorAttachmentOutcome | icd/intel/cmd_meta.c:988-1023 | the rectangles' colour clears draw their summed counts, every draw a colour-clear rectangle of the view's image |
| ClearEntryProps.DsAttachmentAspectsAlike | icd/intel/cmd_meta.c:1054-1064 | the stencil clear of a rectangle draws as often as its depth clear |
| ClearEntryProps.DsAttachmentRectOutcome | icd/intel/cmd_meta.c:1044-1064 | each asked-for aspect clears level 0 from layer `z`, every draw a depth-clear rectangle of the view's image |
| ClearEntryProps.ClearDepthStencilAttachmentOutcome | icd/intel/cmd_meta.c:1025-1066 | the rectangles' depth/stencil clears draw their summed counts, with the same per-draw facts |
| CmdOps.ClearImage | icd/intel/cmd_meta.c:820-873 | the nested level and layer loops leave the world of `MetaOps.ClearImage` |
| CmdOps.DepthStencilOp | icd/intel/cmd_meta.c:875-896 | the method leaves the logs of `MetaOps.DepthStencilOp` |
| CmdOps.ClearColorImage | icd/intel/cmd_meta.c:898-938 | the method leaves the logs of `MetaOps.ClearColorImage` |
| CmdOps.ClearDepthStencilImage | icd/intel/cmd_meta.c:940-986 | the method leaves the logs of `MetaOps.ClearDepthStencilImage` |
| CmdOps.ClearColorAttachment | icd/intel/cmd_meta.c:988-1023 | the method leaves the logs of `MetaOps.ClearColorAttachment` |
| CmdOps.ClearDepthStencilAttachment | icd/intel/cmd_meta.c:1025-1066 | the method leaves the logs of `MetaOps.ClearDepthStencilAttachment` |
| ResolveProps.ResolveSliceStep | icd/intel/cmd_meta.c:1118-1136 | slice `s` reads and writes layer `arraySlice + s` of the region's levels at its offsets and size, and draws once |
| ResolveProps.ResolveRegionDraws | icd/intel/cmd_meta.c:1118-1136 | a region draws once per slice of its depth |
| ResolveProps.ResolveRegionsDraws | icd/intel/cmd_meta.c:1115-1137 | the regions draw the sum of their depths, every draw keeping the set-up made before the loop |
| ResolveProps.ResolveImageOutcome | icd/intel/cmd_meta.c:1068-1138 | a single-sampled source, a multisampled destination or differing formats fail once before any draw; otherwise one single-sampled rectangle of the resolve shader for the source's sample count per slice of every region, all reading the source view bound once before the first region |
| CmdOps.ResolveImage | icd/intel/cmd_meta.c:1068-1138 | the nested loops leave the logs of `MetaOps.ResolveImage` |

## Left out

- View construction and destruction (`intel_buf_view_create`,
  `intel_img_view_create`, `intel_att_view_create_for_color/_ds` and their
  destroy calls): foreign code. These are device oracles that return the
  surface words or a failure status.
- `cmd_draw_meta` and `cmd_fail`: their bodies are not in this file. They are
  modelled as appends to the draw log and to the error log.
- `cmd_state_pointer` and the `memcpy` of the update data: this is dynamic
  state allocation. The offset it returns is an input of `vkCmdUpdateBuffer`,
  and the data itself is not modelled.
- `intel_layout_get_slice_tile_offset`, `intel_img_can_enable_hiz`,
  `u_minify`, `icd_format_get_size`, `icd_format_get_block_width` and
  `icd_format_is_compressed`: layout and format tables outside this file.
  They are device oracles.
- The GEN6/GEN7 `SURFACE_DW*` bit positions: they live in headers that are
  not part of this model. They are a per-generation table of fields
  (shift and width).
- `u_fui`: float-to-bits conversion. The depth clear value is taken as its
  32-bit pattern.
- `intel_dev_log`: diagnostic output only.
- The framebuffer and subpass lookup of the attachment clears: this reads
  bound state. The attachment view is an input.
- Relocation patching at submit time and the shader library: both are
  outside this file.
- 32-bit widths: counts, offsets and coordinates are unbounded naturals, so
  wrap-around of `uint32_t` and `VkDeviceSize` arithmetic is not modelled.
- The debug assertion in `cmd_meta_img_raw_format` is not modelled. The
  UNDEFINED result that follows it is: the image-to-buffer copy refuses it,
  and the image copy and the resolve pass it to the view constructor.
- Device.formatSize: every format, UNDEFINED included, has a positive size
  in the model. For an image whose texel size has no untyped format (3, 6 or
  12 bytes, say), `vkCmdCopyBufferToImage` divides the buffer range and
  offset by the size of UNDEFINED (`icd/intel/cmd_meta.c:56`, `614`, `620`),
  which the code leaves undefined. For such images the model still counts one
  draw per slice, as it would for any positive size.
- BufferImageProps.CopyBufferToImageOutcome: its draw count for an image
  whose texel size has no untyped format rests on that positive size of
  UNDEFINED, and is not a promise of the code.
- MetaHelpers.RawFormatKeepsSize: states the size agreement only for devices
  whose format-size table gives the five untyped formats their sizes. The
  table itself is not part of this model.
- Adjust.AdjustLayerNonZero: pins the new X/Y field values only when those
  fields of dword 5 were clear, because the code ORs into them without
  clearing them.

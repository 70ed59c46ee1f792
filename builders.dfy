/** The binding builders `cmd_meta_set_{src,dst}_for_{buf,img}`,
    `cmd_meta_set_src_for_writer`, `cmd_meta_set_ds_view` and
    `cmd_meta_set_ds_state`, as maps from one `World` to the next.  A builder
    asks a view constructor for the encoded words; when it fails the failure
    goes to `cmd_fail` and the record is left exactly as it was (a binding
    built earlier stays valid); when it succeeds the words are copied into
    the binding and the relocation is set. */
module Builders {
  import opened Vk
  import opened Device
  import opened MetaHelpers
  import opened MetaState
  import opened Adjust

  /** `cmd_meta_create_buf_view`: the view constructor's answer for a
      formatted view of `buffer` (`None` is `VK_NULL_HANDLE`) with the range
      rounded up to the format's element size. */
  function CreateBufView(dev: Device, buffer: Option<Buffer>, range: nat, format: Format): ViewResult
  {
    dev.bufView(BufViewInfoFor(dev, buffer, range, format))
  }

  /** `cmd_meta_set_src_for_buf`: the whole buffer as a read-only source. */
  function SetSrcForBuf(dev: Device, w: World, buf: Buffer, format: Format): (r: World)
    ensures var v := CreateBufView(dev, Some(buf), buf.size, format);
            && r.draws == w.draws
            && r.meta == w.meta.(src := r.meta.src)
            && (v.ViewOk? ==> r.errors == w.errors && BoundTo(r.meta.src, w.meta.src, v.words, MemBo(buf.mem), RelocNone))
            && (v.ViewFailed? ==> r == Fail(w, v.status))
  {
    match CreateBufView(dev, Some(buf), buf.size, format)
    case ViewFailed(s) => Fail(w, s)
    case ViewOk(words) => w.(meta := w.meta.(src := Bound(w.meta.src, words, MemBo(buf.mem), RelocNone)))
  }

  /** `cmd_meta_set_dst_for_buf`: the whole buffer as a written destination. */
  function SetDstForBuf(dev: Device, w: World, buf: Buffer, format: Format): (r: World)
    ensures var v := CreateBufView(dev, Some(buf), buf.size, format);
            && r.draws == w.draws
            && r.meta == w.meta.(dst := r.meta.dst)
            && (v.ViewOk? ==> r.errors == w.errors && BoundTo(r.meta.dst, w.meta.dst, v.words, MemBo(buf.mem), RelocWrite))
            && (v.ViewFailed? ==> r == Fail(w, v.status))
  {
    match CreateBufView(dev, Some(buf), buf.size, format)
    case ViewFailed(s) => Fail(w, s)
    case ViewOk(words) => w.(meta := w.meta.(dst := Bound(w.meta.dst, words, MemBo(buf.mem), RelocWrite)))
  }

  /** The image-view create-info of `cmd_meta_set_src_for_img`. */
  function SrcImgViewInfo(img: Image, format: Format, aspect: Aspect): ImgViewInfo
  {
    ImgViewInfo(img, SrcViewType(img), format, aspect)
  }

  /** `cmd_meta_set_src_for_img`: every mip level and slice of the image as a
      read-only source. */
  function SetSrcForImg(dev: Device, w: World, img: Image, format: Format, aspect: Aspect): (r: World)
    ensures var v := dev.imgView(SrcImgViewInfo(img, format, aspect));
            && r.draws == w.draws
            && r.meta == w.meta.(src := r.meta.src)
            && (v.ViewOk? ==> r.errors == w.errors && BoundTo(r.meta.src, w.meta.src, v.words, MemBo(img.mem), RelocNone))
            && (v.ViewFailed? ==> r == Fail(w, v.status))
  {
    match dev.imgView(SrcImgViewInfo(img, format, aspect))
    case ViewFailed(s) => Fail(w, s)
    case ViewOk(words) => w.(meta := w.meta.(src := Bound(w.meta.src, words, MemBo(img.mem), RelocNone)))
  }

  /** `cmd_meta_set_dst_for_img`: one slice of one mip level as a written
      colour destination, adjusted when the image is block-compressed. */
  function SetDstForImg(dev: Device, w: World, img: Image, format: Format, lod: nat, layer: nat): World
  {
    match dev.colorView(ColorViewInfo(img, format, lod, layer))
    case ViewFailed(s) => Fail(w, s)
    case ViewOk(words) =>
      var b := Bound(w.meta.dst, words, MemBo(img.mem), RelocWrite);
      var b' := if dev.isCompressed(img.format) then AdjustCompressedDst(dev, img, b) else b;
      w.(meta := w.meta.(dst := b'))
  }

  /** What `cmd_meta_set_dst_for_img` does to the world. */
  lemma SetDstForImgEffect(dev: Device, w: World, img: Image, format: Format, lod: nat, layer: nat)
    ensures var r := SetDstForImg(dev, w, img, format, lod, layer);
            var v := dev.colorView(ColorViewInfo(img, format, lod, layer));
            && r.draws == w.draws
            && r.meta == w.meta.(dst := r.meta.dst)
            && (v.ViewOk? && !dev.isCompressed(img.format) ==>
                  r.errors == w.errors && BoundTo(r.meta.dst, w.meta.dst, v.words, MemBo(img.mem), RelocWrite))
            && (v.ViewOk? && dev.isCompressed(img.format) ==>
                  r.errors == w.errors
                  && r.meta.dst == AdjustCompressedDst(dev, img, Bound(w.meta.dst, v.words, MemBo(img.mem), RelocWrite)))
            && (v.ViewFailed? ==> r == Fail(w, v.status))
            && r.meta.dst.lod == w.meta.dst.lod && r.meta.dst.layer == w.meta.dst.layer
            && r.meta.dst.x == w.meta.dst.x && r.meta.dst.y == w.meta.dst.y
  {
    var v := dev.colorView(ColorViewInfo(img, format, lod, layer));
    if v.ViewOk? {
      AdjustKeeps(dev, img, Bound(w.meta.dst, v.words, MemBo(img.mem), RelocWrite));
    }
  }

  /** `cmd_meta_set_src_for_writer`: `size` bytes of a command-buffer writer as
      a source; the relocation names the writer and says so in its flags. */
  function SetSrcForWriter(dev: Device, w: World, writer: Writer, size: nat, format: Format): (r: World)
    ensures var v := CreateBufView(dev, None, size, format);
            && r.draws == w.draws
            && r.meta == w.meta.(src := r.meta.src)
            && (v.ViewOk? ==> r.errors == w.errors && BoundTo(r.meta.src, w.meta.src, v.words, WriterTarget(writer), RelocTargetIsWriter))
            && (v.ViewFailed? ==> r == Fail(w, v.status))
  {
    match CreateBufView(dev, None, size, format)
    case ViewFailed(s) => Fail(w, s)
    case ViewOk(words) => w.(meta := w.meta.(src := Bound(w.meta.src, words, WriterTarget(writer), RelocTargetIsWriter)))
  }

  /** `cmd_meta_set_ds_view`: a depth/stencil view of one slice of one mip
      level becomes the record's `ds.view`. */
  function SetDsView(dev: Device, w: World, img: Image, lod: nat, layer: nat): (r: World)
    ensures var v := dev.dsView(DsViewInfo(img, lod, layer));
            && r.draws == w.draws
            && r.meta == w.meta.(ds := r.meta.ds)
            && r.meta.ds == w.meta.ds.(view := r.meta.ds.view)
            && (v.DsViewOk? ==> r.errors == w.errors && r.meta.ds.view == Some(v.view))
            && (v.DsViewFailed? ==> r == Fail(w, v.status))
  {
    match dev.dsView(DsViewInfo(img, lod, layer))
    case DsViewFailed(s) => Fail(w, s)
    case DsViewOk(view) => w.(meta := w.meta.(ds := w.meta.ds.(view := Some(view))))
  }

  /** `cmd_meta_set_ds_state`: the stencil reference and the aspect. */
  function SetDsState(m: MetaVal, aspect: Aspect, stencilRef: U32): (r: MetaVal)
    ensures r.ds.aspect == aspect && r.ds.stencilRef == stencilRef
    ensures r.ds.view == m.ds.view && r.ds.op == m.ds.op && r.ds.optimal == m.ds.optimal
    ensures r == m.(ds := r.ds)
  {
    m.(ds := m.ds.(stencilRef := stencilRef, aspect := aspect))
  }
}

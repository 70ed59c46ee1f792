/** What the entry points built on `cmd_meta_clear_image` promise: the
    Hi-Z operation, the colour and depth/stencil image clears, and the
    attachment clears.  Each sets up one record and clears a list of ranges
    with it; every draw they make carries that record's mode, shader,
    samples and clear values, and the number of draws is the sum of what
    each range clears. */
module ClearEntryProps {
  import opened Vk
  import opened Device
  import opened MetaHelpers
  import opened MetaState
  import opened MetaOps
  import opened LoopProps
  import opened ClearProps

  lemma ClearFrameTrans(m2: MetaVal, m1: MetaVal, m0: MetaVal)
    requires ClearFrame(m2, m1) && ClearFrame(m1, m0)
    ensures ClearFrame(m2, m0)
  {
  }

  /** Without a Hi-Z operation no level is skipped: a range clears every
      slice of every level it covers, none when it misses the image. */
  lemma ClearImageDrawsNoOp(dev: Device, img: Image, range: SubresourceRange)
    ensures ClearImageDraws(dev, DsNop, img, range) == ClearMipCount(img, range) * ClearLayerCount(img, range)
  {
    if !ClearOutOfRange(img, range) {
      var skip := Skip(dev, DsNop, img, range);
      forall i: nat | i < ClearMipCount(img, range)
        ensures !skip(i)
      {
        assert !SkipsMip(dev, DsNop, img, range.baseMipLevel + i);
      }
      CountedNone(skip, ClearLayerCount(img, range), ClearMipCount(img, range));
    }
  }

  /** The draws a list of ranges makes under operation `op`. */
  function RangesDraws(dev: Device, op: DsOp, img: Image, ranges: seq<SubresourceRange>): nat
    decreases |ranges|
  {
    if ranges == [] then 0 else ClearImageDraws(dev, op, img, ranges[0]) + RangesDraws(dev, op, img, ranges[1..])
  }

  /** Clearing a list of ranges: the draws of every range in turn, every one
      of them and the final record keeping the frame of the record the
      clears started from. */
  lemma {:induction false} ClearRangesOutcome(dev: Device, w: World, img: Image, format: Format, ranges: seq<SubresourceRange>)
    ensures var r := ClearRanges(dev, w, img, format, ranges);
            && Extends(w, r)
            && |r.draws| == |w.draws| + RangesDraws(dev, w.meta.ds.op, img, ranges)
            && ClearFrame(r.meta, w.meta)
            && forall idx :: |w.draws| <= idx < |r.draws| ==> ClearFrame(r.draws[idx], w.meta)
    decreases |ranges|
  {
    if ranges != [] {
      var w1 := ClearImage(dev, w, img, format, ranges[0]);
      var r := ClearRanges(dev, w, img, format, ranges);
      assert r == ClearRanges(dev, w1, img, format, ranges[1..]);
      ClearImageOutcome(dev, w, img, format, ranges[0]);
      ClearRangesOutcome(dev, w1, img, format, ranges[1..]);
      ExtendsTrans(w, w1, r);
      ClearFrameTrans(r.meta, w1.meta, w.meta);
      forall idx | |w.draws| <= idx < |r.draws|
        ensures ClearFrame(r.draws[idx], w.meta)
      {
        if idx < |w1.draws| {
          assert r.draws[idx] == r.draws[..|w1.draws|][idx];
          assert ClearKept(w1.draws[idx], w.meta, ranges[0]);
        } else {
          ClearFrameTrans(r.draws[idx], w1.meta, w.meta);
        }
      }
    }
  }

  // ---------------------------------------------------------------------
  // cmd_meta_ds_op

  /** The Hi-Z operation does nothing unless the image has a Hi-Z buffer
      and the range is its depth aspect; then it clears the range with a
      depth/stencil rectangle for every slice of every level where Hi-Z can
      be enabled, every draw carrying the operation. */
  lemma DepthStencilOpOutcome(dev: Device, w: World, op: DsOp, img: Image, range: SubresourceRange)
    ensures var r := DepthStencilOp(dev, w, op, img, range);
            && ((!img.hiz || range.aspect != Depth) ==> r == w)
            && (img.hiz && range.aspect == Depth ==>
                  && Extends(w, r)
                  && |r.draws| == |w.draws| + ClearImageDraws(dev, op, img, range)
                  && forall idx :: |w.draws| <= idx < |r.draws| ==>
                       && r.draws[idx].mode == DepthStencilRect
                       && r.draws[idx].ds.op == op && r.draws[idx].ds.optimal
                       && r.draws[idx].samples == img.samples)
  {
    if img.hiz && range.aspect == Depth {
      var w0 := w.(meta := DsOpMeta(op, img));
      ClearImageOutcome(dev, w0, img, img.format, range);
      var r := ClearImage(dev, w0, img, img.format, range);
      forall idx | |w.draws| <= idx < |r.draws|
        ensures r.draws[idx].mode == DepthStencilRect && r.draws[idx].ds.op == op && r.draws[idx].ds.optimal
      {
        assert ClearKept(r.draws[idx], w0.meta, range);
      }
    }
  }

  // ---------------------------------------------------------------------
  // The image clears

  /** `cmd_meta_clear_color_image`: every slice of every range inside the
      image is one rectangle of the colour-clear shader with the image's
      sample count and the four colour words as clear values. */
  lemma ClearColorImageOutcome(dev: Device, w: World, img: Image, color: ClearColor, ranges: seq<SubresourceRange>)
    ensures var r := ClearColorImage(dev, w, img, color, ranges);
            && Extends(w, r)
            && |r.draws| == |w.draws| + RangesDraws(dev, DsNop, img, ranges)
            && forall idx :: |w.draws| <= idx < |r.draws| ==>
                 && r.draws[idx].mode == FsRect && r.draws[idx].shader == FsClearColor
                 && r.draws[idx].samples == img.samples
                 && r.draws[idx].clearVal == [color.r, color.g, color.b, color.a]
  {
    var w0 := w.(meta := ClearColorMeta(img, color));
    ClearRangesOutcome(dev, w0, img, img.format, ranges);
  }

  /** `cmd_meta_clear_depth_stencil_image`: every slice of every range
      inside the image is one depth/stencil rectangle of the depth-clear
      shader, with the depth bits and the stencil value as clear values and
      the layout flag set exactly for the two depth/stencil-optimal
      layouts. */
  lemma ClearDepthStencilImageOutcome(dev: Device, w: World, img: Image, layout: ImageLayout, depthBits: U32, stencil: U32,
                                      ranges: seq<SubresourceRange>)
    ensures var r := ClearDepthStencilImage(dev, w, img, layout, depthBits, stencil, ranges);
            && Extends(w, r)
            && |r.draws| == |w.draws| + RangesDraws(dev, DsNop, img, ranges)
            && forall idx :: |w.draws| <= idx < |r.draws| ==>
                 && r.draws[idx].mode == DepthStencilRect && r.draws[idx].shader == FsClearDepth
                 && r.draws[idx].samples == img.samples
                 && r.draws[idx].clearVal == [depthBits, stencil, 0, 0]
                 && r.draws[idx].ds.op == DsNop
                 && r.draws[idx].ds.optimal == (layout == DepthStencilAttachmentOptimal || layout == DepthStencilReadOnlyOptimal)
  {
    var w0 := w.(meta := ClearDsMeta(img, layout, depthBits, stencil));
    ClearRangesOutcome(dev, w0, img, img.format, ranges);
  }

  // ---------------------------------------------------------------------
  // The attachment clears

  /** A rectangle of a colour attachment clears `depth` slices from slice
      `offset.z` of the view's level, as far as the image has them. */
  lemma ColorAttachmentRectDraws(dev: Device, view: AttachmentView, rect: Rect3D)
    ensures var img := view.image;
            ClearImageDraws(dev, DsNop, img, ColorAttachmentRange(view, rect))
            == if view.mipLevel < img.mipLevels && rect.offset.z < img.arraySize
               then Min(img.arraySize - rect.offset.z, rect.extent.depth) else 0
  {
    ClearImageDrawsNoOp(dev, view.image, ColorAttachmentRange(view, rect));
  }

  /** The draws of the rectangles of a colour attachment. */
  function ColorRectsDraws(dev: Device, view: AttachmentView, rects: seq<Rect3D>): nat
    decreases |rects|
  {
    if rects == [] then 0
    else ClearImageDraws(dev, DsNop, view.image, ColorAttachmentRange(view, rects[0])) + ColorRectsDraws(dev, view, rects[1..])
  }

  /** `vkCmdClearColorAttachment`: the rectangles one after the other, each
      cleared like a colour image. */
  lemma {:induction false} ClearColorAttachmentOutcome(dev: Device, w: World, view: AttachmentView, color: ClearColor,
                                                       rects: seq<Rect3D>)
    ensures var r := ClearColorAttachment(dev, w, view, color, rects);
            && Extends(w, r)
            && |r.draws| == |w.draws| + ColorRectsDraws(dev, view, rects)
            && forall idx :: |w.draws| <= idx < |r.draws| ==>
                 && r.draws[idx].mode == FsRect && r.draws[idx].shader == FsClearColor
                 && r.draws[idx].samples == view.image.samples
                 && r.draws[idx].clearVal == [color.r, color.g, color.b, color.a]
    decreases |rects|
  {
    if rects != [] {
      var range := ColorAttachmentRange(view, rects[0]);
      var w1 := ClearColorImage(dev, w, view.image, color, [range]);
      var r := ClearColorAttachment(dev, w, view, color, rects);
      assert r == ClearColorAttachment(dev, w1, view, color, rects[1..]);
      ClearColorImageOutcome(dev, w, view.image, color, [range]);
      assert RangesDraws(dev, DsNop, view.image, [range]) == ClearImageDraws(dev, DsNop, view.image, range);
      ClearColorAttachmentOutcome(dev, w1, view, color, rects[1..]);
      ExtendsTrans(w, w1, r);
      forall idx | |w.draws| <= idx < |w1.draws|
        ensures r.draws[idx] == w1.draws[idx]
      {
        assert r.draws[idx] == r.draws[..|w1.draws|][idx];
      }
    }
  }

  /** A rectangle of a depth/stencil attachment clears the same slices of
      level 0 for its stencil aspect as for its depth aspect. */
  lemma DsAttachmentAspectsAlike(dev: Device, img: Image, rect: Rect3D)
    ensures ClearImageDraws(dev, DsNop, img, DsAttachmentRange(rect).(aspect := Stencil))
            == ClearImageDraws(dev, DsNop, img, DsAttachmentRange(rect))
  {
    ClearImageDrawsNoOp(dev, img, DsAttachmentRange(rect));
    ClearImageDrawsNoOp(dev, img, DsAttachmentRange(rect).(aspect := Stencil));
  }

  /** The draws of one rectangle of a depth/stencil attachment: its slices
      once for each aspect the mask names. */
  function DsRectDraws(dev: Device, view: AttachmentView, aspects: AspectFlags, rect: Rect3D): nat
  {
    var n := ClearImageDraws(dev, DsNop, view.image, DsAttachmentRange(rect));
    (if aspects.depth then n else 0) + (if aspects.stencil then n else 0)
  }

  function DsRectsDraws(dev: Device, view: AttachmentView, aspects: AspectFlags, rects: seq<Rect3D>): nat
    decreases |rects|
  {
    if rects == [] then 0 else DsRectDraws(dev, view, aspects, rects[0]) + DsRectsDraws(dev, view, aspects, rects[1..])
  }

  /** What every depth/stencil clear draw of the attachment carries. */
  predicate DsClearDraw(d: MetaVal, view: AttachmentView, layout: ImageLayout, depthBits: U32, stencil: U32)
  {
    && d.mode == DepthStencilRect && d.shader == FsClearDepth
    && d.samples == view.image.samples
    && d.clearVal == [depthBits, stencil, 0, 0]
    && d.ds.optimal == DsOptimalLayout(layout)
  }

  /** One rectangle: a depth clear when the mask has the depth bit, then a
      stencil clear of the same slices when it has the stencil bit. */
  lemma DsAttachmentRectOutcome(dev: Device, w: World, view: AttachmentView, aspects: AspectFlags, layout: ImageLayout,
                                depthBits: U32, stencil: U32, rect: Rect3D)
    ensures var r := DsAttachmentRect(dev, w, view, aspects, layout, depthBits, stencil, rect);
            && Extends(w, r)
            && |r.draws| == |w.draws| + DsRectDraws(dev, view, aspects, rect)
            && forall idx :: |w.draws| <= idx < |r.draws| ==> DsClearDraw(r.draws[idx], view, layout, depthBits, stencil)
  {
    var range := DsAttachmentRange(rect);
    var w1 := if aspects.depth then ClearDepthStencilImage(dev, w, view.image, layout, depthBits, stencil, [range]) else w;
    var r := DsAttachmentRect(dev, w, view, aspects, layout, depthBits, stencil, rect);
    ClearDepthStencilImageOutcome(dev, w, view.image, layout, depthBits, stencil, [range]);
    ClearDepthStencilImageOutcome(dev, w1, view.image, layout, depthBits, stencil, [range.(aspect := Stencil)]);
    assert RangesDraws(dev, DsNop, view.image, [range]) == ClearImageDraws(dev, DsNop, view.image, range);
    assert RangesDraws(dev, DsNop, view.image, [range.(aspect := Stencil)])
        == ClearImageDraws(dev, DsNop, view.image, range.(aspect := Stencil));
    DsAttachmentAspectsAlike(dev, view.image, rect);
    ExtendsTrans(w, w1, r);
    forall idx | |w.draws| <= idx < |r.draws|
      ensures DsClearDraw(r.draws[idx], view, layout, depthBits, stencil)
    {
      if idx < |w1.draws| {
        assert r.draws[idx] == r.draws[..|w1.draws|][idx];
      }
    }
  }

  /** `vkCmdClearDepthStencilAttachment`: the rectangles one after the
      other, each cleared per aspect. */
  lemma {:induction false} ClearDepthStencilAttachmentOutcome(dev: Device, w: World, view: AttachmentView, aspects: AspectFlags,
                                                              layout: ImageLayout, depthBits: U32, stencil: U32, rects: seq<Rect3D>)
    ensures var r := ClearDepthStencilAttachment(dev, w, view, aspects, layout, depthBits, stencil, rects);
            && Extends(w, r)
            && |r.draws| == |w.draws| + DsRectsDraws(dev, view, aspects, rects)
            && forall idx :: |w.draws| <= idx < |r.draws| ==> DsClearDraw(r.draws[idx], view, layout, depthBits, stencil)
    decreases |rects|
  {
    if rects != [] {
      var w1 := DsAttachmentRect(dev, w, view, aspects, layout, depthBits, stencil, rects[0]);
      var r := ClearDepthStencilAttachment(dev, w, view, aspects, layout, depthBits, stencil, rects);
      assert r == ClearDepthStencilAttachment(dev, w1, view, aspects, layout, depthBits, stencil, rects[1..]);
      DsAttachmentRectOutcome(dev, w, view, aspects, layout, depthBits, stencil, rects[0]);
      ClearDepthStencilAttachmentOutcome(dev, w1, view, aspects, layout, depthBits, stencil, rects[1..]);
      ExtendsTrans(w, w1, r);
      forall idx | |w.draws| <= idx < |w1.draws|
        ensures r.draws[idx] == w1.draws[idx]
      {
        assert r.draws[idx] == r.draws[..|w1.draws|][idx];
      }
    }
  }
}

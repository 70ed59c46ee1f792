/** The command buffer and the meta-operation record as objects, and the
    builders, the compressed-destination adjustment and the meta operations
    as methods that update them in place.  Each method is proved to leave the
    command buffer's logs (and, for the builders, the record) exactly as the
    pure specification in `Builders` or `MetaOps` says. */
module CmdMeta {
  import opened Vk
  import opened Device
  import opened Bits
  import opened MetaHelpers
  import opened MetaState
  import opened Adjust
  import opened Builders
  import MetaOps

  /** `struct intel_cmd`, as far as the meta operations see it: the device,
      and what `cmd_draw_meta` and `cmd_fail` record. */
  class Cmd {
    const dev: Device
    var draws: seq<MetaVal>
    var errors: seq<Status>

    constructor (dev: Device)
      ensures this.dev == dev && draws == [] && errors == []
    {
      this.dev := dev;
      draws := [];
      errors := [];
    }

    /** `cmd_fail`: the failure is recorded and recording goes on. */
    method Fail(s: Status)
      modifies this
      ensures draws == old(draws) && errors == old(errors) + [s]
    {
      errors := errors + [s];
    }

    /** `cmd_draw_meta`: the draw is emitted with the record as it is now. */
    method DrawMeta(meta: MetaOp)
      requires meta.Valid()
      modifies this
      ensures draws == old(draws) + [meta.Value()] && errors == old(errors)
    {
      draws := draws + [meta.Value()];
    }
  }

  /** The `src` or `dst` member of `struct intel_cmd_meta`. */
  class Binding {
    var valid: bool
    const surface: array<Dword>
    var surfaceLen: nat
    var relocTarget: RelocTarget
    var relocOffset: nat
    var relocFlags: RelocFlags
    var lod: nat
    var layer: nat
    var x: nat
    var y: nat

    ghost predicate Valid()
    {
      surface.Length == 8
    }

    function Value(): BindingVal
      requires Valid()
      reads this, surface
    {
      BindingVal(valid, surface[..], surfaceLen, relocTarget, relocOffset, relocFlags, lod, layer, x, y)
    }

    constructor ()
      ensures Valid() && fresh(surface)
      ensures Value() == ZeroBinding()
    {
      valid := false;
      surface := new Dword[8](i => ZeroWord());
      surfaceLen := 0;
      relocTarget := NoTarget;
      relocOffset := 0;
      relocFlags := RelocNone;
      lod, layer, x, y := 0, 0, 0, 0;
    }

    /** The tail every binding builder shares: mark the binding valid, copy
        the view's words over the front of `surface`, record their count and
        set the relocation. */
    method Bind(words: SurfaceWords, target: RelocTarget, flags: RelocFlags)
      requires Valid()
      modifies this, surface
      ensures Value() == Bound(old(Value()), words, target, flags)
    {
      valid := true;
      forall i | 0 <= i < |words| {
        surface[i] := words[i];
      }
      assert surface[..] == words + old(surface[..])[|words|..];
      surfaceLen := |words|;
      relocTarget := target;
      relocOffset := 0;
      relocFlags := flags;
    }

    /** Points the binding at a mip level, an array layer and a position. */
    method Place(lod: nat, layer: nat, x: nat, y: nat)
      requires Valid()
      modifies this
      ensures Value() == old(Value()).(lod := lod, layer := layer, x := x, y := y)
    {
      this.lod, this.layer, this.x, this.y := lod, layer, x, y;
    }

    /** Points the binding at a mip level and an array layer. */
    method SetLevel(lod: nat, layer: nat)
      requires Valid()
      modifies this
      ensures Value() == old(Value()).(lod := lod, layer := layer)
    {
      this.lod, this.layer := lod, layer;
    }

    /** Moves the binding to the next array layer. */
    method NextLayer()
      requires Valid()
      modifies this
      ensures Value() == old(Value()).(layer := old(Value()).layer + 1)
    {
      layer := layer + 1;
    }
  }

  /** `struct intel_cmd_meta`. */
  class MetaOp {
    var mode: Mode
    var shader: Shader
    const src: Binding
    const dst: Binding
    var ds: DsVal
    const clearVal: array<U32>
    var width: nat
    var height: nat
    var samples: nat

    ghost predicate Valid()
    {
      src != dst && src.surface != dst.surface && src.Valid() && dst.Valid() && clearVal.Length == 4
    }

    ghost function Repr(): set<object>
    {
      {this, src, dst, src.surface, dst.surface, clearVal}
    }

    function Value(): MetaVal
      requires Valid()
      reads this, src, dst, src.surface, dst.surface, clearVal
    {
      MetaVal(mode, shader, src.Value(), dst.Value(), ds, clearVal[..], width, height, samples)
    }

    /** Sets the size of the draw's rectangle. */
    method SetSize(width: nat, height: nat)
      requires Valid()
      modifies this
      ensures Value() == old(Value()).(width := width, height := height)
    {
      this.width, this.height := width, height;
    }

    /** Sets the sample count of the draw. */
    method SetSamples(samples: nat)
      requires Valid()
      modifies this
      ensures Value() == old(Value()).(samples := samples)
    {
      this.samples := samples;
    }

    /** A record cleared with `memset`. */
    constructor ()
      ensures Valid() && fresh(Repr())
      ensures Value() == ZeroMeta()
    {
      mode := ModeUnset;
      shader := ShaderUnset;
      src := new Binding();
      dst := new Binding();
      ds := DsVal(None, 0, Color, DsNop, false);
      clearVal := new U32[4](i => 0);
      width, height, samples := 0, 0, 0;
      new;
      assert clearVal[..] == [0, 0, 0, 0];
    }
  }

  /** The record and the command buffer's logs, as one value. */
  function WorldOf(cmd: Cmd, meta: MetaOp): World
    requires meta.Valid()
    reads cmd, meta, meta.src, meta.dst, meta.src.surface, meta.dst.surface, meta.clearVal
  {
    World(meta.Value(), cmd.draws, cmd.errors)
  }

  // ---------------------------------------------------------------------
  // Builders

  /** `cmd_meta_set_src_for_buf`. */
  method SetSrcForBuf(cmd: Cmd, buf: Buffer, format: Format, meta: MetaOp)
    requires meta.Valid()
    modifies cmd, meta.src, meta.src.surface
    ensures WorldOf(cmd, meta) == Builders.SetSrcForBuf(cmd.dev, old(WorldOf(cmd, meta)), buf, format)
  {
    var res := CreateBufView(cmd.dev, Some(buf), buf.size, format);
    if res.ViewFailed? {
      cmd.Fail(res.status);
      return;
    }
    meta.src.Bind(res.words, MemBo(buf.mem), RelocNone);
  }

  /** `cmd_meta_set_dst_for_buf`. */
  method SetDstForBuf(cmd: Cmd, buf: Buffer, format: Format, meta: MetaOp)
    requires meta.Valid()
    modifies cmd, meta.dst, meta.dst.surface
    ensures WorldOf(cmd, meta) == Builders.SetDstForBuf(cmd.dev, old(WorldOf(cmd, meta)), buf, format)
  {
    var res := CreateBufView(cmd.dev, Some(buf), buf.size, format);
    if res.ViewFailed? {
      cmd.Fail(res.status);
      return;
    }
    meta.dst.Bind(res.words, MemBo(buf.mem), RelocWrite);
  }

  /** `cmd_meta_set_src_for_img`. */
  method SetSrcForImg(cmd: Cmd, img: Image, format: Format, aspect: Aspect, meta: MetaOp)
    requires meta.Valid()
    modifies cmd, meta.src, meta.src.surface
    ensures WorldOf(cmd, meta) == Builders.SetSrcForImg(cmd.dev, old(WorldOf(cmd, meta)), img, format, aspect)
  {
    var res := cmd.dev.imgView(SrcImgViewInfo(img, format, aspect));
    if res.ViewFailed? {
      cmd.Fail(res.status);
      return;
    }
    meta.src.Bind(res.words, MemBo(img.mem), RelocNone);
  }

  /** `cmd_meta_adjust_compressed_dst`: the bit-field rewrite of dwords 2, 4
      and 5 of the destination surface, in place. */
  method AdjustCompressedDst(cmd: Cmd, img: Image, meta: MetaOp)
    requires meta.Valid()
    modifies meta.dst, meta.dst.surface
    ensures meta.dst.Value() == Adjust.AdjustCompressedDst(cmd.dev, img, old(meta.dst.Value()))
  {
    ghost var b0 := meta.dst.Value();
    var t := FieldsFor(cmd.dev);
    var s := meta.dst.surface;
    ghost var d4, d5 := s[4], s[5];
    assert d4 == b0.surface[4] && d5 == b0.surface[5];
    var w := Extract(s[2], t.width);
    var h := Extract(s[2], t.height);
    var layer := Extract(s[4], t.minArrayElement);

    w := BlockDim(w, img.blockWidth);
    h := BlockDim(h, img.blockHeight);

    s[2] := And(s[2], Not(Or(Mask(t.width), Mask(t.height))));
    s[2] := Or(s[2], Or(Shift32(w, t.width), Shift32(h, t.height)));
    assert s[2] == AdjustedDw2(b0.surface[2], t, w, h);
    ghost var b2 := b0.(surface := b0.surface[2 := s[2]]);
    assert meta.dst.Value() == b2 by {
      assert s[..] == b0.surface[2 := s[2]];
    }

    if layer == 0 {
      return;
    }

    var tile := cmd.dev.sliceTileOffset(img, 0, layer);
    meta.dst.relocOffset := tile.offset;

    var xOffset := XOffsetBlocks(tile, img);
    var yOffset := YOffsetBlocks(tile, img);

    ghost var dw4 := Clear(d4, t.minArrayElement);
    ghost var dw5 := Or(d5, Or(Shift32(xOffset, t.xOffset), Shift32(yOffset, t.yOffset)));
    assert s[4] == d4 && s[5] == d5;
    s[4] := And(s[4], Not(Mask(t.minArrayElement)));
    assert s[4] == dw4;
    s[5] := Or(s[5], Or(Shift32(xOffset, t.xOffset), Shift32(yOffset, t.yOffset)));
    assert s[5] == dw5;
    assert s[..] == b2.surface[4 := dw4][5 := dw5];
    assert meta.dst.Value() == b2.(surface := b2.surface[4 := dw4][5 := dw5], relocOffset := tile.offset);
  }

  /** `cmd_meta_set_dst_for_img`. */
  method SetDstForImg(cmd: Cmd, img: Image, format: Format, lod: nat, layer: nat, meta: MetaOp)
    requires meta.Valid()
    modifies cmd, meta.dst, meta.dst.surface
    ensures WorldOf(cmd, meta) == Builders.SetDstForImg(cmd.dev, old(WorldOf(cmd, meta)), img, format, lod, layer)
  {
    var res := cmd.dev.colorView(ColorViewInfo(img, format, lod, layer));
    if res.ViewFailed? {
      cmd.Fail(res.status);
      return;
    }
    meta.dst.Bind(res.words, MemBo(img.mem), RelocWrite);
    if cmd.dev.isCompressed(img.format) {
      AdjustCompressedDst(cmd, img, meta);
    }
  }

  /** `cmd_meta_set_src_for_writer`. */
  method SetSrcForWriter(cmd: Cmd, writer: Writer, size: nat, format: Format, meta: MetaOp)
    requires meta.Valid()
    modifies cmd, meta.src, meta.src.surface
    ensures WorldOf(cmd, meta) == Builders.SetSrcForWriter(cmd.dev, old(WorldOf(cmd, meta)), writer, size, format)
  {
    var res := CreateBufView(cmd.dev, None, size, format);
    if res.ViewFailed? {
      cmd.Fail(res.status);
      return;
    }
    meta.src.Bind(res.words, WriterTarget(writer), RelocTargetIsWriter);
  }

  /** `cmd_meta_set_ds_view`. */
  method SetDsView(cmd: Cmd, img: Image, lod: nat, layer: nat, meta: MetaOp)
    requires meta.Valid()
    modifies cmd, meta
    ensures WorldOf(cmd, meta) == Builders.SetDsView(cmd.dev, old(WorldOf(cmd, meta)), img, lod, layer)
  {
    var res := cmd.dev.dsView(DsViewInfo(img, lod, layer));
    if res.DsViewFailed? {
      cmd.Fail(res.status);
      return;
    }
    meta.ds := meta.ds.(view := Some(res.view));
  }

  /** `cmd_meta_set_ds_state`. */
  method SetDsState(aspect: Aspect, stencilRef: U32, meta: MetaOp)
    requires meta.Valid()
    modifies meta
    ensures meta.Value() == Builders.SetDsState(old(meta.Value()), aspect, stencilRef)
  {
    meta.ds := meta.ds.(stencilRef := stencilRef, aspect := aspect);
  }
}

/** The meta-operation record (`struct intel_cmd_meta`) as a value, and the
    command buffer's two observable effects: `cmd_draw_meta` appends a snapshot
    of the record to the draw log, `cmd_fail` appends a `VkResult` to the
    error log.  A `World` is the record together with both logs; every pure
    specification of a builder or an operation maps one `World` to the next. */
module MetaState {
  import opened Vk
  import opened Device
  import opened MetaHelpers
  import Bits

  /** `enum intel_cmd_meta_mode`; `ModeUnset` is the zero value. */
  datatype Mode = ModeUnset | VsPoints | FsRect | DepthStencilRect

  /** `enum intel_cmd_meta_ds_op`; its zero value is the no-op. */
  datatype DsOp = DsNop | DsHizClear | DsHizResolve | DsResolve

  /** `enum intel_cmd_writer_type`: the only writer a meta operation binds. */
  datatype Writer = StateWriter

  /** `reloc_target`: nothing (the zero value), the buffer object of a memory,
      or a command-buffer writer. */
  datatype RelocTarget = NoTarget | MemBo(mem: nat) | WriterTarget(writer: Writer)

  /** `reloc_flags`: none, `INTEL_RELOC_WRITE`, or
      `INTEL_CMD_RELOC_TARGET_IS_WRITER`. */
  datatype RelocFlags = RelocNone | RelocWrite | RelocTargetIsWriter

  /** The eight dwords of `surface[]` in a binding. */
  type Surface = s: seq<Bits.Dword> | |s| == 8 witness seq(8, i => Bits.ZeroWord())

  /** The four dwords of `clear_val[]`. */
  type ClearVals = s: seq<U32> | |s| == 4 witness [0, 0, 0, 0]

  /** The `src` or `dst` half of the record. */
  datatype BindingVal = BindingVal(
    valid: bool,
    surface: Surface,
    surfaceLen: nat,
    relocTarget: RelocTarget,
    relocOffset: nat,
    relocFlags: RelocFlags,
    lod: nat,
    layer: nat,
    x: nat,
    y: nat)

  /** The `ds` part of the record; `view` is `None` for a null pointer. */
  datatype DsVal = DsVal(
    view: Option<DsViewHandle>,
    stencilRef: U32,
    aspect: Aspect,
    op: DsOp,
    optimal: bool)

  datatype MetaVal = MetaVal(
    mode: Mode,
    shader: Shader,
    src: BindingVal,
    dst: BindingVal,
    ds: DsVal,
    clearVal: ClearVals,
    width: nat,
    height: nat,
    samples: nat)

  /** The record and the command buffer's draw and error logs. */
  datatype World = World(meta: MetaVal, draws: seq<MetaVal>, errors: seq<Status>)

  function ZeroBinding(): BindingVal
  {
    BindingVal(false, seq(8, i => Bits.ZeroWord()), 0, NoTarget, 0, RelocNone, 0, 0, 0, 0)
  }

  /** `memset(&meta, 0, sizeof(meta))`. */
  function ZeroMeta(): MetaVal
  {
    MetaVal(ModeUnset, ShaderUnset, ZeroBinding(), ZeroBinding(),
            DsVal(None, 0, Color, DsNop, false), [0, 0, 0, 0], 0, 0, 0)
  }

  /** `cmd_fail(cmd, s)`. */
  function Fail(w: World, s: Status): World
  {
    w.(errors := w.errors + [s])
  }

  /** `cmd_draw_meta(cmd, &meta)`. */
  function Draw(w: World): World
  {
    w.(draws := w.draws + [w.meta])
  }

  /** A binding `b` is `prev` filled from a view: marked valid, the view's
      words copied over the front of the surface and the rest kept, the length
      recorded, the relocation set to `target` at offset 0 with `flags`, and
      the coordinates untouched. */
  predicate BoundTo(b: BindingVal, prev: BindingVal, words: SurfaceWords, target: RelocTarget, flags: RelocFlags)
  {
    && b.valid
    && b.surface[..|words|] == words
    && b.surface[|words|..] == prev.surface[|words|..]
    && b.surfaceLen == |words|
    && b.relocTarget == target && b.relocOffset == 0 && b.relocFlags == flags
    && b.lod == prev.lod && b.layer == prev.layer && b.x == prev.x && b.y == prev.y
  }

  /** The common tail of every binding builder: `valid = true`, the `memcpy`
      of the view's words into `surface`, `surface_len`, and the relocation. */
  function Bound(prev: BindingVal, words: SurfaceWords, target: RelocTarget, flags: RelocFlags): (b: BindingVal)
    ensures BoundTo(b, prev, words, target, flags)
  {
    prev.(valid := true, surface := words + prev.surface[|words|..], surfaceLen := |words|,
          relocTarget := target, relocOffset := 0, relocFlags := flags)
  }

  /** The logs of `w2` continue those of `w1`: nothing recorded is ever
      taken back or changed. */
  predicate Extends(w1: World, w2: World)
  {
    w1.draws <= w2.draws && w1.errors <= w2.errors
  }

  lemma ExtendsTrans(w1: World, w2: World, w3: World)
    requires Extends(w1, w2) && Extends(w2, w3)
    ensures Extends(w1, w3)
  {
  }

  lemma DrawExtends(w: World)
    ensures Extends(w, Draw(w)) && |Draw(w).draws| == |w.draws| + 1 && Draw(w).draws[|w.draws|] == w.meta
  {
  }

  lemma FailExtends(w: World, s: Status)
    ensures Extends(w, Fail(w, s)) && Fail(w, s).draws == w.draws
  {
  }
}

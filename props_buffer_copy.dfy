/** What `vkCmdCopyBuffer` promises, region by region and over the whole
    list: the aligned path works in dwords, the unaligned path in bytes or
    (on GEN6) not at all, and the two buffer bindings are rebuilt exactly when
    the working format changes. */
module BufferCopyProps {
  import opened Vk
  import opened Device
  import opened MetaHelpers
  import opened MetaState
  import opened Builders
  import opened MetaOps

  /** GEN6 has no byte-granular copy shader and refuses an unaligned region. */
  predicate CopyRefused(dev: Device, r: BufferCopy)
  {
    !DwordAligned(r.srcOffset, r.destOffset, r.copySize) && dev.gen == Gen6
  }

  /** The number of regions GEN6 refuses. */
  function RefusedCount(dev: Device, regions: seq<BufferCopy>): (n: nat)
    ensures n <= |regions|
    decreases |regions|
  {
    if regions == [] then 0
    else (if CopyRefused(dev, regions[0]) then 1 else 0) + RefusedCount(dev, regions[1..])
  }

  /** The failures a view constructor's answer adds to the error log. */
  function ViewErrors(v: ViewResult): seq<Status>
  {
    if v.ViewFailed? then [v.status] else []
  }

  /** An aligned region is one draw of the dword copy shader, with both byte
      offsets and the size divided by four, in the 16-byte working format. */
  lemma AlignedRegion(dev: Device, w: World, format: Format, src: Buffer, dst: Buffer, r: BufferCopy)
    requires r.srcOffset % 4 == 0 && r.destOffset % 4 == 0 && r.copySize % 4 == 0
    ensures var next := CopyBufferRegion(dev, w, format, src, dst, r);
            && next.1 == R32G32B32A32Uint
            && Extends(w, next.0) && |next.0.draws| == |w.draws| + 1
            && var d := next.0.draws[|w.draws|];
               && d.shader == VsCopyMem
               && d.src.x == r.srcOffset / 4 && d.dst.x == r.destOffset / 4 && d.width == r.copySize / 4
               && d.mode == w.meta.mode && d.height == w.meta.height && d.samples == w.meta.samples
  {
    DwordAlignedIff(r.srcOffset, r.destOffset, r.copySize);
    var m := CopyBufferCoords(w.meta, r);
    var choice := CopyBufferSetup(dev, m, r).value;
    BindEffect(dev, w.(meta := choice.0), format, choice.1, src, dst);
    DrawExtends(CopyBufferBind(dev, w.(meta := choice.0), format, choice.1, src, dst));
  }

  /** An unaligned region off GEN6 is one draw of the byte copy shader, with
      the offsets and size in bytes, in the 4-byte working format. */
  lemma UnalignedRegion(dev: Device, w: World, format: Format, src: Buffer, dst: Buffer, r: BufferCopy)
    requires !(r.srcOffset % 4 == 0 && r.destOffset % 4 == 0 && r.copySize % 4 == 0)
    requires dev.gen != Gen6
    ensures var next := CopyBufferRegion(dev, w, format, src, dst, r);
            && next.1 == R8G8B8A8Uint
            && Extends(w, next.0) && |next.0.draws| == |w.draws| + 1
            && var d := next.0.draws[|w.draws|];
               && d.shader == VsCopyMemUnaligned
               && d.src.x == r.srcOffset && d.dst.x == r.destOffset && d.width == r.copySize
               && d.mode == w.meta.mode && d.height == w.meta.height && d.samples == w.meta.samples
  {
    DwordAlignedIff(r.srcOffset, r.destOffset, r.copySize);
    var m := CopyBufferCoords(w.meta, r);
    var choice := CopyBufferSetup(dev, m, r).value;
    BindEffect(dev, w.(meta := choice.0), format, choice.1, src, dst);
    DrawExtends(CopyBufferBind(dev, w.(meta := choice.0), format, choice.1, src, dst));
  }

  /** GEN6 refuses an unaligned region: one failure, no draw, and the cached
      working format is kept for the next region. */
  lemma RefusedRegion(dev: Device, w: World, format: Format, src: Buffer, dst: Buffer, r: BufferCopy)
    requires !(r.srcOffset % 4 == 0 && r.destOffset % 4 == 0 && r.copySize % 4 == 0)
    requires dev.gen == Gen6
    ensures var next := CopyBufferRegion(dev, w, format, src, dst, r);
            && next.0.draws == w.draws && next.0.errors == w.errors + [ErrorUnknown]
            && next.1 == format
  {
    DwordAlignedIff(r.srcOffset, r.destOffset, r.copySize);
  }

  /** What binding for a working format does: nothing when the format is the
      cached one; otherwise both buffers are bound in that format (source
      read-only, destination written) and each failing view adds its failure. */
  lemma BindEffect(dev: Device, w: World, format: Format, fmt: Format, src: Buffer, dst: Buffer)
    ensures var r := CopyBufferBind(dev, w, format, fmt, src, dst);
            var vs := CreateBufView(dev, Some(src), src.size, fmt);
            var vd := CreateBufView(dev, Some(dst), dst.size, fmt);
            && r.draws == w.draws
            && r.meta == w.meta.(src := r.meta.src, dst := r.meta.dst)
            && r.meta.src.x == w.meta.src.x && r.meta.dst.x == w.meta.dst.x
            && (format == fmt ==> r == w)
            && (format != fmt ==>
                  && r.errors == w.errors + ViewErrors(vs) + ViewErrors(vd)
                  && (vs.ViewOk? ==> BoundTo(r.meta.src, w.meta.src, vs.words, MemBo(src.mem), RelocNone))
                  && (vs.ViewFailed? ==> r.meta.src == w.meta.src)
                  && (vd.ViewOk? ==> BoundTo(r.meta.dst, w.meta.dst, vd.words, MemBo(dst.mem), RelocWrite))
                  && (vd.ViewFailed? ==> r.meta.dst == w.meta.dst))
  {
  }

  /** A region the device accepts rebuilds the bindings exactly when its
      working format differs from the cached one: with the same format the
      draw reuses the previous bindings (only the offsets change) and no
      failure is added; with a new one both buffers are bound afresh. */
  lemma RegionRebindsOnFormatChange(dev: Device, w: World, format: Format, src: Buffer, dst: Buffer, r: BufferCopy)
    requires !CopyRefused(dev, r)
    ensures var next := CopyBufferRegion(dev, w, format, src, dst, r);
            var fmt := next.1;
            var vs := CreateBufView(dev, Some(src), src.size, fmt);
            var vd := CreateBufView(dev, Some(dst), dst.size, fmt);
            && |next.0.draws| == |w.draws| + 1
            && var d := next.0.draws[|w.draws|];
               && (format == fmt ==>
                     && next.0.errors == w.errors
                     && d.src == w.meta.src.(x := d.src.x) && d.dst == w.meta.dst.(x := d.dst.x))
               && (format != fmt ==>
                     && next.0.errors == w.errors + ViewErrors(vs) + ViewErrors(vd)
                     && (vs.ViewOk? ==> BoundTo(d.src, w.meta.src.(x := d.src.x), vs.words, MemBo(src.mem), RelocNone))
                     && (vd.ViewOk? ==> BoundTo(d.dst, w.meta.dst.(x := d.dst.x), vd.words, MemBo(dst.mem), RelocWrite)))
  {
    var m := CopyBufferCoords(w.meta, r);
    var choice := CopyBufferSetup(dev, m, r).value;
    BindEffect(dev, w.(meta := choice.0), format, choice.1, src, dst);
  }

  /** The logs only grow, region after region. */
  lemma {:induction false} RegionsExtend(dev: Device, w: World, format: Format, src: Buffer, dst: Buffer, regions: seq<BufferCopy>)
    ensures Extends(w, CopyBufferRegions(dev, w, format, src, dst, regions))
    decreases |regions|
  {
    if regions != [] {
      var next := CopyBufferRegion(dev, w, format, src, dst, regions[0]);
      RegionExtends(dev, w, format, src, dst, regions[0]);
      RegionsExtend(dev, next.0, next.1, src, dst, regions[1..]);
      ExtendsTrans(w, next.0, CopyBufferRegions(dev, next.0, next.1, src, dst, regions[1..]));
    }
  }

  /** One region adds one draw, or none when it is refused. */
  lemma RegionExtends(dev: Device, w: World, format: Format, src: Buffer, dst: Buffer, r: BufferCopy)
    ensures var next := CopyBufferRegion(dev, w, format, src, dst, r);
            && Extends(w, next.0)
            && |next.0.draws| == |w.draws| + (if CopyRefused(dev, r) then 0 else 1)
  {
    DwordAlignedIff(r.srcOffset, r.destOffset, r.copySize);
    if CopyRefused(dev, r) {
      RefusedRegion(dev, w, format, src, dst, r);
    } else if r.srcOffset % 4 == 0 && r.destOffset % 4 == 0 && r.copySize % 4 == 0 {
      AlignedRegion(dev, w, format, src, dst, r);
    } else {
      UnalignedRegion(dev, w, format, src, dst, r);
    }
  }

  /** Every region is visited whatever happened to the ones before it: one
      draw per region, less the regions GEN6 refuses. */
  lemma {:induction false} RegionsDrawCount(dev: Device, w: World, format: Format, src: Buffer, dst: Buffer, regions: seq<BufferCopy>)
    ensures |CopyBufferRegions(dev, w, format, src, dst, regions).draws| == |w.draws| + |regions| - RefusedCount(dev, regions)
    decreases |regions|
  {
    if regions != [] {
      var next := CopyBufferRegion(dev, w, format, src, dst, regions[0]);
      RegionExtends(dev, w, format, src, dst, regions[0]);
      RegionsDrawCount(dev, next.0, next.1, src, dst, regions[1..]);
    }
  }

  /** `vkCmdCopyBuffer` draws once per region it accepts, and keeps every
      earlier draw and failure. */
  lemma CopyBufferDrawCount(dev: Device, w: World, src: Buffer, dst: Buffer, regions: seq<BufferCopy>)
    ensures var r := CopyBuffer(dev, w, src, dst, regions);
            && Extends(w, r)
            && |r.draws| == |w.draws| + |regions| - RefusedCount(dev, regions)
  {
    RegionsDrawCount(dev, CopyBufferInit(w), Undefined, src, dst, regions);
    RegionsExtend(dev, CopyBufferInit(w), Undefined, src, dst, regions);
  }

  /** The bindings of `m` are still the zeroed ones apart from their offsets:
      no region has bound a buffer yet. */
  predicate Unbound(m: MetaVal)
  {
    m.src == ZeroBinding().(x := m.src.x) && m.dst == ZeroBinding().(x := m.dst.x)
  }

  /** From a record with nothing bound and no cached format, the regions GEN6
      refuses leave the bindings alone, so the first draw, the one of the
      first region `k` the device accepts, binds both buffers afresh over the
      zeroed bindings in that region's working format. */
  lemma {:induction false} FirstAcceptedBinds(dev: Device, w: World, src: Buffer, dst: Buffer, regions: seq<BufferCopy>, k: nat)
    requires Unbound(w.meta)
    requires k < |regions| && !CopyRefused(dev, regions[k])
    requires forall j :: 0 <= j < k ==> CopyRefused(dev, regions[j])
    ensures var r := CopyBufferRegions(dev, w, Undefined, src, dst, regions);
            var fmt := CopyBufferRegion(dev, w, Undefined, src, dst, regions[k]).1;
            var vs := CreateBufView(dev, Some(src), src.size, fmt);
            var vd := CreateBufView(dev, Some(dst), dst.size, fmt);
            && |r.draws| > |w.draws|
            && var d := r.draws[|w.draws|];
               && (vs.ViewOk? ==> BoundTo(d.src, ZeroBinding().(x := d.src.x), vs.words, MemBo(src.mem), RelocNone))
               && (vd.ViewOk? ==> BoundTo(d.dst, ZeroBinding().(x := d.dst.x), vd.words, MemBo(dst.mem), RelocWrite))
    decreases k
  {
    var r0 := regions[0];
    var next := CopyBufferRegion(dev, w, Undefined, src, dst, r0);
    DwordAlignedIff(r0.srcOffset, r0.destOffset, r0.copySize);
    if k == 0 {
      if r0.srcOffset % 4 == 0 && r0.destOffset % 4 == 0 && r0.copySize % 4 == 0 {
        AlignedRegion(dev, w, Undefined, src, dst, r0);
      } else {
        UnalignedRegion(dev, w, Undefined, src, dst, r0);
      }
      RegionRebindsOnFormatChange(dev, w, Undefined, src, dst, r0);
      RegionsExtend(dev, next.0, next.1, src, dst, regions[1..]);
      var r := CopyBufferRegions(dev, next.0, next.1, src, dst, regions[1..]);
      assert r.draws[|w.draws|] == r.draws[..|next.0.draws|][|w.draws|];
    } else {
      assert CopyRefused(dev, r0);
      RefusedRegion(dev, w, Undefined, src, dst, r0);
      assert regions[1..][k - 1] == regions[k];
      FirstAcceptedBinds(dev, next.0, src, dst, regions[1..], k - 1);
      var rk := regions[k];
      DwordAlignedIff(rk.srcOffset, rk.destOffset, rk.copySize);
      assert CopyBufferRegion(dev, next.0, Undefined, src, dst, rk).1 == CopyBufferRegion(dev, w, Undefined, src, dst, rk).1;
    }
  }

  /** The cached format starts undefined, so the first region the device
      accepts, after any number the device refuses, always binds both
      buffers afresh over the zeroed record. */
  lemma FirstRegionBinds(dev: Device, w: World, src: Buffer, dst: Buffer, regions: seq<BufferCopy>, k: nat)
    requires k < |regions| && !CopyRefused(dev, regions[k])
    requires forall j :: 0 <= j < k ==> CopyRefused(dev, regions[j])
    ensures var r := CopyBuffer(dev, w, src, dst, regions);
            var fmt := CopyBufferRegion(dev, CopyBufferInit(w), Undefined, src, dst, regions[k]).1;
            var vs := CreateBufView(dev, Some(src), src.size, fmt);
            var vd := CreateBufView(dev, Some(dst), dst.size, fmt);
            && |r.draws| > |w.draws|
            && var d := r.draws[|w.draws|];
               && (vs.ViewOk? ==> BoundTo(d.src, ZeroBinding().(x := d.src.x), vs.words, MemBo(src.mem), RelocNone))
               && (vd.ViewOk? ==> BoundTo(d.dst, ZeroBinding().(x := d.dst.x), vd.words, MemBo(dst.mem), RelocWrite))
  {
    FirstAcceptedBinds(dev, CopyBufferInit(w), src, dst, regions, k);
  }
}

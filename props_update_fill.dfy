/** What `vkCmdUpdateBuffer` and `vkCmdFillBuffer` promise: an offset or a
    size that is not a multiple of four is one failure and no draw;
    otherwise the whole range is written by one draw of points, one per
    dword, from the data placed in the state writer or from the fill word.
    A view that cannot be made is recorded as a failure and the draw is
    made all the same. */
module UpdateFillProps {
  import opened Vk
  import opened Device
  import opened MetaHelpers
  import opened MetaState
  import opened Builders
  import opened MetaOps
  import opened BufferCopyProps

  /** The destination of both: the whole buffer, written, in the 16-byte
      working format, with its first dword at `destOffset / 4`. */
  predicate BufferDst(dev: Device, d: BindingVal, dst: Buffer, destOffset: DeviceSize)
  {
    var v := CreateBufView(dev, Some(dst), dst.size, R32G32B32A32Uint);
    && d.x == destOffset / 4
    && (v.ViewOk? ==> BoundTo(d, ZeroMeta().dst.(x := destOffset / 4), v.words, MemBo(dst.mem), RelocWrite))
  }

  /** `vkCmdUpdateBuffer`: an unaligned offset or size fails without a draw;
      otherwise one draw of the copy shader reads `dataSize / 4` dwords from
      dword `stateOffset / 4` of the state writer, which is bound for
      `stateOffset + dataSize` bytes, and writes them from dword
      `destOffset / 4` of the buffer. */
  lemma UpdateBufferOutcome(dev: Device, w: World, dst: Buffer, destOffset: DeviceSize, dataSize: DeviceSize, stateOffset: nat)
    ensures var r := UpdateBuffer(dev, w, dst, destOffset, dataSize, stateOffset);
            && Extends(w, r)
            && (!(destOffset % 4 == 0 && dataSize % 4 == 0) ==> r.draws == w.draws && r.errors == w.errors + [ErrorUnknown])
            && (destOffset % 4 == 0 && dataSize % 4 == 0 ==>
                  var vs := CreateBufView(dev, None, stateOffset + dataSize, R32G32B32A32Uint);
                  var vd := CreateBufView(dev, Some(dst), dst.size, R32G32B32A32Uint);
                  && |r.draws| == |w.draws| + 1
                  && r.errors == w.errors + ViewErrors(vs) + ViewErrors(vd)
                  && r.draws[|w.draws|].mode == VsPoints && r.draws[|w.draws|].shader == VsCopyMem
                  && r.draws[|w.draws|].src.x == stateOffset / 4
                  && (vs.ViewOk? ==> BoundTo(r.draws[|w.draws|].src, ZeroMeta().src.(x := stateOffset / 4), vs.words,
                                             WriterTarget(StateWriter), RelocTargetIsWriter))
                  && BufferDst(dev, r.draws[|w.draws|].dst, dst, destOffset)
                  && r.draws[|w.draws|].width == dataSize / 4 && r.draws[|w.draws|].height == 1
                  && r.draws[|w.draws|].samples == 1)
  {
    OffsetSizeAlignedIff(destOffset, dataSize);
    if OffsetSizeAligned(destOffset, dataSize) {
      var w0 := w.(meta := UpdateMeta(destOffset, dataSize, stateOffset));
      var w1 := SetSrcForWriter(dev, w0, StateWriter, stateOffset + dataSize, R32G32B32A32Uint);
      var w2 := SetDstForBuf(dev, w1, dst, R32G32B32A32Uint);
      assert w2.meta.src == w1.meta.src;
      DrawExtends(w2);
    }
  }

  /** `vkCmdFillBuffer`: an unaligned offset or size fails without a draw;
      otherwise one draw of the fill shader writes the word `data` into
      `fillSize / 4` dwords from dword `destOffset / 4` of the buffer. */
  lemma FillBufferOutcome(dev: Device, w: World, dst: Buffer, destOffset: DeviceSize, fillSize: DeviceSize, data: U32)
    ensures var r := FillBuffer(dev, w, dst, destOffset, fillSize, data);
            && Extends(w, r)
            && (!(destOffset % 4 == 0 && fillSize % 4 == 0) ==> r.draws == w.draws && r.errors == w.errors + [ErrorUnknown])
            && (destOffset % 4 == 0 && fillSize % 4 == 0 ==>
                  var vd := CreateBufView(dev, Some(dst), dst.size, R32G32B32A32Uint);
                  && |r.draws| == |w.draws| + 1
                  && r.errors == w.errors + ViewErrors(vd)
                  && r.draws[|w.draws|].mode == VsPoints && r.draws[|w.draws|].shader == VsFillMem
                  && r.draws[|w.draws|].clearVal[0] == data
                  && !r.draws[|w.draws|].src.valid
                  && BufferDst(dev, r.draws[|w.draws|].dst, dst, destOffset)
                  && r.draws[|w.draws|].width == fillSize / 4 && r.draws[|w.draws|].height == 1
                  && r.draws[|w.draws|].samples == 1)
  {
    OffsetSizeAlignedIff(destOffset, fillSize);
    if OffsetSizeAligned(destOffset, fillSize) {
      var w0 := w.(meta := FillMeta(destOffset, fillSize, data));
      DrawExtends(SetDstForBuf(dev, w0, dst, R32G32B32A32Uint));
    }
  }
}

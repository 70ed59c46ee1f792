/** `cmd_meta_adjust_compressed_dst`: after a colour view of a block-compressed
    image has been copied into the destination binding, the width and height
    in dword 2 are rewritten in blocks, and for a non-zero array layer the
    layer is moved out of the minimum-array-element field of dword 4 into the
    binding's relocation offset and the X/Y offset fields of dword 5. */
module Adjust {
  import opened Vk
  import opened Device
  import opened Bits
  import opened MetaState

  /** A stored size field holds the real size minus one; `BlockDim` turns a
      stored pixel size into a stored block count:
      `(stored + block) / block - 1`. */
  function BlockDim(stored: nat, block: Pos): nat
  {
    (stored + block) / block - 1
  }

  /** Euclidean division of a natural number by a positive one. */
  lemma DivMod(n: nat, b: Pos)
    ensures n == (n / b) * b + n % b && n % b < b
  {
  }

  lemma MulSucc(d: int, b: int)
    ensures (d + 1) * b == d * b + b
  {
  }

  /** The block count is the least number of blocks covering the real size
      `stored + 1`, i.e. ceil((stored + 1) / block), and it never exceeds the
      stored pixel size. */
  lemma BlockDimCovers(stored: nat, block: Pos)
    ensures (BlockDim(stored, block) + 1) * block >= stored + 1
    ensures BlockDim(stored, block) * block < stored + 1
    ensures BlockDim(stored, block) <= stored
  {
    var n := stored + block;
    DivMod(n, block);
    var d := BlockDim(stored, block);
    assert d + 1 == n / block;
    MulSucc(d, block);
    if d > stored {
      MulLe(block, stored + 1, d);
      MulSucc(stored, block);
      assert false;
    }
  }

  /** Dword 2 with the width and height fields cleared and the block counts
      placed into them. */
  function AdjustedDw2(dw2: Dword, t: SurfaceFields, w: nat, h: nat): Dword
  {
    Or(And(dw2, Not(Or(Mask(t.width), Mask(t.height)))), Or(Shift32(w, t.width), Shift32(h, t.height)))
  }

  /** The tile-local X and Y of the layer, in blocks, without their low two
      (X) and one (Y) bits: `(x / block_width) >> 2`, `(y / block_height) >> 1`. */
  function XOffsetBlocks(tile: TileOffset, img: Image): nat
  {
    (tile.x / img.blockWidth) / 4
  }

  function YOffsetBlocks(tile: TileOffset, img: Image): nat
  {
    (tile.y / img.blockHeight) / 2
  }

  /** The adjustment of the destination binding `b` for image `img`, with the
      field positions of the device's generation. */
  function AdjustCompressedDst(dev: Device, img: Image, b: BindingVal): BindingVal
  {
    var t := FieldsFor(dev);
    var w := BlockDim(Extract(b.surface[2], t.width), img.blockWidth);
    var h := BlockDim(Extract(b.surface[2], t.height), img.blockHeight);
    var layer := Extract(b.surface[4], t.minArrayElement);
    var b2 := b.(surface := b.surface[2 := AdjustedDw2(b.surface[2], t, w, h)]);
    if layer == 0 then b2
    else
      var tile := dev.sliceTileOffset(img, 0, layer);
      var dw4 := Clear(b.surface[4], t.minArrayElement);
      var dw5 := Or(b.surface[5], Or(Shift32(XOffsetBlocks(tile, img), t.xOffset),
                                     Shift32(YOffsetBlocks(tile, img), t.yOffset)));
      b2.(surface := b2.surface[4 := dw4][5 := dw5], relocOffset := tile.offset)
  }

  /** The layer the adjustment reads out of dword 4. */
  function LayerOf(dev: Device, b: BindingVal): nat
  {
    Extract(b.surface[4], FieldsFor(dev).minArrayElement)
  }

  // ---------------------------------------------------------------------
  // Bit-level facts

  /** The field of `f` in dword 2 after the rewrite holds exactly the bits
      written for `f`. */
  lemma AdjustedDw2Field(dw2: Dword, t: SurfaceFields, w: nat, h: nat)
    requires FieldsWellFormed(t)
    ensures And(AdjustedDw2(dw2, t, w, h), Mask(t.width)) == Shift32(w, t.width)
    ensures And(AdjustedDw2(dw2, t, w, h), Mask(t.height)) == Shift32(h, t.height)
  {
  }

  /** Or-ing bits into a dword whose field `f` is clear leaves in `f` exactly
      the bits written for `f`, provided the other written bits miss `f`. */
  lemma OrIntoClearField(dw: Dword, v: nat, f: Field, u: nat, g: Field)
    requires WellFormed(f) && WellFormed(g) && Disjoint(f, g)
    requires forall i :: 0 <= i < 32 && Mask(f)[i] ==> !dw[i]
    ensures And(Or(dw, Or(Shift32(v, f), Shift32(u, g))), Mask(f)) == Shift32(v, f)
  {
  }

  // ---------------------------------------------------------------------
  // What the adjustment does

  /** The new stored width and height are the block counts of the old stored
      pixel sizes. */
  lemma AdjustSize(dev: Device, img: Image, b: BindingVal)
    requires FieldsWellFormed(FieldsFor(dev))
    ensures var t := FieldsFor(dev);
            var r := AdjustCompressedDst(dev, img, b);
            && Extract(r.surface[2], t.width) == BlockDim(Extract(b.surface[2], t.width), img.blockWidth)
            && Extract(r.surface[2], t.height) == BlockDim(Extract(b.surface[2], t.height), img.blockHeight)
  {
    var t := FieldsFor(dev);
    var ow, oh := Extract(b.surface[2], t.width), Extract(b.surface[2], t.height);
    var w, h := BlockDim(ow, img.blockWidth), BlockDim(oh, img.blockHeight);
    var r := AdjustCompressedDst(dev, img, b);
    assert r.surface[2] == AdjustedDw2(b.surface[2], t, w, h);
    AdjustedDw2Field(b.surface[2], t, w, h);
    ExtractBound(b.surface[2], t.width);
    ExtractBound(b.surface[2], t.height);
    BlockDimCovers(ow, img.blockWidth);
    BlockDimCovers(oh, img.blockHeight);
    ExtractShift32Exact(r.surface[2], w, t.width);
    ExtractShift32Exact(r.surface[2], h, t.height);
  }

  /** Bits of dword 2 outside the width and height fields are kept, and so
      are the dwords other than 2, 4 and 5, the valid flag, the length, the
      relocation target and flags, and the coordinates. */
  lemma AdjustKeeps(dev: Device, img: Image, b: BindingVal)
    ensures var t := FieldsFor(dev);
            var r := AdjustCompressedDst(dev, img, b);
            && (forall i :: 0 <= i < 32 && !Mask(t.width)[i] && !Mask(t.height)[i] ==> r.surface[2][i] == b.surface[2][i])
            && (forall k :: 0 <= k < 8 && k != 2 && k != 4 && k != 5 ==> r.surface[k] == b.surface[k])
            && r == b.(surface := r.surface, relocOffset := r.relocOffset)
  {
  }

  /** At layer 0 only dword 2 changes. */
  lemma AdjustLayerZero(dev: Device, img: Image, b: BindingVal)
    requires LayerOf(dev, b) == 0
    ensures var r := AdjustCompressedDst(dev, img, b);
            r.surface[4] == b.surface[4] && r.surface[5] == b.surface[5] && r.relocOffset == b.relocOffset
  {
  }

  /** At a non-zero layer the minimum array element is cleared (other bits of
      dword 4 kept), the relocation offset becomes the layer's tile offset,
      every bit already set in dword 5 stays set, bits of dword 5 outside the
      X/Y fields are kept, and when those fields were clear they receive the
      tile-local X and Y in blocks. */
  lemma AdjustLayerNonZero(dev: Device, img: Image, b: BindingVal)
    requires FieldsWellFormed(FieldsFor(dev))
    requires LayerOf(dev, b) != 0
    ensures var t := FieldsFor(dev);
            var r := AdjustCompressedDst(dev, img, b);
            var tile := dev.sliceTileOffset(img, 0, LayerOf(dev, b));
            && Extract(r.surface[4], t.minArrayElement) == 0
            && (forall i :: 0 <= i < 32 && !Mask(t.minArrayElement)[i] ==> r.surface[4][i] == b.surface[4][i])
            && r.relocOffset == tile.offset
            && (forall i :: 0 <= i < 32 && b.surface[5][i] ==> r.surface[5][i])
            && (forall i :: 0 <= i < 32 && !Mask(t.xOffset)[i] && !Mask(t.yOffset)[i] ==> r.surface[5][i] == b.surface[5][i])
            && ((forall i :: 0 <= i < 32 && (Mask(t.xOffset)[i] || Mask(t.yOffset)[i]) ==> !b.surface[5][i]) ==>
                  && Extract(r.surface[5], t.xOffset) == XOffsetBlocks(tile, img) % Pow2(t.xOffset.width)
                  && Extract(r.surface[5], t.yOffset) == YOffsetBlocks(tile, img) % Pow2(t.yOffset.width))
  {
    var t := FieldsFor(dev);
    var r := AdjustCompressedDst(dev, img, b);
    var tile := dev.sliceTileOffset(img, 0, LayerOf(dev, b));
    var xo, yo := XOffsetBlocks(tile, img), YOffsetBlocks(tile, img);
    assert r.surface[4] == Clear(b.surface[4], t.minArrayElement);
    ExtractCleared(b.surface[4], t.minArrayElement);
    assert r.surface[5] == Or(b.surface[5], Or(Shift32(xo, t.xOffset), Shift32(yo, t.yOffset)));
    if forall i :: 0 <= i < 32 && (Mask(t.xOffset)[i] || Mask(t.yOffset)[i]) ==> !b.surface[5][i] {
      OrIntoClearField(b.surface[5], xo, t.xOffset, yo, t.yOffset);
      ExtractShift32(r.surface[5], xo, t.xOffset);
      assert Or(Shift32(xo, t.xOffset), Shift32(yo, t.yOffset)) == Or(Shift32(yo, t.yOffset), Shift32(xo, t.xOffset));
      OrIntoClearField(b.surface[5], yo, t.yOffset, xo, t.xOffset);
      ExtractShift32(r.surface[5], yo, t.yOffset);
    }
  }
}

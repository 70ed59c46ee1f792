/** Surface-descriptor dwords and the two bit-field accessors the surface
    encoders use: GEN_EXTRACT reads a field out of a dword, GEN_SHIFT32 places a
    value into a field.  A dword is kept as its 32 bits, least significant bit
    first, so that `&`, `|`, `~` and the shifts are exact and field values stay
    natural numbers. */
module Bits {

  /** A 32-bit dword, bit 0 first. */
  type Dword = b: seq<bool> | |b| == 32 witness seq(32, i => false)

  function Pow2(n: nat): (r: nat)
    ensures r > 0
  {
    if n == 0 then 1 else 2 * Pow2(n - 1)
  }

  function ZeroWord(): Dword
  {
    seq(32, i => false)
  }

  function And(a: Dword, b: Dword): Dword
  {
    seq(32, i requires 0 <= i < 32 => a[i] && b[i])
  }

  function Or(a: Dword, b: Dword): Dword
  {
    seq(32, i requires 0 <= i < 32 => a[i] || b[i])
  }

  function Not(a: Dword): Dword
  {
    seq(32, i requires 0 <= i < 32 => !a[i])
  }

  /** `a << n` on a 32-bit unsigned value. */
  function ShiftLeft(a: Dword, n: nat): Dword
  {
    seq(32, i requires 0 <= i < 32 => n <= i && a[i - n])
  }

  /** `a >> n` on a 32-bit unsigned value. */
  function ShiftRight(a: Dword, n: nat): Dword
  {
    seq(32, i requires 0 <= i < 32 => i + n < 32 && a[i + n])
  }

  /** The unsigned value of a bit string, least significant bit first. */
  function ToNat(bits: seq<bool>): (r: nat)
    ensures r < Pow2(|bits|)
  {
    if bits == [] then 0 else (if bits[0] then 1 else 0) + 2 * ToNat(bits[1..])
  }

  /** The low `n` bits of `v`. */
  function FromNat(v: nat, n: nat): (r: seq<bool>)
    ensures |r| == n
  {
    if n == 0 then [] else [v % 2 == 1] + FromNat(v / 2, n - 1)
  }

  /** `(uint32_t) v`: the low 32 bits of `v`. */
  function Word(v: nat): Dword
  {
    FromNat(v, 32)
  }

  /** A contiguous bit field of a dword: `width` bits starting at bit `shift`.
      A field's `__MASK` constant is `Mask(f)` and its `__SHIFT` is `f.shift`. */
  datatype Field = Field(shift: nat, width: nat)

  predicate WellFormed(f: Field)
  {
    0 < f.width && f.shift + f.width <= 32
  }

  predicate Disjoint(f: Field, g: Field)
  {
    f.shift + f.width <= g.shift || g.shift + g.width <= f.shift
  }

  function Mask(f: Field): Dword
  {
    seq(32, i => f.shift <= i < f.shift + f.width)
  }

  /** GEN_EXTRACT(word, f): `(word & f__MASK) >> f__SHIFT`. */
  function Extract(word: Dword, f: Field): nat
  {
    ToNat(ShiftRight(And(word, Mask(f)), f.shift))
  }

  /** GEN_SHIFT32(v, f): `((uint32_t) v << f__SHIFT) & f__MASK`. */
  function Shift32(v: nat, f: Field): Dword
  {
    And(ShiftLeft(Word(v), f.shift), Mask(f))
  }

  /** `word & ~f__MASK`: the dword with the field cleared. */
  function Clear(word: Dword, f: Field): Dword
  {
    And(word, Not(Mask(f)))
  }

  // ---------------------------------------------------------------------
  // Arithmetic on bit strings

  /** Division with remainder has one answer. */
  lemma DivModUnique(v: nat, d: nat, k: nat, r: nat)
    requires d > 0 && r < d && v == d * k + r
    ensures v / d == k && v % d == r
  {
    var q, m := v / d, v % d;
    var x: int := q - k;
    assert d * x == d * q - d * k;
    assert d * x == r - m;
  }

  /** Multiplying by a natural number keeps order. */
  lemma MulLe(a: nat, b: nat, c: nat)
    requires b <= c
    ensures a * b <= a * c
  {
    assert a * c - a * b == a * (c - b);
  }

  lemma ModTwice(v: nat, p: nat)
    requires p > 0
    ensures v % (2 * p) == v % 2 + 2 * ((v / 2) % p)
  {
    var q, b := v / 2, v % 2;
    var k, rq := q / p, q % p;
    assert v == (2 * p) * k + (2 * rq + b);
    DivModUnique(v, 2 * p, k, 2 * rq + b);
  }

  /** The low `n` bits of `v` encode `v mod 2^n`. */
  lemma {:induction false} ToNatFromNat(v: nat, n: nat)
    ensures ToNat(FromNat(v, n)) == v % Pow2(n)
  {
    if n > 0 {
      var r := FromNat(v, n);
      assert r[1..] == FromNat(v / 2, n - 1);
      ToNatFromNat(v / 2, n - 1);
      ModTwice(v, Pow2(n - 1));
    }
  }

  /** Taking fewer low bits of `v` is a prefix of taking more. */
  lemma {:induction false} FromNatPrefix(v: nat, n: nat, k: nat)
    requires k <= n
    ensures FromNat(v, n)[..k] == FromNat(v, k)
  {
    if k > 0 {
      FromNatPrefix(v / 2, n - 1, k - 1);
      assert FromNat(v, n)[..k] == [v % 2 == 1] + FromNat(v / 2, n - 1)[..k - 1];
    }
  }

  /** Cleared high bits do not change the value. */
  lemma {:induction false} ToNatHighZeros(s: seq<bool>, z: seq<bool>)
    requires forall i :: 0 <= i < |z| ==> !z[i]
    ensures ToNat(s + z) == ToNat(s)
  {
    if s == [] {
      ToNatAllZero(z);
      assert s + z == z;
    } else {
      assert (s + z)[1..] == s[1..] + z;
      ToNatHighZeros(s[1..], z);
    }
  }

  lemma {:induction false} ToNatAllZero(z: seq<bool>)
    requires forall i :: 0 <= i < |z| ==> !z[i]
    ensures ToNat(z) == 0
  {
    if z != [] {
      ToNatAllZero(z[1..]);
    }
  }

  // ---------------------------------------------------------------------
  // Field round trips

  /** The bits of a word seen through a field, shifted down to bit 0, are the
      field's low `width` bits followed by zeros. */
  lemma FieldBits(word: Dword, f: Field)
    requires WellFormed(f)
    ensures ShiftRight(And(word, Mask(f)), f.shift)
         == ShiftRight(And(word, Mask(f)), f.shift)[..f.width] + seq(32 - f.width, i => false)
  {
  }

  /** A field holds less than `2^width`. */
  lemma ExtractBound(word: Dword, f: Field)
    requires WellFormed(f)
    ensures Extract(word, f) < Pow2(f.width)
  {
    var low := ShiftRight(And(word, Mask(f)), f.shift);
    FieldBits(word, f);
    ToNatHighZeros(low[..f.width], seq(32 - f.width, i => false));
  }

  /** Reading a field whose bits were written by GEN_SHIFT32 gives the written
      value, truncated to the field's width. */
  lemma ExtractShift32(word: Dword, v: nat, f: Field)
    requires WellFormed(f)
    requires And(word, Mask(f)) == Shift32(v, f)
    ensures Extract(word, f) == v % Pow2(f.width)
  {
    var low := ShiftRight(And(word, Mask(f)), f.shift);
    FieldBits(word, f);
    FromNatPrefix(v, 32, f.width);
    assert low[..f.width] == FromNat(v, f.width);
    ToNatHighZeros(low[..f.width], seq(32 - f.width, i => false));
    ToNatFromNat(v, f.width);
  }

  /** A value below `2^width` survives the trip through the field unchanged. */
  lemma ExtractShift32Exact(word: Dword, v: nat, f: Field)
    requires WellFormed(f)
    requires And(word, Mask(f)) == Shift32(v, f)
    requires v < Pow2(f.width)
    ensures Extract(word, f) == v
  {
    ExtractShift32(word, v, f);
    DivModUnique(v, Pow2(f.width), 0, v);
  }

  /** A cleared field reads back as zero. */
  lemma ExtractCleared(word: Dword, f: Field)
    requires WellFormed(f)
    ensures Extract(Clear(word, f), f) == 0
  {
    var low := ShiftRight(And(Clear(word, f), Mask(f)), f.shift);
    ToNatAllZero(low);
  }
}

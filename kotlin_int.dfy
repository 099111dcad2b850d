/** Kotlin's 32-bit `Int` and the operators the launcher applies to it, written out
    on unbounded integers: `shr` (arithmetic shift right), `and 0xff`, the
    truncating remainder `%`, and the two's-complement reading of 32 bits. */
module KotlinInt {

  const TwoTo31: int := 0x8000_0000
  const TwoTo32: int := 0x1_0000_0000

  /** Kotlin's `Int`. */
  type Int32 = x: int | -0x8000_0000 <= x < 0x8000_0000

  function Pow2(n: nat): (p: nat)
    ensures p >= 1
  {
    if n == 0 then 1 else 2 * Pow2(n - 1)
  }

  lemma Pow2Bytes()
    ensures Pow2(0) == 1 && Pow2(8) == 256 && Pow2(16) == 65536 && Pow2(24) == 16777216
  {
  }

  /** `x shr n` for a shift count below 32: an arithmetic shift, that is, division
      rounded towards minus infinity (Dafny's `/` by a positive divisor). */
  function Shr(x: Int32, n: nat): int
    requires n < 32
  {
    x / Pow2(n)
  }

  /** `x and 0xff`: the low eight bits of the two's-complement value. */
  function AndFF(x: int): (r: nat)
    ensures r < 256
  {
    x % 256
  }

  /** Kotlin's `a / b` on `Int`: division truncated towards zero (Dafny's `/` is
      Euclidean). Only its pairing with `Rem` is used here. */
  function Quot(a: int, b: int): int
    requires b != 0
  {
    if (a < 0) == (b < 0) then Abs(a) / Abs(b) else -(Abs(a) / Abs(b))
  }

  /** Kotlin's `a % b` on `Int`: the remainder of the truncating division, so it
      takes the sign of `a` and is smaller than `b` in magnitude. */
  function Rem(a: int, b: int): (r: int)
    requires b != 0
    ensures a >= 0 ==> 0 <= r
    ensures a <= 0 ==> r <= 0
    ensures Abs(r) < Abs(b)
    ensures a == Quot(a, b) * b + r
  {
    var m := Abs(a) % Abs(b);
    var r := if a < 0 then -m else m;
    QuotRem(a, b, r);
    r
  }

  lemma QuotRem(a: int, b: int, r: int)
    requires b != 0
    requires r == if a < 0 then -(Abs(a) % Abs(b)) else Abs(a) % Abs(b)
    ensures a == Quot(a, b) * b + r
  {
    var q, m, d := Abs(a) / Abs(b), Abs(a) % Abs(b), Abs(b);
    assert Abs(a) == q * d + m;
    if b > 0 {
      assert d == b;
      assert a < 0 ==> Quot(a, b) * b == -(q * d);
    } else {
      assert d == -b;
      assert q * d == -(q * b);
      assert a < 0 ==> Quot(a, b) * b == q * b;
      assert a >= 0 ==> Quot(a, b) * b == -(q * b);
    }
  }

  function Abs(x: int): nat { if x < 0 then -x else x }

  /** The `Int` whose 32 bits, read as an unsigned number, are `u`. */
  function ToSigned(u: nat): (x: Int32)
    requires u < TwoTo32
    ensures x % TwoTo32 == u
  {
    if u < TwoTo31 then u else u - TwoTo32
  }
}

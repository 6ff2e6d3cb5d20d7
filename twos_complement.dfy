/** The two's complement bit pattern of an integer, least significant bit
    first, and the three bit operations the parser folds into constants:
    bitwise not, `<<` and arithmetic `>>`. This is the reference against
    which the integer formulas of the constant folder are checked. */
module TwosComplement {

  /** Two to the power `b`. */
  function Pow2(b: nat): (r: nat)
    ensures r >= 1
  {
    if b == 0 then 1 else 2 * Pow2(b - 1)
  }

  /** `2^(a + b)` is `2^a * 2^b`. */
  lemma {:induction false} Pow2Sum(a: nat, b: nat)
    ensures Pow2(a + b) == Pow2(a) * Pow2(b)
    decreases b
  {
    if b > 0 {
      Pow2Sum(a, b - 1);
      assert Pow2(a + b) == 2 * (Pow2(a) * Pow2(b - 1));
    }
  }

  /** The powers of two that bound a 64-bit word. */
  lemma Pow2Of64()
    ensures Pow2(63) == 0x8000_0000_0000_0000 && Pow2(64) == 0x1_0000_0000_0000_0000
  {
    Pow2Of16();
    Pow2Sum(16, 16);
    Pow2Sum(32, 32);
  }

  /** The power of two that bounds a 16-bit word. */
  lemma Pow2Of16()
    ensures Pow2(16) == 0x1_0000
  {
    assert Pow2(2) == 4;
    Pow2Sum(2, 2);
    Pow2Sum(4, 4);
    Pow2Sum(8, 8);
  }

  /** The low `n` bits of `x` in two's complement, least significant first. */
  function Bits(x: int, n: nat): (r: seq<bool>)
    ensures |r| == n
    decreases n
  {
    if n == 0 then [] else [x % 2 == 1] + Bits(x / 2, n - 1)
  }

  /** `x` fits in `n` signed bits. */
  predicate FitsSigned(x: int, n: nat) {
    1 <= n && -(Pow2(n - 1) as int) <= x < Pow2(n - 1)
  }

  /** `n` copies of `v`. */
  function Fill(n: nat, v: bool): (r: seq<bool>)
    ensures |r| == n && forall i :: 0 <= i < n ==> r[i] == v
  {
    if n == 0 then [] else [v] + Fill(n - 1, v)
  }

  /** Bitwise not. */
  function Complement(s: seq<bool>): (r: seq<bool>)
    ensures |r| == |s| && forall i :: 0 <= i < |s| ==> r[i] == !s[i]
  {
    if s == [] then [] else [!s[0]] + Complement(s[1..])
  }

  /** `<<` by `b`: zeros enter at the bottom and the top `b` bits fall off. */
  function ShiftLeft(s: seq<bool>, b: nat): (r: seq<bool>)
    requires b <= |s|
    ensures |r| == |s|
    ensures forall i :: 0 <= i < b ==> !r[i]
    ensures forall i :: b <= i < |s| ==> r[i] == s[i - b]
  {
    Fill(b, false) + s[..|s| - b]
  }

  /** Arithmetic `>>` by `b`: the bottom `b` bits fall off and copies of
      the sign bit enter at the top. */
  function ShiftRightArith(s: seq<bool>, b: nat): (r: seq<bool>)
    requires 0 < |s| && b <= |s|
    ensures |r| == |s|
    ensures forall i :: 0 <= i < |s| - b ==> r[i] == s[i + b]
    ensures forall i :: |s| - b <= i < |s| ==> r[i] == s[|s| - 1]
  {
    s[b..] + Fill(b, s[|s| - 1])
  }

  // ---------------------------------------------------------------- the bits of -1 - x, 2x and x / 2

  /** Two numbers that add up to -1 are each other's complement, bit for
      bit. */
  lemma {:induction false} NotBits(x: int, y: int, n: nat)
    requires x + y == -1
    ensures Bits(y, n) == Complement(Bits(x, n))
    decreases n
  {
    if n > 0 {
      assert x / 2 + y / 2 == -1 && (y % 2 == 1) == !(x % 2 == 1);
      NotBits(x / 2, y / 2, n - 1);
      ComplementCons(x % 2 == 1, Bits(x / 2, n - 1));
    }
  }

  /** The complement of a sequence starting with `b` starts with `!b`. */
  lemma ComplementCons(b: bool, s: seq<bool>)
    ensures Complement([b] + s) == [!b] + Complement(s)
  {
    assert ([b] + s)[1..] == s;
  }

  /** Adding a multiple of `2^n` leaves the low `n` bits alone. */
  lemma {:induction false} BitsModulo(x: int, y: int, k: int, n: nat)
    requires y == x + k * Pow2(n)
    ensures Bits(y, n) == Bits(x, n)
    decreases n
  {
    if n > 0 {
      var m := k * Pow2(n - 1);
      assert k * Pow2(n) == 2 * m;
      assert y / 2 == x / 2 + m && y % 2 == x % 2;
      BitsModulo(x / 2, y / 2, k, n - 1);
    }
  }

  /** The low `m` bits are a prefix of the low `n` bits. */
  lemma {:induction false} BitsPrefix(x: int, m: nat, n: nat)
    requires m <= n
    ensures Bits(x, n)[..m] == Bits(x, m)
    decreases n
  {
    if m > 0 {
      BitsPrefix(x / 2, m - 1, n - 1);
      assert Bits(x, n)[..m] == [x % 2 == 1] + Bits(x / 2, n - 1)[..m - 1];
    }
  }

  /** The top bit of a number that fits in `n` signed bits is its sign. */
  lemma {:induction false} SignBit(x: int, n: nat)
    requires FitsSigned(x, n)
    ensures Bits(x, n)[n - 1] == (x < 0)
    decreases n
  {
    if n > 1 {
      SignBit(x / 2, n - 1);
    }
  }

  /** Two numbers that fit in `n` signed bits and have the same bits are
      equal. */
  lemma {:induction false} BitsInjective(x: int, y: int, n: nat)
    requires FitsSigned(x, n) && FitsSigned(y, n)
    requires Bits(x, n) == Bits(y, n)
    ensures x == y
    decreases n
  {
    assert Bits(x, n)[0] == Bits(y, n)[0];
    if n > 1 {
      assert Bits(x / 2, n - 1) == Bits(x, n)[1..];
      BitsInjective(x / 2, y / 2, n - 1);
    }
  }

  /** Doubling is `<<` by one. */
  lemma DoubleBits(x: int, n: nat)
    requires 1 <= n
    ensures Bits(2 * x, n) == ShiftLeft(Bits(x, n), 1)
  {
    BitsPrefix(x, n - 1, n);
    assert (2 * x) / 2 == x && (2 * x) % 2 == 0;
  }

  /** Halving a number that fits in `n` signed bits is arithmetic `>>` by
      one. */
  lemma HalveBits(x: int, n: nat)
    requires FitsSigned(x, n)
    ensures Bits(x / 2, n) == ShiftRightArith(Bits(x, n), 1)
  {
    WidenBits(x, n);
    SignBit(x, n);
    SignBit(x, n + 1);
    SignExtendedTail(Bits(x, n), Bits(x, n + 1));
  }

  /** Dropping the bottom bit of a sequence widened by a copy of its top
      bit is arithmetic `>>` by one. */
  lemma SignExtendedTail(s: seq<bool>, wide: seq<bool>)
    requires 0 < |s| && wide == s + [s[|s| - 1]]
    ensures wide[1..] == ShiftRightArith(s, 1)
  {
    assert Fill(1, s[|s| - 1]) == [s[|s| - 1]];
  }

  /** One more bit is one more bit at the top. */
  lemma WidenBits(x: int, n: nat)
    ensures Bits(x, n + 1) == Bits(x, n) + [Bits(x, n + 1)[n]]
  {
    var wide := Bits(x, n + 1);
    BitsPrefix(x, n, n + 1);
    assert wide == wide[..n] + [wide[n]];
  }

  // ---------------------------------------------------------------- shifting in steps

  /** `<<` by `b + 1` is `<<` by `b` and then by one. */
  lemma ShiftLeftStep(s: seq<bool>, b: nat)
    requires b + 1 <= |s|
    ensures ShiftLeft(ShiftLeft(s, b), 1) == ShiftLeft(s, b + 1)
  {
  }

  /** Arithmetic `>>` by `b + 1` is `>>` by one and then by `b`. */
  lemma ShiftRightStep(s: seq<bool>, b: nat)
    requires 0 < |s| && b + 1 <= |s|
    ensures ShiftRightArith(ShiftRightArith(s, 1), b) == ShiftRightArith(s, b + 1)
  {
  }

  /** Multiplying by `2^b` is `<<` by `b`. */
  lemma {:induction false} ScaleBits(x: int, b: nat, n: nat)
    requires b <= n
    ensures Bits(x * Pow2(b), n) == ShiftLeft(Bits(x, n), b)
    decreases b
  {
    if b == 0 {
      assert ShiftLeft(Bits(x, n), 0) == Bits(x, n);
    } else {
      assert x * Pow2(b) == 2 * (x * Pow2(b - 1));
      DoubleBits(x * Pow2(b - 1), n);
      ScaleBits(x, b - 1, n);
      ShiftLeftStep(Bits(x, n), b - 1);
    }
  }
}

/** Small shared vocabulary: optional values, machine integer widths,
    ASCII character classes and decimal rendering. */
module Wrappers {
  datatype Option<+T> = None | Some(value: T)
}

module Ints {
  /** Rust `i64` (two's complement, 64 bits). */
  const I64_MIN: int := -0x8000_0000_0000_0000
  const I64_MAX: int := 0x7FFF_FFFF_FFFF_FFFF
  type i64 = x: int | I64_MIN <= x <= I64_MAX

  predicate InI64(x: int) { I64_MIN <= x <= I64_MAX }

  /** C++ `uint32_t`: arithmetic on it wraps modulo 2^32. */
  const U32_MOD: int := 0x1_0000_0000
  type u32 = x: int | 0 <= x < U32_MOD

  /** Bytes of a u16 / u32 / u64 in little-endian order, as `to_le_bytes` gives them. */
  function Le16(w: bv16): (r: seq<bv8>)
    ensures |r| == 2
  {
    [(w & 0xFF) as bv8, ((w >> 8) & 0xFF) as bv8]
  }

  function Le32(d: bv32): (r: seq<bv8>)
    ensures |r| == 4
  {
    [(d & 0xFF) as bv8, ((d >> 8) & 0xFF) as bv8, ((d >> 16) & 0xFF) as bv8, ((d >> 24) & 0xFF) as bv8]
  }

  function Le64(q: bv64): (r: seq<bv8>)
    ensures |r| == 8
  {
    [(q & 0xFF) as bv8, ((q >> 8) & 0xFF) as bv8, ((q >> 16) & 0xFF) as bv8, ((q >> 24) & 0xFF) as bv8,
     ((q >> 32) & 0xFF) as bv8, ((q >> 40) & 0xFF) as bv8, ((q >> 48) & 0xFF) as bv8, ((q >> 56) & 0xFF) as bv8]
  }

  /** Reassembles two little-endian bytes into a u16. */
  function FromLe16(b: seq<bv8>): bv16
    requires |b| == 2
  {
    (b[0] as bv16) | ((b[1] as bv16) << 8)
  }

  /** Reassembles four little-endian bytes into a u32. */
  function FromLe32(b: seq<bv8>): bv32
    requires |b| == 4
  {
    (b[0] as bv32) | ((b[1] as bv32) << 8) | ((b[2] as bv32) << 16) | ((b[3] as bv32) << 24)
  }

  /** Reassembles eight little-endian bytes into a u64. */
  function FromLe64(b: seq<bv8>): bv64
    requires |b| == 8
  {
    (b[0] as bv64) | ((b[1] as bv64) << 8) | ((b[2] as bv64) << 16) | ((b[3] as bv64) << 24)
    | ((b[4] as bv64) << 32) | ((b[5] as bv64) << 40) | ((b[6] as bv64) << 48) | ((b[7] as bv64) << 56)
  }

  lemma Le16RoundTrip(w: bv16)
    ensures FromLe16(Le16(w)) == w
  {
    var b := Le16(w);
    assert b[0] as bv16 == w & 0xFF;
    assert (b[1] as bv16) << 8 == w & 0xFF00;
  }

  lemma Le32RoundTrip(d: bv32)
    ensures FromLe32(Le32(d)) == d
  {
    var b := Le32(d);
    assert b[0] as bv32 == d & 0xFF;
    assert (b[1] as bv32) << 8 == d & 0xFF00;
    assert (b[2] as bv32) << 16 == d & 0xFF0000;
    assert (b[3] as bv32) << 24 == d & 0xFF00_0000;
  }

  lemma Le64RoundTrip(q: bv64)
    ensures FromLe64(Le64(q)) == q
  {
    var b := Le64(q);
    assert b[0] as bv64 == q & 0xFF;
    assert (b[1] as bv64) << 8 == q & 0xFF00;
    assert (b[2] as bv64) << 16 == q & 0xFF_0000;
    assert (b[3] as bv64) << 24 == q & 0xFF00_0000;
    assert (b[4] as bv64) << 32 == q & 0xFF_0000_0000;
    assert (b[5] as bv64) << 40 == q & 0xFF00_0000_0000;
    assert (b[6] as bv64) << 48 == q & 0xFF_0000_0000_0000;
    assert (b[7] as bv64) << 56 == q & 0xFF00_0000_0000_0000;
  }

  /** `usize as u32`: keeps the low 32 bits. */
  function TruncU32(n: nat): bv32 {
    (n % 0x1_0000_0000) as bv32
  }
}

module Chars {
  predicate IsDigit(c: char) { '0' <= c <= '9' }
  predicate IsLower(c: char) { 'a' <= c <= 'z' }
  predicate IsUpper(c: char) { 'A' <= c <= 'Z' }
  /** ASCII reading of `isalpha` / `char::is_alphabetic`. */
  predicate IsAlpha(c: char) { IsLower(c) || IsUpper(c) }
  /** ASCII reading of `isalnum` / `char::is_alphanumeric`. */
  predicate IsAlnum(c: char) { IsAlpha(c) || IsDigit(c) }
  /** ASCII reading of C `isspace`: space, \t, \n, \v, \f, \r. */
  predicate IsSpace(c: char) { c == ' ' || c == '\t' || c == '\n' || c == '\U{B}' || c == '\U{C}' || c == '\r' }

  /** `char::is_digit(radix)` for the radixes the lexer uses (2, 8, 10, 16). */
  predicate IsRadixDigit(c: char, radix: nat) {
    if radix == 16 then IsDigit(c) || 'a' <= c <= 'f' || 'A' <= c <= 'F'
    else IsDigit(c) && (c as int) - ('0' as int) < radix
  }

  function DigitValue(c: char): (v: nat)
    requires IsRadixDigit(c, 16)
    ensures v < 16
  {
    if IsDigit(c) then (c as int) - ('0' as int)
    else if 'a' <= c <= 'f' then (c as int) - ('a' as int) + 10
    else (c as int) - ('A' as int) + 10
  }

  predicate AllRadixDigits(s: string, radix: nat) {
    forall i :: 0 <= i < |s| ==> IsRadixDigit(s[i], radix)
  }

  /** Value of a digit string in the given radix, most significant digit first. */
  function DigitsValue(s: string, radix: nat): nat
    requires 2 <= radix <= 16
    requires AllRadixDigits(s, radix)
  {
    if s == [] then 0
    else DigitsValue(s[..|s| - 1], radix) * radix + DigitValue(s[|s| - 1])
  }

  /** Decimal rendering of a natural number, as `{}` formats an integer. */
  function NatToDecimal(n: nat): (r: string)
    ensures |r| >= 1
    ensures forall i :: 0 <= i < |r| ==> IsDigit(r[i])
  {
    if n < 10 then [('0' as int + n) as char]
    else NatToDecimal(n / 10) + [('0' as int + n % 10) as char]
  }

  /** Decimal rendering of a signed integer: a `-` sign for negatives. */
  function IntToDecimal(x: int): string {
    if x < 0 then "-" + NatToDecimal(-x) else NatToDecimal(x)
  }

  /** The decimal value of a digit string: inverse of NatToDecimal. */
  function DecimalValue(s: string): nat
    requires forall i :: 0 <= i < |s| ==> IsDigit(s[i])
  {
    if s == [] then 0
    else
      assert IsDigit(s[|s| - 1]);
      DecimalValue(s[..|s| - 1]) * 10 + ((s[|s| - 1] as int) - ('0' as int))
  }

  lemma {:induction false} DecimalRoundTrip(n: nat)
    ensures DecimalValue(NatToDecimal(n)) == n
  {
    var r := NatToDecimal(n);
    if n >= 10 {
      DecimalRoundTrip(n / 10);
      assert r[..|r| - 1] == NatToDecimal(n / 10);
    }
  }

  /** Decimal rendering is injective, so rendered counters are unambiguous. */
  lemma DecimalInjective(m: nat, n: nat)
    requires NatToDecimal(m) == NatToDecimal(n)
    ensures m == n
  {
    DecimalRoundTrip(m);
    DecimalRoundTrip(n);
  }

  /** No NUL character: the lexers read a NUL as the end of the text. */
  predicate NoNul(v: string) { forall i :: 0 <= i < |v| ==> v[i] != '\0' }

  /** A text cut at the first occurrence of a separator that its first part
      does not contain splits one way only. */
  lemma SplitAtSeparator(a1: string, b1: string, a2: string, b2: string, sep: char)
    requires sep !in a1 && sep !in a2
    requires a1 + [sep] + b1 == a2 + [sep] + b2
    ensures a1 == a2 && b1 == b2
  {
    var x := a1 + [sep] + b1;
    assert x == a2 + [sep] + b2;
    assert forall i :: 0 <= i < |a1| ==> x[i] == a1[i];
    assert forall i :: 0 <= i < |a2| ==> x[i] == a2[i];
    assert x[|a1|] == sep && x[|a2|] == sep;
    assert |a1| == |a2|;
    assert a1 == x[..|a1|] == a2;
    assert b1 == x[|a1| + 1..] == b2;
  }

  /** Equal texts with a common beginning agree after it. */
  lemma DropCommonPrefix(p: string, x: string, y: string)
    requires p + x == p + y
    ensures x == y
  {
    assert x == (p + x)[|p|..];
    assert y == (p + y)[|p|..];
  }

  /** A decimal rendering holds no separator character. */
  lemma DecimalHasNo(n: nat, sep: char)
    requires !IsDigit(sep)
    ensures sep !in NatToDecimal(n)
  {
    var d := NatToDecimal(n);
    forall i | 0 <= i < |d| ensures d[i] != sep {
      assert IsDigit(d[i]);
    }
  }

  /** `t` occurs in `s` at position `p`. */
  predicate Occurs(s: string, p: nat, t: string) {
    p + |t| <= |s| && forall i :: 0 <= i < |t| ==> s[p + i] == t[i]
  }

  /** `s[p..].starts_with(t)`, character by character. */
  predicate StartsAt(s: string, p: nat, t: string)
    decreases |t|
  {
    t == [] || (p < |s| && s[p] == t[0] && StartsAt(s, p + 1, t[1..]))
  }

  /** A two-character text starts where its two characters stand. */
  lemma StartsAtPair(s: string, p: nat, a: char, b: char)
    ensures StartsAt(s, p, [a, b]) <==> p + 2 <= |s| && s[p] == a && s[p + 1] == b
  {
    assert [a, b][1..] == [b] && [b][1..] == [];
    assert StartsAt(s, p + 2, []);
    assert StartsAt(s, p + 1, [b]) <==> p + 1 < |s| && s[p + 1] == b;
  }

  /** An occurrence of `a + b` is an occurrence of `a` followed by one of `b`. */
  lemma OccursSplit(s: string, p: nat, a: string, b: string)
    requires Occurs(s, p, a + b)
    ensures Occurs(s, p, a) && Occurs(s, p + |a|, b)
  {
    forall i | 0 <= i < |a| ensures s[p + i] == a[i] {
      assert (a + b)[i] == a[i];
    }
    forall i | 0 <= i < |b| ensures s[p + |a| + i] == b[i] {
      assert (a + b)[|a| + i] == b[i];
    }
  }

  /** A suffix of a text without NUL has none. */
  lemma NoNulTail(v: string)
    requires v != [] && NoNul(v)
    ensures NoNul(v[1..])
  {
    forall i | 0 <= i < |v[1..]| ensures v[1..][i] != '\0' {
      assert v[1..][i] == v[i + 1];
    }
  }
}

/** The escape table both lexers share, and the encoder it inverts. */
module Escapes {
  import opened Wrappers
  import opened Chars

  /** The character a backslash followed by `e` stands for: `\b \n \t \r
      \' \" \\`; anything else has no entry. */
  function Unescape(e: char): Option<char> {
    match e
    case 'b' => Some('\U{8}')
    case 'n' => Some('\n')
    case 't' => Some('\t')
    case 'r' => Some('\r')
    case '\'' => Some('\'')
    case '"' => Some('"')
    case '\\' => Some('\\')
    case _ => None
  }

  predicate IsQuote(q: char) { q == '"' || q == '\'' }

  /** Writes one character of a literal closed by `quote`: a backslash and
      that quote are escaped, anything else is written as is. */
  function EscapeChar(x: char, quote: char): string {
    if x == '\\' || x == quote then ['\\', x] else [x]
  }

  /** Writes a text as the inside of a literal closed by `quote`; the string
      scanners of both lexers invert it. */
  function Escape(v: string, quote: char): (e: string)
    ensures |e| >= |v|
  {
    if v == [] then [] else EscapeChar(v[0], quote) + Escape(v[1..], quote)
  }

  /** Splitting an escaped text, closed by its quote, after its first
      escaped character. */
  lemma EscapeSplit(s: string, p: nat, q: char, v: string)
    requires v != [] && NoNul(v) && Occurs(s, p, Escape(v, q) + [q])
    ensures Occurs(s, p + |EscapeChar(v[0], q)|, Escape(v[1..], q) + [q])
    ensures s[p] == EscapeChar(v[0], q)[0]
    ensures |EscapeChar(v[0], q)| == 2 ==> s[p + 1] == v[0]
    ensures NoNul(v[1..])
  {
    var e0 := EscapeChar(v[0], q);
    assert Escape(v, q) + [q] == e0 + (Escape(v[1..], q) + [q]);
    OccursSplit(s, p, e0, Escape(v[1..], q) + [q]);
    NoNulTail(v);
  }
}

/**
 * Byte-level behaviour of the C library calls both servers make: `char` buffers as
 * byte sequences, NUL-terminated strings (what `strlen`, `strcpy`, `strcmp` and a `%s`
 * conversion see), `^` on `unsigned char`, `%d` formatting, and the decimal scanning
 * shared by `atoi` and `sscanf`'s `%d` (section 7.22.1.4 of ISO C: white space, an
 * optional sign, then digits).
 */
module CStrings {
  import opened Wrappers

  type byte = b: int | 0 <= b < 256

  const NUL: byte := 0

  // ---------------------------------------------------------------------------
  // String literals

  /** Text a C literal can spell without an escape for NUL: ASCII, NUL excluded. */
  predicate IsAscii(s: string) {
    forall i :: 0 <= i < |s| ==> 0 < s[i] as int < 128
  }

  /** The bytes of an ASCII literal. */
  function Ascii(s: string): (r: seq<byte>)
    requires IsAscii(s)
    ensures |r| == |s| && NUL !in r
  {
    seq(|s|, i requires 0 <= i < |s| => s[i] as int)
  }

  // ---------------------------------------------------------------------------
  // NUL-terminated strings

  /**
   * The C string a buffer holds: its bytes before the first NUL, or all of them when
   * there is no NUL.
   */
  function CString(s: seq<byte>): (r: seq<byte>)
    ensures |r| <= |s| && NUL !in r
    ensures NUL !in s ==> r == s
  {
    if s == [] || s[0] == NUL then [] else [s[0]] + CString(s[1..])
  }

  /** `CString(s)` is a prefix of `s`, cut at the first NUL when there is one. */
  lemma {:induction false} CStringPrefix(s: seq<byte>)
    ensures CString(s) <= s
    ensures |CString(s)| < |s| ==> s[|CString(s)|] == NUL
  {
    if s != [] && s[0] != NUL {
      CStringPrefix(s[1..]);
    }
  }

  /** The facts of `CStringPrefix` and no NUL single out `CString(s)` among all sequences. */
  lemma {:induction false} CStringUnique(s: seq<byte>, r: seq<byte>)
    requires r <= s && NUL !in r
    requires |r| < |s| ==> s[|r|] == NUL
    ensures r == CString(s)
  {
    if s != [] && s[0] != NUL {
      assert r != [] && r[0] == s[0];
      CStringUnique(s[1..], r[1..]);
    }
  }

  /** A NUL written at index `m` ends the C string there, whatever follows it. */
  lemma {:induction false} CStringStopsAtNul(s: seq<byte>, m: nat)
    requires m < |s| && s[m] == NUL
    ensures CString(s) == CString(s[..m])
  {
    var r := CString(s[..m]);
    CStringPrefix(s[..m]);
    assert r <= s;
    CStringUnique(s, r);
  }

  // ---------------------------------------------------------------------------
  // `^` on unsigned char

  function Pow2(n: nat): (r: nat)
    ensures r >= 1
  {
    if n == 0 then 1 else 2 * Pow2(n - 1)
  }

  /** The low `n` bits of `a ^ b`, computed bit by bit from the least significant. */
  function XorBits(a: nat, b: nat, n: nat): (r: nat)
    ensures r < Pow2(n)
  {
    if n == 0 then 0 else 2 * XorBits(a / 2, b / 2, n - 1) + (a % 2 + b % 2) % 2
  }

  /** The width of `unsigned char`. */
  const ByteBits: nat := 8

  lemma {:induction false} ByteRange()
    ensures Pow2(ByteBits) == 256
  {
    assert Pow2(8) == 256;
  }

  /** `a ^ b` on two `unsigned char` values. */
  function Xor(a: byte, b: byte): byte {
    ByteRange();
    XorBits(a, b, ByteBits)
  }

  /** XOR-ing twice with the same bits gives back the original bits. */
  lemma {:induction false} XorBitsCancel(a: nat, b: nat, n: nat)
    requires a < Pow2(n)
    ensures XorBits(XorBits(a, b, n), b, n) == a
  {
    if n > 0 {
      var y := XorBits(a / 2, b / 2, n - 1);
      var bit := (a % 2 + b % 2) % 2;
      var x := XorBits(a, b, n);
      assert x / 2 == y && x % 2 == bit by {
        HalfOf(y, bit);
      }
      assert a / 2 < Pow2(n - 1);
      assert XorBits(y, b / 2, n - 1) == a / 2 by {
        XorBitsCancel(a / 2, b / 2, n - 1);
      }
      assert (bit + b % 2) % 2 == a % 2 by {
        BitCancel(a % 2, b % 2);
      }
      assert XorBits(x, b, n) == 2 * (a / 2) + a % 2;
    }
  }

  lemma {:induction false} HalfOf(y: int, bit: int)
    requires 0 <= bit < 2
    ensures (2 * y + bit) / 2 == y && (2 * y + bit) % 2 == bit
  {
  }

  /** XOR-ing twice with the same bit gives back the original bit. */
  lemma {:induction false} BitCancel(p: int, q: int)
    requires 0 <= p < 2 && 0 <= q < 2
    ensures ((p + q) % 2 + q) % 2 == p
  {
  }

  lemma {:induction false} XorCancel(a: byte, m: byte)
    ensures Xor(Xor(a, m), m) == a
  {
    ByteRange();
    XorBitsCancel(a, m, ByteBits);
  }

  // ---------------------------------------------------------------------------
  // Literal parts of a scanf format

  /** What follows `lit` in `s`, when `s` starts with `lit`; None at the first byte that differs. */
  function AfterLiteral(lit: seq<byte>, s: seq<byte>): Option<seq<byte>> {
    if lit == [] then Some(s)
    else if s == [] || s[0] != lit[0] then None
    else AfterLiteral(lit[1..], s[1..])
  }

  /** A literal matches exactly when it is a prefix, and leaves what follows it. */
  lemma {:induction false} AfterLiteralMatches(lit: seq<byte>, s: seq<byte>)
    ensures AfterLiteral(lit, s) == if lit <= s then Some(s[|lit|..]) else None
  {
    if lit != [] && s != [] && s[0] == lit[0] {
      AfterLiteralMatches(lit[1..], s[1..]);
      assert lit <= s <==> lit[1..] <= s[1..];
      if lit <= s {
        assert s[1..][|lit| - 1..] == s[|lit|..];
      }
    }
  }

  /** A literal followed by `t` leaves `t`. */
  lemma {:induction false} AfterLiteralConcat(lit: seq<byte>, t: seq<byte>)
    ensures AfterLiteral(lit, lit + t) == Some(t)
  {
    if lit != [] {
      var s := lit + t;
      assert s != [] && s[0] == lit[0];
      assert s[1..] == lit[1..] + t;
      AfterLiteralConcat(lit[1..], t);
    } else {
      assert lit + t == t;
    }
  }

  // ---------------------------------------------------------------------------
  // Runs of bytes

  /** How many bytes at the front of `s` satisfy `p`. */
  function Span(s: seq<byte>, p: byte -> bool): (n: nat)
    ensures n <= |s|
  {
    if s == [] || !p(s[0]) then 0 else 1 + Span(s[1..], p)
  }

  /** Every byte of the run satisfies `p`, and the byte it stops at does not. */
  lemma {:induction false} SpanRun(s: seq<byte>, p: byte -> bool)
    ensures forall i :: 0 <= i < Span(s, p) ==> p(s[i])
    ensures Span(s, p) < |s| ==> !p(s[Span(s, p)])
  {
    if s != [] && p(s[0]) {
      SpanRun(s[1..], p);
      assert forall i :: 1 <= i < Span(s, p) ==> s[i] == s[1..][i - 1];
    }
  }

  /** The length of a run is determined by where it stops. */
  lemma {:induction false} SpanExact(s: seq<byte>, p: byte -> bool, n: nat)
    requires n <= |s|
    requires forall i :: 0 <= i < n ==> p(s[i])
    requires n < |s| ==> !p(s[n])
    ensures Span(s, p) == n
  {
    if n > 0 {
      assert forall i :: 0 <= i < n - 1 ==> s[1..][i] == s[i + 1];
      SpanExact(s[1..], p, n - 1);
    }
  }

  // ---------------------------------------------------------------------------
  // Decimal numerals

  predicate IsDigit(b: byte) {
    '0' as int <= b <= '9' as int
  }

  /** `isspace` in the "C" locale: space, tab, newline, vertical tab, form feed, carriage return. */
  predicate IsSpace(b: byte) {
    b == ' ' as int || '\t' as int <= b <= '\r' as int
  }

  /** The decimal digits of `n`, most significant first, without leading zeros. */
  function DigitsOf(n: nat): (r: seq<byte>)
    ensures |r| >= 1
    ensures forall i :: 0 <= i < |r| ==> IsDigit(r[i])
  {
    if n < 10 then ['0' as int + n] else DigitsOf(n / 10) + ['0' as int + n % 10]
  }

  /** What `%d` prints for `n`. */
  function Decimal(n: int): (r: seq<byte>)
    ensures NUL !in r
  {
    if n < 0 then ['-' as int] + DigitsOf(-n) else DigitsOf(n)
  }

  /** The number a run of decimal digits denotes. */
  function DigitsValue(d: seq<byte>): nat
    requires forall i :: 0 <= i < |d| ==> IsDigit(d[i])
  {
    if d == [] then 0
    else
      assert IsDigit(d[|d| - 1]);
      DigitsValue(d[..|d| - 1]) * 10 + (d[|d| - 1] - '0' as int)
  }

  lemma {:induction false} DigitsValueOf(n: nat)
    ensures DigitsValue(DigitsOf(n)) == n
  {
    if n >= 10 {
      var d := DigitsOf(n);
      assert d[..|d| - 1] == DigitsOf(n / 10);
      DigitsValueOf(n / 10);
    }
  }

  /**
   * The integer a decimal conversion reads from the front of `s`, and how many bytes it
   * takes: leading white space, an optional `+` or `-`, then the digits up to the first
   * byte that is not one. None when no digit follows.
   */
  function ScanInt(s: seq<byte>): (r: Option<(int, nat)>)
    ensures r.Some? ==> r.value.1 <= |s|
  {
    var w := Span(s, IsSpace);
    var t := s[w..];
    var signed := t != [] && (t[0] == '-' as int || t[0] == '+' as int);
    var u := if signed then t[1..] else t;
    var d := Span(u, IsDigit);
    SpanRun(u, IsDigit);
    if d == 0 then None
    else
      var v: int := DigitsValue(u[..d]);
      Some((if signed && t[0] == '-' as int then -v else v, w + (if signed then 1 else 0) + d))
  }

  /** `atoi`: the value `ScanInt` reads, or 0 when there is no digit to read. */
  function Atoi(s: seq<byte>): int {
    match ScanInt(s)
    case Some((v, _)) => v
    case None => 0
  }

  /**
   * What `%d` prints is read back by a decimal conversion, which stops at the first
   * byte after it that is not a digit.
   */
  lemma {:induction false} ScanDecimal(n: int, rest: seq<byte>)
    requires rest == [] || !IsDigit(rest[0])
    ensures ScanInt(Decimal(n) + rest) == Some((n, |Decimal(n)|))
  {
    var digits := DigitsOf(if n < 0 then -n else n);
    DigitsValueOf(if n < 0 then -n else n);
    if n < 0 {
      assert Decimal(n) + rest == ['-' as int] + (digits + rest);
      ScanSignedDigits(digits, rest);
    } else {
      ScanUnsignedDigits(digits, rest);
    }
  }

  /** Digits at the very front are read without skipping or a sign. */
  lemma {:induction false} ScanUnsignedDigits(digits: seq<byte>, rest: seq<byte>)
    requires digits != [] && forall i :: 0 <= i < |digits| ==> IsDigit(digits[i])
    requires rest == [] || !IsDigit(rest[0])
    ensures ScanInt(digits + rest) == Some((DigitsValue(digits), |digits|))
  {
    var s := digits + rest;
    assert s[0] == digits[0];
    SpanExact(s, IsSpace, 0);
    assert s[0..] == s;
    ScanDigitsFrom(s, digits, rest);
  }

  /** Digits after a leading minus sign are read as a negative number. */
  lemma {:induction false} ScanSignedDigits(digits: seq<byte>, rest: seq<byte>)
    requires digits != [] && forall i :: 0 <= i < |digits| ==> IsDigit(digits[i])
    requires rest == [] || !IsDigit(rest[0])
    ensures ScanInt(['-' as int] + (digits + rest)) == Some((-(DigitsValue(digits) as int), 1 + |digits|))
  {
    var s := ['-' as int] + (digits + rest);
    SpanExact(s, IsSpace, 0);
    assert s[0..] == s;
    assert s[1..] == digits + rest;
    ScanDigitsFrom(s[1..], digits, rest);
  }

  /** The digit run of `u` and its value, when `u` is `digits` followed by a non-digit. */
  lemma {:induction false} ScanDigitsFrom(u: seq<byte>, digits: seq<byte>, rest: seq<byte>)
    requires u == digits + rest
    requires forall i :: 0 <= i < |digits| ==> IsDigit(digits[i])
    requires rest == [] || !IsDigit(rest[0])
    ensures Span(u, IsDigit) == |digits| && u[..|digits|] == digits
    ensures DigitsValue(u[..Span(u, IsDigit)]) == DigitsValue(digits)
  {
    ScanDigits(digits, rest);
  }

  /** A run of digits followed by a non-digit is read whole. */
  lemma {:induction false} ScanDigits(digits: seq<byte>, rest: seq<byte>)
    requires forall i :: 0 <= i < |digits| ==> IsDigit(digits[i])
    requires rest == [] || !IsDigit(rest[0])
    ensures Span(digits + rest, IsDigit) == |digits|
    ensures (digits + rest)[..|digits|] == digits
  {
    SpanExact(digits + rest, IsDigit, |digits|);
  }

  lemma {:induction false} AtoiDecimal(n: int, rest: seq<byte>)
    requires rest == [] || !IsDigit(rest[0])
    ensures Atoi(Decimal(n) + rest) == n
  {
    ScanDecimal(n, rest);
  }

  /** Leading white space does not change what `atoi` reads. */
  lemma {:induction false} AtoiSkipsSpace(w: seq<byte>, s: seq<byte>)
    requires forall i :: 0 <= i < |w| ==> IsSpace(w[i])
    ensures Atoi(w + s) == Atoi(s)
  {
    var k := Span(s, IsSpace);
    SpanRun(s, IsSpace);
    SpanExact(w + s, IsSpace, |w| + k);
    assert (w + s)[|w| + k..] == s[k..];
  }

  /** Without a digit after the white space and sign, `atoi` gives 0. */
  lemma {:induction false} AtoiNoDigits(s: seq<byte>)
    requires var t := s[Span(s, IsSpace)..];
             var u := if t != [] && (t[0] == '-' as int || t[0] == '+' as int) then t[1..] else t;
             u == [] || !IsDigit(u[0])
    ensures Atoi(s) == 0
  {
  }

  /** A string without a single digit reads as 0. */
  lemma {:induction false} AtoiWithoutDigits(s: seq<byte>)
    requires forall i :: 0 <= i < |s| ==> !IsDigit(s[i])
    ensures Atoi(s) == 0
  {
    var w := Span(s, IsSpace);
    var t := s[w..];
    if t != [] {
      assert t[0] == s[w];
      if |t| > 1 {
        assert t[1..][0] == s[w + 1];
      }
    }
    AtoiNoDigits(s);
  }
}

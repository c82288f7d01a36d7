/**
 * The pieces of Go's strconv, fmt and strings packages that the poller's
 * text handling relies on: decimal and binary digits, `%0<w>d`-style zero
 * padding, strconv.ParseUint in base 10, and strings.TrimRight.
 */
module GoText {
  import opened Bits

  predicate IsDigit(c: char)
  {
    '0' <= c <= '9'
  }

  function DigitChar(d: nat): (c: char)
    requires d < 10
    ensures IsDigit(c)
  {
    ('0' as int + d) as char
  }

  function DigitValue(c: char): (d: nat)
    requires IsDigit(c)
    ensures d < 10 && DigitChar(d) == c
  {
    c as int - '0' as int
  }

  predicate AllDigits(s: string)
  {
    forall i :: 0 <= i < |s| ==> IsDigit(s[i])
  }

  /** Decimal digits of n, most significant first, without leading zeros. */
  function Decimal(n: nat): (s: string)
    ensures |s| >= 1 && AllDigits(s)
    ensures s[0] == '0' ==> n == 0
  {
    if n < 10 then [DigitChar(n)] else Decimal(n / 10) + [DigitChar(n % 10)]
  }

  /** Binary digits of n, most significant first, without leading zeros. */
  function Binary(n: nat): (s: string)
    ensures |s| >= 1
    ensures forall i :: 0 <= i < |s| ==> s[i] == '0' || s[i] == '1'
  {
    if n < 2 then [DigitChar(n)] else Binary(n / 2) + [DigitChar(n % 2)]
  }

  /** The number written by a string of decimal digits. */
  function DecimalValue(s: string): nat
    requires AllDigits(s)
  {
    if s == [] then 0 else 10 * DecimalValue(s[..|s| - 1]) + DigitValue(s[|s| - 1])
  }

  /** The number written by a string of binary digits. */
  function BinaryValue(s: string): nat
    requires forall i :: 0 <= i < |s| ==> s[i] == '0' || s[i] == '1'
  {
    if s == [] then 0 else 2 * BinaryValue(s[..|s| - 1]) + (if s[|s| - 1] == '1' then 1 else 0)
  }

  lemma {:induction false} DecimalRoundTrip(n: nat)
    ensures DecimalValue(Decimal(n)) == n
  {
    if n >= 10 {
      var s := Decimal(n);
      assert s[..|s| - 1] == Decimal(n / 10);
      DecimalRoundTrip(n / 10);
    }
  }

  lemma {:induction false} BinaryRoundTrip(n: nat)
    ensures BinaryValue(Binary(n)) == n
  {
    if n >= 2 {
      var s := Binary(n);
      assert s[..|s| - 1] == Binary(n / 2);
      BinaryRoundTrip(n / 2);
    }
  }

  function Zeros(k: nat): (s: string)
    ensures |s| == k && forall i :: 0 <= i < k ==> s[i] == '0'
  {
    if k == 0 then [] else Zeros(k - 1) + ['0']
  }

  /** Left-pad s with '0' up to width w; wider strings are left as they are. */
  function ZeroPad(s: string, w: int): (r: string)
    ensures |r| == if |s| >= w then |s| else w
    ensures r[|r| - |s|..] == s
    ensures forall i :: 0 <= i < |r| - |s| ==> r[i] == '0'
  {
    if |s| >= w then s else Zeros(w - |s|) + s
  }

  /** fmt's %0<w>d: the sign counts towards the width. */
  function FmtInt(n: int, w: nat): (s: string)
    ensures |s| >= w
  {
    if n >= 0 then ZeroPad(Decimal(n), w)
    else "-" + ZeroPad(Decimal(-n), w - 1)
  }

  /** Outcome of strconv.ParseUint(s, 10, bitSize). */
  datatype UintParse = Parsed(value: nat) | SyntaxError | RangeError

  /**
   * strconv.ParseUint's loop in base 10, reading s from left to right with
   * the value of the digits read so far in acc: the first character that is
   * not a digit is a syntax error, and the first digit that takes the value
   * past max is a range error, whichever comes first.
   */
  function ScanUint(s: string, acc: nat, max: nat): UintParse
  {
    if s == [] then Parsed(acc)
    else if !IsDigit(s[0]) then SyntaxError
    else if 10 * acc + DigitValue(s[0]) > max then RangeError
    else ScanUint(s[1..], 10 * acc + DigitValue(s[0]), max)
  }

  /** A character that is not a digit comes before the digits read so far have passed max. */
  predicate SyntaxFirst(s: string, max: nat)
  {
    exists i :: 0 <= i < |s| && !IsDigit(s[i]) && AllDigits(s[..i]) && DecimalValue(s[..i]) <= max
  }

  /**
   * strconv.ParseUint(s, 10, bitSize): a non-empty string of ASCII digits
   * (no sign, no underscores) whose value fits in bitSize bits. A syntax
   * error is reported when a non-digit is met before the value overflows,
   * a range error when the value overflows first.
   */
  function ParseUint(s: string, bitSize: nat): (p: UintParse)
    ensures p.Parsed? <==> s != [] && AllDigits(s) && DecimalValue(s) < Pow2(bitSize)
    ensures p.Parsed? ==> AllDigits(s) && p.value == DecimalValue(s) && p.value < Pow2(bitSize)
    ensures p.SyntaxError? <==> s == [] || SyntaxFirst(s, Pow2(bitSize) - 1)
  {
    ScanFromStart(s, Pow2(bitSize) - 1);
    if s == [] then SyntaxError else ScanUint(s, 0, Pow2(bitSize) - 1)
  }

  /** ScanUint from the start of s, in terms of s itself. */
  lemma ScanFromStart(s: string, max: nat)
    ensures var r := ScanUint(s, 0, max);
      && (r.Parsed? <==> AllDigits(s) && DecimalValue(s) <= max)
      && (r.Parsed? ==> AllDigits(s) && r.value == DecimalValue(s))
      && (r.SyntaxError? <==> SyntaxFirst(s, max))
  {
    assert [] + s == s;
    assert forall i :: 0 <= i <= |s| ==> [] + s[..i] == s[..i];
    ScanSpec([], s, max);
  }

  /**
   * Once the digits p have been read without overflow, scanning t ends in
   * Parsed exactly when p + t is all digits within max, and in a syntax
   * error exactly when a non-digit of t comes while the value is still
   * within max.
   */
  lemma {:induction false} ScanSpec(p: string, t: string, max: nat)
    requires AllDigits(p) && DecimalValue(p) <= max
    decreases |t|
    ensures var r := ScanUint(t, DecimalValue(p), max);
      && (r.Parsed? <==> AllDigits(p + t) && DecimalValue(p + t) <= max)
      && (r.Parsed? ==> AllDigits(p + t) && r.value == DecimalValue(p + t))
      && (r.SyntaxError? <==>
            exists i :: 0 <= i < |t| && !IsDigit(t[i]) && AllDigits(p + t[..i]) && DecimalValue(p + t[..i]) <= max)
  {
    var v := DecimalValue(p);
    if t == [] {
      assert p + t == p;
    } else if !IsDigit(t[0]) {
      assert p + t[..0] == p;
      assert (p + t)[|p|] == t[0];
    } else {
      var q := p + [t[0]];
      assert q[..|q| - 1] == p;
      assert AllDigits(q);
      assert DecimalValue(q) == 10 * v + DigitValue(t[0]);
      assert p + t == q + t[1..];
      if 10 * v + DigitValue(t[0]) > max {
        forall i | 1 <= i <= |t| && AllDigits(p + t[..i])
          ensures DecimalValue(p + t[..i]) > max
        {
          assert p + t[..i] == q + t[1..i];
          DecimalGrows(q, t[1..i]);
        }
        assert t[..|t|] == t;
      } else {
        ScanSpec(q, t[1..], max);
        forall j | 0 <= j < |t| - 1
          ensures t[1..][j] == t[j + 1] && q + t[1..][..j] == p + t[..j + 1]
        {
          assert t[1..][..j] == t[1..j + 1];
        }
      }
    }
  }

  /** Appending digits never makes a decimal number smaller. */
  lemma {:induction false} DecimalGrows(a: string, b: string)
    requires AllDigits(a + b)
    ensures AllDigits(a) && DecimalValue(a + b) >= DecimalValue(a)
  {
    assert forall i :: 0 <= i < |a| ==> a[i] == (a + b)[i];
    if b == [] {
      assert a + b == a;
    } else {
      var b' := b[..|b| - 1];
      assert (a + b)[..|a + b| - 1] == a + b';
      DecimalGrows(a, b');
    }
  }

  /** "70000x" overflows a uint16 at its fifth digit, before the 'x' is read. */
  lemma OverflowBeforeSyntax()
    ensures ParseUint("70000x", 16) == RangeError
  {
    Pow2Is16();
    var s := "70000x";
    assert s[1..] == "0000x" && s[1..][1..] == "000x" && s[1..][1..][1..] == "00x" && s[1..][1..][1..][1..] == "0x";
    assert ScanUint("0x", 7000, 65535) == RangeError;
    assert ScanUint("00x", 700, 65535) == RangeError;
    assert ScanUint("000x", 70, 65535) == RangeError;
    assert ScanUint("0000x", 7, 65535) == RangeError;
  }

  /** The number ParseUint hands back beside its error: 0 after a syntax error, the maximum after a range error. */
  function ParseUintValue(s: string, bitSize: nat): (n: nat)
    ensures n < Pow2(bitSize)
    ensures ParseUint(s, bitSize).Parsed? ==> n == ParseUint(s, bitSize).value
  {
    match ParseUint(s, bitSize)
    case Parsed(v) => v
    case SyntaxError => 0
    case RangeError => Pow2(bitSize) - 1
  }

  /** Writing n in decimal and parsing it back gives n whenever n fits. */
  lemma ParseDecimal(n: nat, bitSize: nat)
    requires n < Pow2(bitSize)
    ensures ParseUint(Decimal(n), bitSize) == Parsed(n)
  {
    DecimalRoundTrip(n);
  }

  /** strings.TrimRight(s, cutset): drop every trailing character that is in cut. */
  function TrimRight(s: string, cut: set<char>): (r: string)
    ensures r <= s
    ensures r == [] || r[|r| - 1] !in cut
    ensures forall i :: |r| <= i < |s| ==> s[i] in cut
  {
    if s == [] || s[|s| - 1] !in cut then s else TrimRight(s[..|s| - 1], cut)
  }

  /** Appending cut characters does not change what TrimRight keeps. */
  lemma {:induction false} TrimRightCutSuffix(s: string, t: string, cut: set<char>)
    requires forall i :: 0 <= i < |t| ==> t[i] in cut
    ensures TrimRight(s + t, cut) == TrimRight(s, cut)
  {
    if t != [] {
      assert (s + t)[|s + t| - 1] == t[|t| - 1];
      assert (s + t)[..|s + t| - 1] == s + t[..|t| - 1];
      TrimRightCutSuffix(s, t[..|t| - 1], cut);
    } else {
      assert s + t == s;
    }
  }

  /** Join(xs, sep): the elements of xs with sep between neighbours. */
  function Join(xs: seq<string>, sep: string): string
  {
    if xs == [] then "" else if |xs| == 1 then xs[0] else xs[0] + sep + Join(xs[1..], sep)
  }
}

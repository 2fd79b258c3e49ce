/**
 * The pieces of Go's `strings` and `strconv` packages that the driver relies on,
 * over strings modelled as sequences of characters.
 */
module Text {
  import opened Wrappers

  const MinInt64: int := -0x8000_0000_0000_0000
  const MaxInt64: int := 0x7fff_ffff_ffff_ffff

  /** Go's `int64` (and `int`, which is 64 bits wide on the platforms the driver targets). */
  type Int64 = i: int | MinInt64 <= i <= MaxInt64

  predicate IsDigit(c: char) {
    '0' <= c <= '9'
  }

  predicate AllDigits(s: string) {
    forall i :: 0 <= i < |s| ==> IsDigit(s[i])
  }

  function DigitChar(d: nat): (c: char)
    requires d < 10
    ensures IsDigit(c)
  {
    (48 + d) as char
  }

  function DigitValue(c: char): (d: nat)
    requires IsDigit(c)
    ensures d < 10
  {
    c as int - 48
  }

  /** Decimal notation of a natural number, as `%d` and `%v` print it. */
  function NatToString(n: nat): (s: string)
    ensures |s| >= 1 && AllDigits(s)
    decreases n
  {
    if n < 10 then [DigitChar(n)] else NatToString(n / 10) + [DigitChar(n % 10)]
  }

  /** Decimal notation of an integer, with a leading `-` when negative. */
  function IntToString(i: int): string {
    if i < 0 then "-" + NatToString(-i) else NatToString(i)
  }

  /** The value of a string of decimal digits (leading zeros allowed), as `strconv.Atoi` reads it. */
  function DecimalValue(s: string): nat
    requires AllDigits(s)
    decreases |s|
  {
    if s == [] then 0 else DecimalValue(s[..|s| - 1]) * 10 + DigitValue(s[|s| - 1])
  }

  /** Reading back the digits that NatToString writes gives the number again. */
  lemma {:induction false} DecimalRoundTrip(n: nat)
    ensures DecimalValue(NatToString(n)) == n
  {
    var s := NatToString(n);
    if n >= 10 {
      var prefix := NatToString(n / 10);
      assert s == prefix + [DigitChar(n % 10)];
      assert s[..|s| - 1] == prefix;
      DecimalRoundTrip(n / 10);
      assert DigitValue(s[|s| - 1]) == n % 10;
    }
  }

  /**
   * The value of the decimal digits s[a..b], or None when one of them is not a digit.
   * Positions are used rather than a slice so that the text read stays inside s.
   */
  function DecimalIn(s: string, a: nat, b: nat): Option<nat>
    requires a <= b <= |s|
    decreases b - a
  {
    if a == b then Some(0)
    else if !IsDigit(s[b - 1]) then None
    else
      match DecimalIn(s, a, b - 1)
      case None => None
      case Some(v) => Some(v * 10 + DigitValue(s[b - 1]))
  }

  /**
   * `strconv.Atoi(s[a:b])` on the strings it meets here (no sign): the empty string,
   * a non-digit and a value outside int64 are errors.
   */
  function AtoiIn(s: string, a: nat, b: nat): Option<int>
    requires a <= b <= |s|
  {
    if a == b then None
    else
      match DecimalIn(s, a, b)
      case None => None
      case Some(v) => if v <= MaxInt64 then Some(v) else None
  }

  /** `strconv.Atoi(s)`. */
  function Atoi(s: string): Option<int> {
    AtoiIn(s, 0, |s|)
  }

  /** Reading positions a..b of s is reading the slice s[a..b]. */
  lemma {:induction false} DecimalInSlice(s: string, a: nat, b: nat)
    requires a <= b <= |s|
    ensures DecimalIn(s, a, b) == DecimalIn(s[a..b], 0, b - a)
    decreases b - a
  {
    if a < b {
      DecimalInSlice(s, a, b - 1);
      var t := s[a..b];
      assert s[a..b - 1] == t[..b - 1 - a];
      DecimalInPrefix(t, b - 1 - a);
    }
  }

  /** Reading a prefix of s by position is reading the prefix itself. */
  lemma {:induction false} DecimalInPrefix(s: string, k: nat)
    requires k <= |s|
    ensures DecimalIn(s, 0, k) == DecimalIn(s[..k], 0, k)
    decreases k
  {
    if k > 0 {
      DecimalInPrefix(s, k - 1);
      DecimalInPrefix(s[..k], k - 1);
      assert s[..k][..k - 1] == s[..k - 1];
    }
  }

  lemma AtoiInSlice(s: string, a: nat, b: nat)
    requires a <= b <= |s|
    ensures AtoiIn(s, a, b) == Atoi(s[a..b])
  {
    DecimalInSlice(s, a, b);
  }

  lemma {:induction false} DecimalInDigits(s: string, k: nat)
    requires k <= |s| && AllDigits(s)
    ensures DecimalIn(s, 0, k) == Some(DecimalValue(s[..k]))
    decreases k
  {
    if k > 0 {
      DecimalInDigits(s, k - 1);
      assert s[..k][..k - 1] == s[..k - 1];
    }
  }

  lemma {:induction false} DecimalInNonDigit(s: string, a: nat, b: nat, k: nat)
    requires a <= k < b <= |s| && !IsDigit(s[k])
    ensures DecimalIn(s, a, b) == None
    decreases b - a
  {
    if k < b - 1 {
      DecimalInNonDigit(s, a, b - 1, k);
    }
  }

  /** Atoi reads back what `%d` prints, for every non-negative int64. */
  lemma AtoiRoundTrip(n: nat)
    requires n <= MaxInt64
    ensures Atoi(NatToString(n)) == Some(n)
  {
    var s := NatToString(n);
    DecimalInDigits(s, |s|);
    assert s[..|s|] == s;
    DecimalRoundTrip(n);
  }

  function Pow10(k: nat): (p: nat)
    ensures p >= 1
  {
    if k == 0 then 1 else 10 * Pow10(k - 1)
  }

  lemma {:induction false} Pow10Monotonic(a: nat, b: nat)
    requires a <= b
    ensures Pow10(a) <= Pow10(b)
    decreases b - a
  {
    if a < b {
      Pow10Monotonic(a, b - 1);
    }
  }

  /** A number printed with k digits is below 10^k. */
  lemma {:induction false} NatBelowPow10(n: nat)
    ensures n < Pow10(|NatToString(n)|)
    decreases n
  {
    if n >= 10 {
      var k := |NatToString(n / 10)|;
      NatBelowPow10(n / 10);
      assert |NatToString(n)| == k + 1;
      assert n / 10 + 1 <= Pow10(k);
      assert n < 10 * (n / 10 + 1);
    }
  }

  /** `strings.Contains(s, sub)`, equivalently `strings.Count(s, sub) > 0`. */
  predicate Occurs(sub: string, s: string)
    decreases |s|
  {
    |sub| <= |s| && (s[..|sub|] == sub || Occurs(sub, s[1..]))
  }

  /** `strings.Count(s, string(c))` for a one-character separator. */
  function CountChar(s: string, c: char): nat
    decreases |s|
  {
    if s == [] then 0 else (if s[0] == c then 1 else 0) + CountChar(s[1..], c)
  }

  /**
   * Regrouping a concatenation. Stated once as a lemma because asserting it inside a
   * larger proof costs the solver far more than calling it.
   */
  lemma AppendAssociative(a: string, b: string, c: string)
    ensures (a + b) + c == a + (b + c)
  {
  }

  /** `strings.HasSuffix`. */
  predicate HasSuffix(s: string, suffix: string) {
    |suffix| <= |s| && s[|s| - |suffix|..] == suffix
  }

  /** `strings.TrimSuffix`: removes the suffix once, when present. */
  function TrimSuffix(s: string, suffix: string): (r: string)
    ensures HasSuffix(s, suffix) ==> r + suffix == s
    ensures !HasSuffix(s, suffix) ==> r == s
  {
    if HasSuffix(s, suffix) then s[..|s| - |suffix|] else s
  }

  /**
   * `strings.Split(s, string(sep))`: the maximal pieces between separators, in order;
   * a string without the separator (the empty string included) is one piece.
   */
  function Split(s: string, sep: char): (parts: seq<string>)
    ensures |parts| >= 1
    decreases |s|
  {
    if s == [] then [[]]
    else
      var rest := Split(s[1..], sep);
      if s[0] == sep then [[]] + rest else [[s[0]] + rest[0]] + rest[1..]
  }

  /** `strings.Join(parts, string(sep))`. */
  function Join(parts: seq<string>, sep: char): string
    requires |parts| >= 1
    decreases |parts|
  {
    if |parts| == 1 then parts[0] else parts[0] + [sep] + Join(parts[1..], sep)
  }

  /** Splitting on a character gives one more piece than there are separators. */
  lemma {:induction false} SplitLength(s: string, sep: char)
    ensures |Split(s, sep)| == CountChar(s, sep) + 1
    decreases |s|
  {
    if s != [] {
      SplitLength(s[1..], sep);
    }
  }

  /** No piece of a split contains the separator. */
  lemma {:induction false} SplitPiecesFree(s: string, sep: char)
    ensures forall k :: 0 <= k < |Split(s, sep)| ==> CountChar(Split(s, sep)[k], sep) == 0
    decreases |s|
  {
    if s != [] {
      SplitPiecesFree(s[1..], sep);
      var rest := Split(s[1..], sep);
      if s[0] != sep {
        var head := [s[0]] + rest[0];
        assert head[1..] == rest[0];
      }
    }
  }

  /** Joining the pieces of a split with the same separator restores the string. */
  lemma {:induction false} JoinSplit(s: string, sep: char)
    ensures Join(Split(s, sep), sep) == s
    decreases |s|
  {
    if s != [] {
      JoinSplit(s[1..], sep);
      var rest := Split(s[1..], sep);
      if s[0] == sep {
        assert ([[]] + rest)[1..] == rest;
      } else {
        var parts := [[s[0]] + rest[0]] + rest[1..];
        if |rest| > 1 {
          assert parts[1..] == rest[1..];
          assert Join(rest, sep) == rest[0] + [sep] + Join(rest[1..], sep);
        }
      }
    }
  }
}

/**
 * Placeholder handling of a statement: counting the ordinal markers `$1`, `$2`, ...
 * at prepare time, and rewriting a query plus its arguments into the literal query
 * that is sent, either by ordinal `$N` markers or by anonymous `?` marks.
 */
module Placeholders {
  import opened Wrappers
  import opened Text
  import opened Values

  // ---------------------------------------------------------------------------
  // Counting ordinal markers (countArguments)
  // ---------------------------------------------------------------------------

  /** The text `$k` that the count looks for. */
  function Marker(k: nat): string {
    "$" + NatToString(k)
  }

  /** n is the placeholder count of the query: `$1` .. `$n` all occur and `$(n+1)` does not. */
  ghost predicate IsArgumentCount(query: string, n: nat) {
    && (forall k :: 1 <= k <= n ==> Occurs(Marker(k), query))
    && !Occurs(Marker(n + 1), query)
  }

  /** The count is unique: no two numbers are both the placeholder count of a query. */
  lemma ArgumentCountUnique(query: string, a: nat, b: nat)
    requires IsArgumentCount(query, a) && IsArgumentCount(query, b)
    ensures a == b
  {
  }

  /** A marker that occurs in the query has fewer digits than the query has characters. */
  lemma MarkerBound(query: string, k: nat)
    requires Occurs(Marker(k), query)
    ensures k < Pow10(|query|)
  {
    assert |Marker(k)| <= |query|;
    NatBelowPow10(k);
    Pow10Monotonic(|NatToString(k)|, |query|);
  }

  /** Tries `$1`, `$2`, ... in turn and stops at the first one absent from the query. */
  method CountArguments(query: string) returns (n: nat)
    ensures IsArgumentCount(query, n)
  {
    var id := 1;
    while Occurs(Marker(id), query)
      invariant 1 <= id <= Pow10(|query|)
      invariant forall k :: 1 <= k < id ==> Occurs(Marker(k), query)
      decreases Pow10(|query|) - id
    {
      MarkerBound(query, id);
      id := id + 1;
    }
    n := id - 1;
  }

  // ---------------------------------------------------------------------------
  // Matches of the pattern [^$]$[0-9]+
  // ---------------------------------------------------------------------------

  /**
   * One match of the pattern: `start` is the position of the character before the
   * `$`, `end` is one past the last digit.
   */
  datatype Match = Match(start: nat, end: nat)

  /** A match of the pattern can begin at position s. */
  predicate MarkerAt(q: string, s: nat) {
    s + 2 < |q| && q[s] != '$' && q[s + 1] == '$' && IsDigit(q[s + 2])
  }

  /** The end of the run of digits that starts at k (the `+` of the pattern is greedy). */
  function DigitRunEnd(q: string, k: nat): (e: nat)
    requires k <= |q|
    ensures k <= e <= |q|
    ensures forall j :: k <= j < e ==> IsDigit(q[j])
    ensures e == |q| || !IsDigit(q[e])
    decreases |q| - k
  {
    if k == |q| || !IsDigit(q[k]) then k else DigitRunEnd(q, k + 1)
  }

  /** m is a complete match: a non-`$` character, a `$`, and a maximal run of digits. */
  ghost predicate IsMatch(q: string, m: Match) {
    && m.start + 2 < m.end <= |q|
    && MarkerAt(q, m.start)
    && (forall j :: m.start + 2 <= j < m.end ==> IsDigit(q[j]))
    && (m.end == |q| || !IsDigit(q[m.end]))
  }

  /**
   * ms are spans of q of at least three characters, left to right, not overlapping,
   * all at or after `from`: the shape the rewrite relies on.
   */
  ghost predicate Spaced(q: string, ms: seq<Match>, from: nat)
    decreases |ms|
  {
    && from <= |q|
    && (ms != [] ==>
          from <= ms[0].start && ms[0].start + 2 < ms[0].end <= |q| && Spaced(q, ms[1..], ms[0].end))
  }

  /** ms are complete matches, left to right, not overlapping, all at or after `from`. */
  ghost predicate Ordered(q: string, ms: seq<Match>, from: nat) {
    && Spaced(q, ms, from)
    && (forall k :: 0 <= k < |ms| ==> IsMatch(q, ms[k]))
  }

  lemma SpacedFromEarlier(q: string, ms: seq<Match>, a: nat, b: nat)
    requires Spaced(q, ms, b) && a <= b
    ensures Spaced(q, ms, a)
  {
  }

  lemma SpacedTail(q: string, ms: seq<Match>, from: nat)
    requires Spaced(q, ms, from) && |ms| > 0
    ensures Spaced(q, ms[1..], ms[0].end)
  {
  }

  /**
   * `regexp.FindAllIndex` for the pattern, searching from position p: the leftmost
   * match, then the leftmost match after its end, and so on.
   */
  function FindMarkers(q: string, p: nat): (ms: seq<Match>)
    requires p <= |q|
    ensures Ordered(q, ms, p)
    decreases |q| - p
  {
    if p == |q| then []
    else if MarkerAt(q, p) then
      var e := DigitRunEnd(q, p + 2);
      [Match(p, e)] + FindMarkers(q, e)
    else
      FindMarkers(q, p + 1)
  }

  /**
   * Every place where the pattern could start is found, except one that overlaps a
   * found match; such a place is always the last digit of that match, directly
   * followed by another `$` (as in `$1$2`).
   */
  lemma {:induction false} FindMarkersComplete(q: string, p: nat, s: nat)
    requires p <= s && MarkerAt(q, s)
    ensures exists i :: (0 <= i < |FindMarkers(q, p)| &&
      (FindMarkers(q, p)[i].start == s || (FindMarkers(q, p)[i].end == s + 1 && q[s + 1] == '$')))
    decreases |q| - p
  {
    var ms := FindMarkers(q, p);
    if MarkerAt(q, p) {
      var e := DigitRunEnd(q, p + 2);
      assert ms == [Match(p, e)] + FindMarkers(q, e);
      if s == p {
        assert ms[0].start == s;
      } else if s < e {
        // s lies inside the digit run, so only its last digit can precede a `$`
        assert !IsDigit(q[s + 1]);
        assert s + 1 == e;
        assert ms[0].end == s + 1 && q[s + 1] == '$';
      } else {
        FindMarkersComplete(q, e, s);
        var i :| 0 <= i < |FindMarkers(q, e)| &&
          (FindMarkers(q, e)[i].start == s || (FindMarkers(q, e)[i].end == s + 1 && q[s + 1] == '$'));
        assert ms[i + 1] == FindMarkers(q, e)[i];
      }
    } else {
      assert s != p;
      FindMarkersComplete(q, p + 1, s);
    }
  }

  // ---------------------------------------------------------------------------
  // Ordinal mode
  // ---------------------------------------------------------------------------

  /** A panic raised while translating or parsing, as Go reports it. */
  datatype Panic =
    | IndexOutOfRange(index: int, length: nat) // `index out of range [index] with length length`
    | ConversionPanic(position: nat)           // `interface conversion: ... not string`

  /** Outcome of the translation: the literal query, or the panic it raised. */
  datatype Translation = Translated(text: string) | Panicked(panic: Panic)

  /**
   * The text the source hands to `strconv.Atoi` for a match. The source slices the
   * query by bytes and drops exactly one byte before the `$`, so this is the digits
   * when the character before the `$` is ASCII; otherwise the `$` (after any remaining
   * bytes of that character, which this model of strings cannot show) is left in front.
   */
  function IndexText(q: string, m: Match): string
    requires m.start + 2 <= m.end <= |q|
  {
    if q[m.start] as int < 0x80 then q[m.start + 2 .. m.end] else q[m.start + 1 .. m.end]
  }

  /** The argument number a match designates, or None when Atoi rejects its text. */
  function ParseIndex(q: string, m: Match): Option<int>
    requires m.start + 2 <= m.end <= |q|
  {
    if q[m.start] as int < 0x80 then AtoiIn(q, m.start + 2, m.end) else AtoiIn(q, m.start + 1, m.end)
  }

  /** ParseIndex is strconv.Atoi applied to the text the source slices out. */
  lemma ParseIndexIsAtoi(q: string, m: Match)
    requires m.start + 2 <= m.end <= |q|
    ensures ParseIndex(q, m) == Atoi(IndexText(q, m))
  {
    if q[m.start] as int < 0x80 {
      AtoiInSlice(q, m.start + 2, m.end);
    } else {
      AtoiInSlice(q, m.start + 1, m.end);
    }
  }

  /**
   * The argument numbers of a sequence of matches, in order. Splice reads them from
   * here, so that reasoning about the text around the matches never reopens Atoi.
   */
  function Indices(q: string, ms: seq<Match>, from: nat): (idx: seq<Option<int>>)
    requires Spaced(q, ms, from)
    ensures |idx| == |ms|
    decreases |ms|
  {
    if ms == [] then []
    else
      SpacedTail(q, ms, from);
      [ParseIndex(q, ms[0])] + Indices(q, ms[1..], ms[0].end)
  }

  /** The i-th index is the one read from the i-th match. */
  lemma {:induction false} IndicesAt(q: string, ms: seq<Match>, from: nat, i: nat)
    requires Spaced(q, ms, from) && i < |ms|
    ensures ms[i].start + 2 <= ms[i].end <= |q|
    ensures Indices(q, ms, from)[i] == ParseIndex(q, ms[i])
    decreases i
  {
    SpacedTail(q, ms, from);
    if i > 0 {
      IndicesAt(q, ms[1..], ms[0].end, i - 1);
    }
  }

  /** The indices do not depend on where the search started. */
  lemma {:induction false} IndicesAnyStart(q: string, ms: seq<Match>, a: nat, b: nat)
    requires Spaced(q, ms, a) && Spaced(q, ms, b)
    ensures Indices(q, ms, a) == Indices(q, ms, b)
    decreases |ms|
  {
    if ms != [] {
      SpacedTail(q, ms, a);
    }
  }

  /** The text that replaces an ordinal marker. */
  function OrdinalValue(v: Value): string {
    if v.Nil? then "null" else "$$" + Render(v) + "$$"
  }

  /** The replacement text for each argument, in order. */
  function OrdinalValues(args: seq<Value>): (vals: seq<string>)
    ensures |vals| == |args|
    ensures forall k :: 0 <= k < |args| ==> vals[k] == OrdinalValue(args[k])
  {
    seq(|args|, k requires 0 <= k < |args| => OrdinalValue(args[k]))
  }

  /** Outcome of rewriting a suffix of the query. */
  datatype Spliced =
    | Done(text: string) // the rewritten suffix
    | Aborted            // an index could not be read: the whole query goes out unchanged
    | Failed(panic: Panic)

  /** Puts text in front of a rewritten suffix; failures pass through. */
  function Prefix(text: string, s: Spliced): Spliced {
    if s.Done? then Done(text + s.text) else s
  }

  lemma PrefixTwice(a: string, b: string, s: Spliced)
    ensures Prefix(a, Prefix(b, s)) == Prefix(a + b, s)
  {
    if s.Done? {
      AppendAssociative(a, b, s.text);
    }
  }

  /**
   * Rewrites q from position `from` using the remaining matches ms and their indices
   * idx, in order: the text up to and including each match's first character is kept,
   * its `$N` is replaced by the value of argument N, and the text after the last match
   * is kept.
   */
  function Splice(q: string, ms: seq<Match>, idx: seq<Option<int>>, from: nat, vals: seq<string>): Spliced
    requires Spaced(q, ms, from) && |idx| == |ms|
    decreases |ms|
  {
    if ms == [] then Done(q[from..])
    else
      var m := ms[0];
      match idx[0]
      case None => Aborted
      case Some(n) =>
        if n < 1 || n > |vals| then Failed(IndexOutOfRange(n - 1, |vals|))
        else
          SpacedTail(q, ms, from);
          Prefix(q[from .. m.start + 1] + vals[n - 1], Splice(q, ms[1..], idx[1..], m.end, vals))
  }

  /** What replaceArguments returns once the rewrite of the matches has an outcome. */
  function Outcome(q: string, s: Spliced): Translation {
    match s
    case Done(text) => Translated(text)
    case Aborted => Translated(q)
    case Failed(p) => Panicked(p)
  }

  /** The ordinal translation of a query: the second half of replaceArguments. */
  function Ordinal(q: string, args: seq<Value>): Translation {
    var ms := FindMarkers(q, 0);
    if ms == [] then Panicked(IndexOutOfRange(-1, 0))
    else Outcome(q, Splice(q, ms, Indices(q, ms, 0), 0, OrdinalValues(args)))
  }

  /**
   * An independent, one-pass definition of the ordinal rewrite: walk the query left to
   * right, and wherever the pattern starts, keep its first character, replace the
   * marker and resume after its digits.
   */
  function Rewrite(q: string, p: nat, vals: seq<string>): Spliced
    requires p <= |q|
    decreases |q| - p
  {
    if p == |q| then Done([])
    else if MarkerAt(q, p) then
      var e := DigitRunEnd(q, p + 2);
      match ParseIndex(q, Match(p, e))
      case None => Aborted
      case Some(n) =>
        if n < 1 || n > |vals| then Failed(IndexOutOfRange(n - 1, |vals|))
        else Prefix([q[p]] + vals[n - 1], Rewrite(q, e, vals))
    else
      Prefix([q[p]], Rewrite(q, p + 1, vals))
  }

  /** One step of Splice, when the first match designates an argument. */
  lemma SpliceStep(q: string, ms: seq<Match>, idx: seq<Option<int>>, from: nat, vals: seq<string>, n: int)
    requires Spaced(q, ms, from) && |idx| == |ms| && ms != []
    requires idx[0] == Some(n) && 1 <= n <= |vals|
    ensures Spaced(q, ms[1..], ms[0].end)
    ensures Splice(q, ms, idx, from, vals) ==
      Prefix(q[from .. ms[0].start + 1] + vals[n - 1], Splice(q, ms[1..], idx[1..], ms[0].end, vals))
  {
    SpacedTail(q, ms, from);
  }

  /** Starting one character earlier only adds that character in front. */
  lemma SpliceFromEarlier(q: string, ms: seq<Match>, idx: seq<Option<int>>, p: nat, vals: seq<string>)
    requires p < |q| && Spaced(q, ms, p + 1) && |idx| == |ms|
    ensures Spaced(q, ms, p)
    ensures Splice(q, ms, idx, p, vals) == Prefix([q[p]], Splice(q, ms, idx, p + 1, vals))
  {
    SpacedFromEarlier(q, ms, p, p + 1);
    if ms == [] {
      assert q[p..] == [q[p]] + q[p + 1..];
    } else if idx[0].Some? && 1 <= idx[0].value <= |vals| {
      SpliceStepFromEarlier(q, ms, idx, p, vals, idx[0].value);
    }
  }

  lemma SpliceStepFromEarlier(q: string, ms: seq<Match>, idx: seq<Option<int>>, p: nat, vals: seq<string>, n: int)
    requires p < |q| && Spaced(q, ms, p + 1) && |idx| == |ms| && ms != []
    requires idx[0] == Some(n) && 1 <= n <= |vals|
    ensures Spaced(q, ms, p)
    ensures Splice(q, ms, idx, p, vals) == Prefix([q[p]], Splice(q, ms, idx, p + 1, vals))
  {
    SpacedFromEarlier(q, ms, p, p + 1);
    var m := ms[0];
    SpliceStep(q, ms, idx, p, vals, n);
    SpliceStep(q, ms, idx, p + 1, vals, n);
    var rest := Splice(q, ms[1..], idx[1..], m.end, vals);
    var v := vals[n - 1];
    assert q[p .. m.start + 1] == [q[p]] + q[p + 1 .. m.start + 1];
    AppendAssociative([q[p]], q[p + 1 .. m.start + 1], v);
    PrefixTwice([q[p]], q[p + 1 .. m.start + 1] + v, rest);
  }

  /** Finding all matches first and splicing afterwards agrees with the one-pass rewrite. */
  lemma {:induction false} SpliceIsRewrite(q: string, p: nat, vals: seq<string>)
    requires p <= |q|
    ensures Splice(q, FindMarkers(q, p), Indices(q, FindMarkers(q, p), p), p, vals) == Rewrite(q, p, vals)
    decreases |q| - p
  {
    if p < |q| {
      var ms := FindMarkers(q, p);
      if MarkerAt(q, p) {
        var e := DigitRunEnd(q, p + 2);
        assert ms[0] == Match(p, e) && ms[1..] == FindMarkers(q, e);
        assert q[p .. p + 1] == [q[p]];
        SpliceIsRewrite(q, e, vals);
      } else {
        SpliceIsRewrite(q, p + 1, vals);
        SpacedFromEarlier(q, ms, p, p + 1);
        IndicesAnyStart(q, ms, p, p + 1);
        SpliceFromEarlier(q, ms, Indices(q, ms, p), p, vals);
      }
    }
  }

  /** Where the text to copy before match i starts: 0, or the end of match i - 1. */
  function PrevEnd(ms: seq<Match>, i: nat): nat
    requires i <= |ms|
  {
    if i == 0 then 0 else ms[i - 1].end
  }

  lemma {:induction false} SpacedSuffix(q: string, ms: seq<Match>, i: nat)
    requires Spaced(q, ms, 0) && i <= |ms|
    ensures Spaced(q, ms[i..], PrevEnd(ms, i))
  {
    if i > 0 {
      SpacedSuffix(q, ms, i - 1);
      assert ms[i - 1..][1..] == ms[i..];
    }
  }

  /** Splice over the matches from index i on, unfolded once. */
  lemma SpliceAt(q: string, ms: seq<Match>, idx: seq<Option<int>>, i: nat, vals: seq<string>, n: int)
    requires Spaced(q, ms, 0) && |idx| == |ms| && i < |ms|
    requires idx[i] == Some(n) && 1 <= n <= |vals|
    ensures Spaced(q, ms[i..], PrevEnd(ms, i)) && Spaced(q, ms[i + 1..], PrevEnd(ms, i + 1))
    ensures Splice(q, ms[i..], idx[i..], PrevEnd(ms, i), vals) ==
      Prefix(q[PrevEnd(ms, i) .. ms[i].start + 1] + vals[n - 1],
             Splice(q, ms[i + 1..], idx[i + 1..], PrevEnd(ms, i + 1), vals))
  {
    SpacedSuffix(q, ms, i);
    SpacedSuffix(q, ms, i + 1);
    assert ms[i..][0] == ms[i] && ms[i..][1..] == ms[i + 1..];
    assert idx[i..][0] == idx[i] && idx[i..][1..] == idx[i + 1..];
    SpliceStep(q, ms[i..], idx[i..], PrevEnd(ms, i), vals, n);
  }

  /** The facts about match i (and the text before it) that Spaced(q, ms, 0) holds. */
  lemma {:induction false} SpacedAt(q: string, ms: seq<Match>, i: nat)
    requires Spaced(q, ms, 0) && i <= |ms|
    ensures PrevEnd(ms, i) <= |q|
    ensures i < |ms| ==> PrevEnd(ms, i) <= ms[i].start && ms[i].start + 2 < ms[i].end <= |q|
  {
    SpacedSuffix(q, ms, i);
    if i < |ms| {
      assert ms[i..][0] == ms[i];
    }
  }

  /**
   * Splice from match i on, by position in ms: the shape of replaceArguments' loop,
   * which walks allloc by index and slices from the end of the previous match.
   */
  ghost function SpliceFrom(q: string, ms: seq<Match>, idx: seq<Option<int>>, i: nat, vals: seq<string>): Spliced
    requires Spaced(q, ms, 0) && |idx| == |ms| && i <= |ms|
    decreases |ms| - i
  {
    SpacedAt(q, ms, i);
    if i == |ms| then Done(q[PrevEnd(ms, i)..])
    else
      match idx[i]
      case None => Aborted
      case Some(n) =>
        if n < 1 || n > |vals| then Failed(IndexOutOfRange(n - 1, |vals|))
        else Prefix(q[PrevEnd(ms, i) .. ms[i].start + 1] + vals[n - 1], SpliceFrom(q, ms, idx, i + 1, vals))
  }

  /** One step of SpliceFrom, when match i designates argument n. */
  lemma SpliceFromStep(q: string, ms: seq<Match>, idx: seq<Option<int>>, i: nat, vals: seq<string>, n: int)
    requires Spaced(q, ms, 0) && |idx| == |ms| && i < |ms|
    requires idx[i] == Some(n) && 1 <= n <= |vals|
    ensures PrevEnd(ms, i) <= ms[i].start && ms[i].start + 2 < ms[i].end <= |q|
    ensures SpliceFrom(q, ms, idx, i, vals) ==
      Prefix(q[PrevEnd(ms, i) .. ms[i].start + 1] + vals[n - 1], SpliceFrom(q, ms, idx, i + 1, vals))
  {
    SpacedAt(q, ms, i);
  }

  /** The loop's step: the segment of match i moves from the rewritten rest to the text built. */
  lemma SpliceFromAdvance(q: string, ms: seq<Match>, idx: seq<Option<int>>, i: nat, vals: seq<string>, n: int,
                          replaced: string)
    requires Spaced(q, ms, 0) && |idx| == |ms| && i < |ms|
    requires idx[i] == Some(n) && 1 <= n <= |vals|
    ensures PrevEnd(ms, i) <= ms[i].start && ms[i].start + 2 < ms[i].end <= |q|
    ensures Prefix(replaced + (q[PrevEnd(ms, i) .. ms[i].start + 1] + vals[n - 1]),
                   SpliceFrom(q, ms, idx, i + 1, vals))
         == Prefix(replaced, SpliceFrom(q, ms, idx, i, vals))
  {
    SpliceFromStep(q, ms, idx, i, vals, n);
    PrefixTwice(replaced, q[PrevEnd(ms, i) .. ms[i].start + 1] + vals[n - 1],
                SpliceFrom(q, ms, idx, i + 1, vals));
  }

  /** Walking the matches by position is splicing the suffix of matches from i on. */
  lemma {:induction false} SpliceFromIsSplice(q: string, ms: seq<Match>, idx: seq<Option<int>>, i: nat, vals: seq<string>)
    requires Spaced(q, ms, 0) && |idx| == |ms| && i <= |ms|
    ensures Spaced(q, ms[i..], PrevEnd(ms, i))
    ensures SpliceFrom(q, ms, idx, i, vals) == Splice(q, ms[i..], idx[i..], PrevEnd(ms, i), vals)
    decreases |ms| - i
  {
    SpacedSuffix(q, ms, i);
    if i == |ms| {
      assert ms[i..] == [];
    } else {
      assert idx[i..][0] == idx[i];
      if idx[i].Some? && 1 <= idx[i].value <= |vals| {
        SpliceAt(q, ms, idx, i, vals, idx[i].value);
        SpliceFromIsSplice(q, ms, idx, i + 1, vals);
      }
    }
  }

  /** The ordinal translation, stated by position. */
  lemma OrdinalByPosition(q: string, args: seq<Value>)
    ensures var ms := FindMarkers(q, 0);
      ms != [] ==> Ordinal(q, args) == Outcome(q, SpliceFrom(q, ms, Indices(q, ms, 0), 0, OrdinalValues(args)))
  {
    var ms := FindMarkers(q, 0);
    SpliceFromIsSplice(q, ms, Indices(q, ms, 0), 0, OrdinalValues(args));
    assert ms[0..] == ms && Indices(q, ms, 0)[0..] == Indices(q, ms, 0);
  }

  /** Rewriting the matches of the query one after another. */
  method ReplaceOrdinal(query: string, args: seq<Value>) returns (t: Translation)
    ensures t == Ordinal(query, args)
  {
    var allloc := FindMarkers(query, 0);
    ghost var idx := Indices(query, allloc, 0);
    ghost var vals := OrdinalValues(args);
    OrdinalByPosition(query, args);
    var replaced := "";
    var i := 0;
    while i < |allloc|
      invariant 0 <= i <= |allloc|
      invariant Prefix(replaced, SpliceFrom(query, allloc, idx, i, vals)) == SpliceFrom(query, allloc, idx, 0, vals)
    {
      IndicesAt(query, allloc, 0, i);
      var index := ParseIndex(query, allloc[i]);
      if index.None? {
        assert SpliceFrom(query, allloc, idx, i, vals) == Aborted;
        return Translated(query);
      }
      var n := index.value;
      if n < 1 || n > |args| {
        assert SpliceFrom(query, allloc, idx, i, vals) == Failed(IndexOutOfRange(n - 1, |args|));
        return Panicked(IndexOutOfRange(n - 1, |args|));
      }
      var v := OrdinalValue(args[n - 1]);
      SpliceFromAdvance(query, allloc, idx, i, vals, n, replaced);
      var segment := query[PrevEnd(allloc, i) .. allloc[i].start + 1] + v;
      replaced := replaced + segment;
      i := i + 1;
    }
    if |allloc| == 0 {
      return Panicked(IndexOutOfRange(-1, 0));
    }
    SpacedAt(query, allloc, i);
    assert SpliceFrom(query, allloc, idx, i, vals) == Done(query[PrevEnd(allloc, i)..]);
    replaced := replaced + query[allloc[|allloc| - 1].end..];
    t := Translated(replaced);
  }

  // ---------------------------------------------------------------------------
  // Anonymous (ODBC) mode
  // ---------------------------------------------------------------------------

  /**
   * The text that replaces a `?`: the `%v` rendering, with a string wrapped in `$$`
   * unless the whole query ends in a single quote.
   */
  function AnonymousValue(v: Value, quoted: bool): string {
    if v.Str? && !quoted then "$$" + Render(v) + "$$" else Render(v)
  }

  function AnonymousValues(query: string, args: seq<Value>): (vals: seq<string>)
    ensures |vals| == |args|
  {
    var quoted := HasSuffix(query, "'");
    seq(|args|, i requires 0 <= i < |args| => AnonymousValue(args[i], quoted))
  }

  /** parts[0], vals[0], parts[1], vals[1], ..., parts[n] concatenated. */
  function Interleave(parts: seq<string>, vals: seq<string>): string
    requires |parts| == |vals| + 1
    decreases |vals|
  {
    if vals == [] then parts[0] else parts[0] + vals[0] + Interleave(parts[1..], vals[1..])
  }

  lemma {:induction false} InterleaveSnoc(parts: seq<string>, vals: seq<string>, v: string, p: string)
    requires |parts| == |vals| + 1
    ensures Interleave(parts + [p], vals + [v]) == Interleave(parts, vals) + v + p
    decreases |vals|
  {
    if vals == [] {
      assert (parts + [p])[1..] == [p];
    } else {
      assert (parts + [p])[1..] == parts[1..] + [p];
      assert (vals + [v])[1..] == vals[1..] + [v];
      InterleaveSnoc(parts[1..], vals[1..], v, p);
    }
  }

  /** The reference meaning: each `?` of q, left to right, replaced by the next value. */
  function FillMarks(q: string, vals: seq<string>): string
    requires |vals| == CountChar(q, '?')
    decreases |q|
  {
    if q == [] then []
    else if q[0] == '?' then vals[0] + FillMarks(q[1..], vals[1..])
    else [q[0]] + FillMarks(q[1..], vals)
  }

  /** A character put in front of the first piece ends up in front of the whole. */
  lemma InterleaveCons(c: char, parts: seq<string>, vals: seq<string>)
    requires |parts| == |vals| + 1
    ensures Interleave([[c] + parts[0]] + parts[1..], vals) == [c] + Interleave(parts, vals)
  {
    var longer := [[c] + parts[0]] + parts[1..];
    if vals != [] {
      assert longer[1..] == parts[1..];
      var tail := Interleave(parts[1..], vals[1..]);
      AppendAssociative([c], parts[0], vals[0]);
      AppendAssociative([c], parts[0] + vals[0], tail);
    }
  }

  /** Interleaving the pieces of `Split(q, '?')` with the values fills the marks in order. */
  lemma {:induction false} InterleaveSplitIsFill(q: string, vals: seq<string>)
    requires |vals| == CountChar(q, '?')
    ensures |Split(q, '?')| == |vals| + 1
    ensures Interleave(Split(q, '?'), vals) == FillMarks(q, vals)
    decreases |q|
  {
    SplitLength(q, '?');
    if q != [] {
      var rest := Split(q[1..], '?');
      SplitLength(q[1..], '?');
      if q[0] == '?' {
        InterleaveSplitIsFill(q[1..], vals[1..]);
        assert ([[]] + rest)[1..] == rest;
      } else {
        InterleaveSplitIsFill(q[1..], vals);
        InterleaveCons(q[0], rest, vals);
      }
    }
  }

  /** With no `?` in the query, filling the marks leaves it as it is. */
  lemma {:induction false} FillNothing(q: string)
    requires CountChar(q, '?') == 0
    ensures FillMarks(q, []) == q
    decreases |q|
  {
    if q != [] {
      FillNothing(q[1..]);
    }
  }

  /** Filling every mark with `?` again gives the query back: no text is lost. */
  lemma {:induction false} FillWithMarksIsIdentity(q: string, vals: seq<string>)
    requires |vals| == CountChar(q, '?')
    requires forall i :: 0 <= i < |vals| ==> vals[i] == "?"
    ensures FillMarks(q, vals) == q
    decreases |q|
  {
    if q != [] {
      if q[0] == '?' {
        FillWithMarksIsIdentity(q[1..], vals[1..]);
      } else {
        FillWithMarksIsIdentity(q[1..], vals);
      }
    }
  }

  /** replaceArgumentsODBC: splits on `?` and appends one value and one piece per argument. */
  method ReplaceAnonymous(query: string, args: seq<Value>) returns (r: string)
    requires CountChar(query, '?') == |args|
    ensures r == FillMarks(query, AnonymousValues(query, args))
  {
    var parts := Split(query, '?');
    SplitLength(query, '?');
    ghost var vals := AnonymousValues(query, args);
    var quoted := HasSuffix(query, "'");
    r := parts[0];
    for i := 0 to |args|
      invariant r == Interleave(parts[..i + 1], vals[..i])
    {
      var arg := Render(args[i]);
      if args[i].Str? && !quoted {
        arg := "$$" + arg + "$$";
      }
      assert arg == vals[i];
      assert parts[..i + 2] == parts[..i + 1] + [parts[i + 1]];
      assert vals[..i + 1] == vals[..i] + [vals[i]];
      InterleaveSnoc(parts[..i + 1], vals[..i], arg, parts[i + 1]);
      r := r + arg + parts[i + 1];
    }
    assert parts[..|args| + 1] == parts && vals[..|args|] == vals;
    InterleaveSplitIsFill(query, vals);
  }

  // ---------------------------------------------------------------------------
  // replaceArguments
  // ---------------------------------------------------------------------------

  /** Anonymous mode when the number of `?` equals the number of arguments, ordinal otherwise. */
  function Translate(query: string, args: seq<Value>): (t: Translation)
    ensures CountChar(query, '?') == |args| ==> t.Translated?
  {
    if CountChar(query, '?') == |args| then Translated(FillMarks(query, AnonymousValues(query, args)))
    else Ordinal(query, args)
  }

  method ReplaceArguments(query: string, args: seq<Value>) returns (t: Translation)
    ensures t == Translate(query, args)
    ensures CountChar(query, '?') == |args| ==> t == Translated(FillMarks(query, AnonymousValues(query, args)))
    ensures CountChar(query, '?') != |args| ==> t == Ordinal(query, args)
  {
    if CountChar(query, '?') == |args| {
      var r := ReplaceAnonymous(query, args);
      return Translated(r);
    }
    t := ReplaceOrdinal(query, args);
  }

  /** With no `?` and no arguments the query goes out as written. */
  lemma NoArgumentsKeepQuery(q: string)
    requires CountChar(q, '?') == 0
    ensures Translate(q, []) == Translated(q)
  {
    FillNothing(q);
    assert AnonymousValues(q, []) == [];
  }

  /** The anonymous output is the pieces between `?` marks with a value between each two. */
  lemma AnonymousIsInterleave(q: string, args: seq<Value>)
    requires CountChar(q, '?') == |args|
    ensures |Split(q, '?')| == |args| + 1
    ensures Translate(q, args) == Translated(Interleave(Split(q, '?'), AnonymousValues(q, args)))
  {
    InterleaveSplitIsFill(q, AnonymousValues(q, args));
  }

  /** A query in which the pattern never matches fails on `allloc[-1]`. */
  lemma NoMatchPanics(q: string, args: seq<Value>)
    requires forall s :: !MarkerAt(q, s)
    requires CountChar(q, '?') != |args|
    ensures Translate(q, args) == Panicked(IndexOutOfRange(-1, 0))
  {
    var ms := FindMarkers(q, 0);
    assert ms != [] ==> IsMatch(q, ms[0]);
  }

  /** The ordinal path, stated by the one-pass rewrite. */
  lemma OrdinalIsRewrite(q: string, args: seq<Value>)
    ensures FindMarkers(q, 0) == [] ==> Ordinal(q, args) == Panicked(IndexOutOfRange(-1, 0))
    ensures FindMarkers(q, 0) != [] ==> Ordinal(q, args) == Outcome(q, Rewrite(q, 0, OrdinalValues(args)))
  {
    SpliceIsRewrite(q, 0, OrdinalValues(args));
  }

  // Worked cases of replaceArguments.

  /** Where the pattern starts at p, the first match found from p is the one at p. */
  lemma FirstMatchAt(q: string, p: nat)
    requires p <= |q| && MarkerAt(q, p)
    ensures FindMarkers(q, p) != [] && FindMarkers(q, p)[0] == Match(p, DigitRunEnd(q, p + 2))
  {
  }

  /** The one-pass rewrite at a match whose index designates argument n. */
  lemma RewriteMatchAt(q: string, p: nat, vals: seq<string>, n: int)
    requires p <= |q| && MarkerAt(q, p)
    requires ParseIndex(q, Match(p, DigitRunEnd(q, p + 2))) == Some(n) && 1 <= n <= |vals|
    ensures Rewrite(q, p, vals) == Prefix([q[p]] + vals[n - 1], Rewrite(q, DigitRunEnd(q, p + 2), vals))
  {
  }

  /** A marker at offset 0 has no character before it, so nothing matches. */
  lemma MarkerAtStartIsNotReplaced()
    ensures Translate("$1", [Int(5)]) == Panicked(IndexOutOfRange(-1, 0))
  {
    NoMatchPanics("$1", [Int(5)]);
  }

  /** A marker after `$` is not matched either. */
  lemma MarkerAfterDollarIsNotReplaced()
    ensures Translate("a$$1", [Int(5)]) == Panicked(IndexOutOfRange(-1, 0))
  {
    var q := "a$$1";
    assert !MarkerAt(q, 0) && !MarkerAt(q, 1);
    NoMatchPanics(q, [Int(5)]);
  }

  /** A nil argument becomes `null`; the character before the marker stays. */
  lemma NilBecomesNull()
    ensures Translate("a$1", [Nil]) == Translated("anull")
  {
    assert "a" + "null" == "anull";
    var q := "a$1";
    var vals := OrdinalValues([Nil]);
    assert vals[0] == "null";
    assert CountChar(q, '?') == 0;
    OrdinalIsRewrite(q, [Nil]);
    SingleMarker(vals);
  }

  /** The one match of `a$1` is replaced by the first argument's text. */
  lemma SingleMarker(vals: seq<string>)
    requires |vals| >= 1
    ensures FindMarkers("a$1", 0) != []
    ensures Rewrite("a$1", 0, vals) == Done("a" + vals[0])
  {
    var q := "a$1";
    assert MarkerAt(q, 0) && DigitRunEnd(q, 2) == 3;
    FirstMatchAt(q, 0);
    assert ParseIndex(q, Match(0, 3)) == Some(1);
    RewriteMatchAt(q, 0, vals, 1);
    assert [q[0]] == "a";
    assert Rewrite(q, 3, vals) == Done([]);
    assert "a" + vals[0] + [] == "a" + vals[0];
  }

  /** The text after the first match of `a$1$2` has no match of its own. */
  lemma AdjacentTail(vals: seq<string>)
    ensures Rewrite("a$1$2", 3, vals) == Done("$2")
  {
    var q := "a$1$2";
    assert !MarkerAt(q, 3) && !MarkerAt(q, 4);
    assert Rewrite(q, 5, vals) == Done([]);
    assert Rewrite(q, 4, vals) == Done("2");
  }

  lemma AdjacentHead(vals: seq<string>)
    requires |vals| >= 1
    ensures FindMarkers("a$1$2", 0) != []
    ensures Rewrite("a$1$2", 0, vals) == Prefix("a" + vals[0], Rewrite("a$1$2", 3, vals))
  {
    var q := "a$1$2";
    assert MarkerAt(q, 0) && DigitRunEnd(q, 2) == 3;
    FirstMatchAt(q, 0);
    assert ParseIndex(q, Match(0, 3)) == Some(1);
    RewriteMatchAt(q, 0, vals, 1);
    assert [q[0]] == "a";
  }

  /** In `$1$2` the first match swallows the `1`, so `$2` has no free character before it. */
  lemma AdjacentMarkers()
    ensures Translate("a$1$2", [Str("x"), Str("y")]) == Translated("a$$x$$$2")
  {
    assert "a" + "$$x$$" + "$2" == "a$$x$$$2";
    var q := "a$1$2";
    var vals := OrdinalValues([Str("x"), Str("y")]);
    assert vals[0] == "$$x$$";
    assert CountChar(q, '?') == 0;
    OrdinalIsRewrite(q, [Str("x"), Str("y")]);
    AdjacentHead(vals);
    AdjacentTail(vals);
  }

  /** `$0` designates no argument: index -1 is out of range. */
  lemma IndexZeroPanics()
    ensures Translate("a$0", [Nil, Nil]) == Panicked(IndexOutOfRange(-1, 2))
  {
    var q := "a$0";
    assert CountChar(q, '?') == 0;
    OrdinalIsRewrite(q, [Nil, Nil]);
    assert MarkerAt(q, 0) && DigitRunEnd(q, 2) == 3;
    FirstMatchAt(q, 0);
    assert ParseIndex(q, Match(0, 3)) == Some(0);
  }

  /**
   * Before a multi-byte character the byte slice handed to Atoi starts with a
   * continuation byte or with the `$`, Atoi rejects it and the query goes out unchanged.
   */
  lemma WidePredecessorKeepsQuery()
    ensures Translate("\U{e9}$1", [Int(5)]) == Translated("\U{e9}$1")
  {
    var q := "\U{e9}$1";
    assert CountChar(q, '?') == 0;
    OrdinalIsRewrite(q, [Int(5)]);
    assert MarkerAt(q, 0) && DigitRunEnd(q, 2) == 3;
    FirstMatchAt(q, 0);
    assert ParseIndex(q, Match(0, 3)) == None;
  }

  /** Strings are wrapped in `$$` unless the query ends in a quote; nil prints as `<nil>`. */
  lemma QuotedQueryLeavesStringsBare()
    ensures Translate("'?'", [Str("x")]) == Translated("'x'")
  {
    var q := "'?'";
    assert HasSuffix(q, "'") && CountChar(q, '?') == 1;
    assert AnonymousValues(q, [Str("x")]) == ["x"];
  }

  lemma UnquotedQueryWrapsStrings()
    ensures Translate("?", [Str("x")]) == Translated("$$x$$")
  {
    var q := "?";
    assert !HasSuffix(q, "'") && CountChar(q, '?') == 1;
    assert "$$" + "x" + "$$" == "$$x$$";
    assert AnonymousValues(q, [Str("x")])[0] == "$$x$$";
  }

  lemma AnonymousNilIsPrinted()
    ensures Translate("?", [Nil]) == Translated("<nil>")
  {
    var q := "?";
    assert !HasSuffix(q, "'") && CountChar(q, '?') == 1;
    var vals := AnonymousValues(q, [Nil]);
    assert vals[0] == "<nil>";
    assert FillMarks(q, vals) == vals[0] + FillMarks([], vals[1..]) == "<nil>";
    assert Translate(q, [Nil]) == Translated(FillMarks(q, vals));
  }
}

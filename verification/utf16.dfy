/** Slicing and truncating UTF-16 text without cutting a surrogate pair. */
module Utf16 {
  import opened Basics

  type CodeUnit = c: int | 0 <= c <= 0xFFFF

  predicate IsHigh(c: CodeUnit) { 0xD800 <= c <= 0xDBFF }
  predicate IsLow(c: CodeUnit) { 0xDC00 <= c <= 0xDFFF }

  // The boundary before index k lies between the two halves of a pair.
  predicate SplitsPair(s: seq<CodeUnit>, k: int) {
    0 < k < |s| && IsHigh(s[k - 1]) && IsLow(s[k])
  }

  // A surrogate without its other half.
  predicate Lone(s: seq<CodeUnit>, i: nat)
    requires i < |s|
  {
    || (IsHigh(s[i]) && !SplitsPair(s, i + 1))
    || (IsLow(s[i]) && !SplitsPair(s, i))
  }

  ghost predicate WellFormed(s: seq<CodeUnit>) {
    forall i | 0 <= i < |s| :: !Lone(s, i)
  }

  // A bound counted from the end when negative, and kept within the text.
  function Clamp(length: nat, bound: int): (k: nat)
    ensures k <= length
  {
    if bound < 0 then (if length + bound < 0 then 0 else length + bound)
    else if bound < length then bound else length
  }

  function Lower(s: seq<CodeUnit>, start: int, end: Option<int>): (k: nat)
    ensures k <= Upper(s, start, end) <= |s|
  {
    var a, b := Clamp(|s|, start), if end.None? then |s| else Clamp(|s|, end.value);
    if b < a then b else a
  }

  function Upper(s: seq<CodeUnit>, start: int, end: Option<int>): nat {
    var a, b := Clamp(|s|, start), if end.None? then |s| else Clamp(|s|, end.value);
    if b < a then a else b
  }

  // The slice between two bounds in order, each moved inward when it splits a pair.
  function Between(s: seq<CodeUnit>, lower: nat, upper: nat): seq<CodeUnit>
    requires lower <= upper <= |s|
  {
    var from := if SplitsPair(s, lower) then lower + 1 else lower;
    var to := if SplitsPair(s, upper) then upper - 1 else upper;
    if from <= to then s[from..to] else []
  }

  function Slice(s: seq<CodeUnit>, start: int, end: Option<int>): seq<CodeUnit> {
    Between(s, Lower(s, start, end), Upper(s, start, end))
  }

  // sliceUtf16Safe; String.prototype.slice gives "" when its bounds cross.
  method SliceUtf16Safe(input: seq<CodeUnit>, start: int, end: Option<int>) returns (r: seq<CodeUnit>)
    ensures r == Slice(input, start, end)
  {
    var len := |input|;
    var from := Clamp(len, start);
    var to := if end.None? then len else Clamp(len, end.value);
    if to < from {
      from, to := to, from;
    }
    var lower, upper := from, to;
    if 0 < from < len {
      if IsLow(input[from]) && IsHigh(input[from - 1]) {
        from := from + 1;
      }
    }
    if 0 < to < len {
      if IsHigh(input[to - 1]) && IsLow(input[to]) {
        to := to - 1;
      }
    }
    r := if from <= to then input[from..to] else [];
    hide Clamp;
    assert r == Between(input, lower, upper);
  }

  function Truncate(s: seq<CodeUnit>, maxLength: int): seq<CodeUnit> {
    var limit := if maxLength < 0 then 0 else maxLength;
    if |s| <= limit then s else Slice(s, 0, Some(limit))
  }

  // ---- What a slice keeps ----

  // A slice is a stretch of the input inside the requested bounds, its lone surrogates are lone
  // in the input, and it covers every non-empty stretch between the bounds that cuts no pair.
  lemma {:induction false} SliceCutsNoPair(s: seq<CodeUnit>, start: int, end: Option<int>) returns (from: nat)
    ensures var r := Slice(s, start, end);
      && from + |r| <= |s| && r == s[from..from + |r|]
      && (r != [] ==> Lower(s, start, end) <= from && from + |r| <= Upper(s, start, end))
      && (forall i | 0 <= i < |r| :: Lone(r, i) ==> Lone(s, from + i))
      && (forall lo, hi | Lower(s, start, end) <= lo < hi <= Upper(s, start, end) ::
            !SplitsPair(s, lo) && !SplitsPair(s, hi) ==> from <= lo && hi <= from + |r|)
  {
    var lower, upper := Lower(s, start, end), Upper(s, start, end);
    var r := Slice(s, start, end);
    from := if r == [] then 0 else if SplitsPair(s, lower) then lower + 1 else lower;
    forall i | 0 <= i < |r| && Lone(r, i) ensures Lone(s, from + i) {
      LoneInside(s, from, r, i);
    }
  }

  // Between boundaries that cut no pair, a lone surrogate is one of the whole text.
  lemma {:induction false} LoneInside(s: seq<CodeUnit>, from: nat, r: seq<CodeUnit>, i: nat)
    requires from + |r| <= |s| && r == s[from..from + |r|] && i < |r| && Lone(r, i)
    requires !SplitsPair(s, from) && !SplitsPair(s, from + |r|)
    ensures Lone(s, from + i)
  {
    assert r[i] == s[from + i];
    if i + 1 < |r| { assert SplitsPair(r, i + 1) == SplitsPair(s, from + i + 1); }
    if 0 < i { assert SplitsPair(r, i) == SplitsPair(s, from + i); }
  }

  lemma {:induction false} SliceWellFormed(s: seq<CodeUnit>, start: int, end: Option<int>)
    requires WellFormed(s)
    ensures WellFormed(Slice(s, start, end))
  {
    var from := SliceCutsNoPair(s, start, end);
  }

  // Cutting at k loses the pair that k splits, and nothing else.
  lemma {:induction false} CutAt(s: seq<CodeUnit>, k: nat)
    requires k <= |s|
    ensures Slice(s, 0, Some(k)) + (if SplitsPair(s, k) then s[k - 1..k + 1] else []) + Slice(s, k, None) == s
  {
  }

  // A truncation is a prefix; it is one short of the limit exactly when the limit splits a pair.
  lemma {:induction false} TruncatePrefix(s: seq<CodeUnit>, maxLength: int)
    ensures var limit := if maxLength < 0 then 0 else maxLength;
      && Truncate(s, maxLength) <= s
      && |Truncate(s, maxLength)| == (if |s| <= limit then |s| else if SplitsPair(s, limit) then limit - 1 else limit)
  {
  }

  // Truncating twice is truncating to the smaller limit.
  lemma {:induction false} TruncateTwice(s: seq<CodeUnit>, n: int, m: int)
    ensures Truncate(Truncate(s, n), m) == Truncate(s, if n < m then n else m)
  {
  }

  // ---- The bounds ----

  // A negative bound counts from the end, one past an end is that end, no end is the end of the text, and the order of
  // the two does not matter.
  lemma {:induction false} SliceBounds(s: seq<CodeUnit>, start: int, end: int)
    ensures -|s| <= start < 0 ==> Slice(s, start, Some(end)) == Slice(s, |s| + start, Some(end))
    ensures start < -|s| ==> Slice(s, start, Some(end)) == Slice(s, 0, Some(end))
    ensures start > |s| ==> Slice(s, start, Some(end)) == Slice(s, |s|, Some(end))
    ensures Slice(s, start, None) == Slice(s, start, Some(|s|))
    ensures Slice(s, start, Some(end)) == Slice(s, end, Some(start))
  {
  }

  // Between bounds in order a slice is that stretch, less the half of a pair at either end.
  lemma {:induction false} SliceExactly(s: seq<CodeUnit>, from: nat, to: nat)
    requires from <= to <= |s|
    ensures var cutsFirst := 0 < from < |s| && 0xD800 <= s[from - 1] <= 0xDBFF && 0xDC00 <= s[from] <= 0xDFFF;
      var cutsLast := 0 < to < |s| && 0xD800 <= s[to - 1] <= 0xDBFF && 0xDC00 <= s[to] <= 0xDFFF;
      var a, b := if cutsFirst then from + 1 else from, if cutsLast then to - 1 else to;
      Slice(s, from, Some(to)) == if a <= b then s[a..b] else []
  {
  }
}

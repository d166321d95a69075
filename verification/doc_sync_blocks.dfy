/** Blocks that are apart in a document stay apart while the sync rewrites them. */
module DocSyncBlocks {
  import opened Basics
  import opened DocSync
  import opened DocSyncAll

  // ---- A text put before another ----

  // Nothing, or whole lines.
  ghost predicate WholeLines(x: string) { x == "" || x[|x| - 1] == '\n' }

  lemma {:induction false} IndexShift(x: string, k: string, part: string, from: nat)
    requires from <= |k|
    ensures var r := IndexOf(x + k, part, |x| + from);
      && r.Some? == IndexOf(k, part, from).Some?
      && (r.Some? ==> r.value == |x| + IndexOf(k, part, from).value)
    decreases |k| - from
  {
    OccursSuffix(x, k, part, from);
    if !OccursAt(k, part, from) && from < |k| { IndexShift(x, k, part, from + 1); }
  }

  lemma {:induction false} IndexSkip(text: string, part: string, from: nat, to: nat)
    requires from <= to <= |text| && forall j: nat | from <= j < to :: !OccursAt(text, part, j)
    ensures IndexOf(text, part, from) == IndexOf(text, part, to)
    decreases |text| - from
  {
    if from < to { IndexSkip(text, part, from + 1, to); }
  }

  lemma {:induction false} LineStartShift(x: string, k: string, at: nat)
    requires at <= |k| && WholeLines(x)
    ensures LineStart(x + k, |x| + at) == |x| + LineStart(k, at)
  {
    if at > 0 && k[at - 1] != '\n' { LineStartShift(x, k, at - 1); }
  }

  lemma {:induction false} LineEndShift(x: string, k: string, at: nat)
    requires at <= |k|
    ensures LineEnd(x + k, |x| + at) == |x| + LineEnd(k, at)
    decreases |k| - at
  {
    if at < |k| && k[at] != '\n' { LineEndShift(x, k, at + 1); }
  }

  // Whole lines without the start marker, put before a text, only lengthen what precedes its block.
  lemma {:induction false} FrameShift(x: string, k: string, b: Block)
    requires Usable(b) && WholeLines(x) && !Occurs(x, b.startMarker) && FrameIn(k, b).Found?
    ensures var f := FrameIn(k, b).frame; FrameIn(x + k, b) == Found(Frame(x + f.before, f.indent, f.after))
  {
    hide FrameOf;
    hide OccursAt;
    hide Occurs;
    hide IndexOf;
    hide LineStart;
    hide LineEnd;
    hide WholeLines;
    var t := x + k;
    var start, end := FrameAt(k, b.startMarker, b.endMarker);
    NoneAcross(x, k, b.startMarker);
    IndexSkip(t, b.startMarker, 0, |x|);
    IndexShift(x, k, b.startMarker, 0);
    IndexShift(x, k, b.endMarker, start);
    LineStartShift(x, k, start);
    LineEndShift(x, k, end);
    ShiftedParts(x, k, b, start, end);
  }

  lemma {:induction false} ShiftedParts(x: string, k: string, b: Block, start: nat, end: nat)
    requires Usable(b) && IndexOf(k, b.startMarker, 0) == Some(start) && IndexOf(k, b.endMarker, start) == Some(end)
    requires IndexOf(x + k, b.startMarker, 0) == Some(|x| + start)
    requires IndexOf(x + k, b.endMarker, |x| + start) == Some(|x| + end)
    requires LineStart(x + k, |x| + start) == |x| + LineStart(k, start)
    requires LineEnd(x + k, |x| + end) == |x| + LineEnd(k, end)
    ensures var from, to := LineStart(k, start), LineEnd(k, end);
      FrameIn(x + k, b) == Found(Frame(x + k[..from], k[from..start], k[to..]))
  {
    hide *;
    var from, to := LineStart(k, start), LineEnd(k, end);
    FoundAt(x + k, b, |x| + start, |x| + end, |x| + from, |x| + to);
    ConcatParts(x, k, from, start, to);
  }

  lemma {:induction false} ConcatParts(x: string, k: string, from: nat, start: nat, to: nat)
    requires from <= start <= |k| && to <= |k|
    ensures (x + k)[..|x| + from] == x + k[..from]
    ensures (x + k)[|x| + from..|x| + start] == k[from..start]
    ensures (x + k)[|x| + to..] == k[to..]
  {
  }

  lemma {:induction false} FoundAt(t: string, b: Block, start: nat, end: nat, from: nat, to: nat)
    requires Usable(b) && start <= |t| && IndexOf(t, b.startMarker, 0) == Some(start)
    requires IndexOf(t, b.endMarker, start) == Some(end)
    requires from == LineStart(t, start) && to == LineEnd(t, end)
    ensures FrameIn(t, b) == Found(Frame(t[..from], t[from..start], t[to..]))
  {
    hide LineStart;
    hide LineEnd;
    assert t[start] == t[start..start + |b.startMarker|][0] == b.startMarker[0];
    assert b.startMarker[0] in b.startMarker;
  }

  // A marker does not reach across the end of whole lines.
  lemma {:induction false} NoneAcross(x: string, k: string, part: string)
    requires Marker(part) && WholeLines(x) && !Occurs(x, part)
    ensures forall j: nat | j < |x| :: !OccursAt(x + k, part, j)
  {
    if x != "" {
      var init := x[..|x| - 1];
      assert x + k == init + "\n" + k;
      forall j: nat | j < |x| ensures !OccursAt(x + k, part, j) {
        if j + |part| <= |x| { OccursPrefix(x, k, part, j); } else { OccursAcross(init, k, part, j); }
      }
    }
  }

  // ---- Another text after the block ----

  // What follows the block's lines makes no difference to where it is found.
  lemma {:induction false} FrameBefore(t: string, r: string, b: Block, cut: nat)
    requires Usable(b) && FrameIn(t, b).Found? && |t| - |FrameIn(t, b).frame.after| <= cut < |t|
    requires cut <= |r| && r[..cut] == t[..cut]
    ensures var f := FrameIn(t, b).frame; var to := |t| - |f.after|;
      FrameIn(r, b) == Found(Frame(f.before, f.indent, r[to..]))
  {
    hide FrameOf;
    hide OccursAt;
    hide IndexOf;
    hide LineStart;
    hide LineEnd;
    var start, end := FrameAt(t, b.startMarker, b.endMarker);
    var to := LineEnd(t, end);
    EndAfterStart(t, b.startMarker, start, end);
    EndAfterStart(t, b.endMarker, end, end);
    assert |t| - |FrameIn(t, b).frame.after| == to;
    SameHead(t, r, to, cut);
    var head := t[..to];
    IndexInHead(t, r, head, b.startMarker, 0, start);
    IndexInHead(t, r, head, b.endMarker, start, end);
    LineStartAt(r, LineStart(t, start), start);
    LineEndAt(r, end, to - 1);
    FoundAt(r, b, start, end, LineStart(t, start), to);
    HeadParts(t, r, to, LineStart(t, start), start);
  }

  lemma {:induction false} SameHead(t: string, r: string, to: nat, cut: nat)
    requires to <= cut <= |t| && cut <= |r| && r[..cut] == t[..cut]
    ensures r[..to] == t[..to] && forall k | 0 <= k < to :: r[k] == t[k]
  {
    assert r[..cut][..to] == t[..cut][..to];
    assert forall k | 0 <= k < to :: r[k] == r[..to][k] == t[..to][k] == t[k];
  }

  lemma {:induction false} HeadParts(t: string, r: string, to: nat, from: nat, start: nat)
    requires from <= start <= to <= |t| && to <= |r| && r[..to] == t[..to]
    ensures r[..from] == t[..from] && r[from..start] == t[from..start]
  {
    assert r[..to][..from] == t[..to][..from];
    assert r[..to][from..start] == t[..to][from..start];
  }

  lemma {:induction false} IndexInHead(t: string, r: string, head: string, part: string, from: nat, i: nat)
    requires from <= |t| && IndexOf(t, part, from) == Some(i) && i + |part| <= |head|
    requires head <= t && head <= r
    ensures from <= |r| && IndexOf(r, part, from) == Some(i)
  {
    assert t == head + t[|head|..] && r == head + r[|head|..];
    forall j: nat | from <= j <= i ensures OccursAt(r, part, j) <==> OccursAt(t, part, j) {
      OccursPrefix(head, t[|head|..], part, j);
      OccursPrefix(head, r[|head|..], part, j);
    }
    FirstIndex(r, part, from, i);
  }

  // ---- Where a rewrite leaves the other blocks ----

  // The lines of a block in a text.
  function First(text: string, b: Block): int
    requires FrameIn(text, b).Found?
  {
    |FrameIn(text, b).frame.before|
  }

  function Past(text: string, b: Block): int
    requires FrameIn(text, b).Found?
  {
    |text| - |FrameIn(text, b).frame.after|
  }

  function Indent(text: string, b: Block): string
    requires FrameIn(text, b).Found?
  {
    FrameIn(text, b).frame.indent
  }

  lemma {:induction false} EarlierStays(text: string, b: Block, other: Block)
    requires Usable(b) && FrameIn(text, b).Found? && Usable(other) && FrameIn(text, other).Found?
    requires Past(text, b) <= First(text, other)
    ensures Rewrite(text, other).Replaced?
    ensures var r := Rewrite(text, other).text;
      && FrameIn(r, b).Found? && Indent(r, b) == Indent(text, b)
      && First(r, b) == First(text, b) && Past(r, b) == Past(text, b)
  {
    hide FrameIn;
    hide Rewrite;
    hide Shown;
    RewriteText(text, other);
    FrameInside(text, other);
    var r, cut := Rewrite(text, other).text, First(text, other);
    assert r[..cut] == FrameIn(text, other).frame.before;
    FrameInside(text, b);
    FrameBefore(text, r, b, cut);
  }

  lemma {:induction false} AfterLines(text: string, b: Block)
    requires Usable(b) && FrameIn(text, b).Found?
    ensures WholeLines(text[..Past(text, b)]) || Past(text, b) == |text|
  {
    hide FrameOf;
    hide OccursAt;
    hide IndexOf;
    hide LineStart;
    var start, end := FrameAt(text, b.startMarker, b.endMarker);
    EndAfterStart(text, b.startMarker, start, end);
    var to := LineEnd(text, end);
    hide LineEnd;
    assert Past(text, b) == to;
    assert to > 0 ==> text[..to][to - 1] == text[to - 1];
  }

  // The block is found in what is left of a text without some of the lines above it.
  lemma {:induction false} FoundInTail(x: string, k: string, b: Block)
    requires Usable(b) && WholeLines(x) && FrameIn(x + k, b).Found? && |x| <= First(x + k, b)
    ensures !Occurs(x, b.startMarker) && FrameIn(k, b).Found?
  {
    hide LineStart;
    hide LineEnd;
    var t := x + k;
    var start, end := FrameAt(t, b.startMarker, b.endMarker);
    assert |x| <= start by { assert LineStart(t, start) <= start; }
    forall j: nat ensures !OccursAt(x, b.startMarker, j) {
      if j + |b.startMarker| <= |x| { OccursPrefix(x, k, b.startMarker, j); }
    }
    IndexSkip(t, b.startMarker, 0, |x|);
    IndexShift(x, k, b.startMarker, 0);
    IndexShift(x, k, b.endMarker, start - |x|);
  }

  // Lines and a line without the marker, with its newline.
  lemma {:induction false} NoneInLine(lines: string, line: string, part: string)
    requires Marker(part) && WholeLines(lines) && !Occurs(lines, part) && !Occurs(line, part)
    ensures WholeLines(lines + line + "\n") && !Occurs(lines + line + "\n", part)
  {
    NoneInLines(lines, line, part);
    assert lines + line + "\n" == lines + line + "\n" + "";
    assert !Occurs("", part);
    OccursEitherSide(lines + line, "", part);
  }

  lemma {:induction false} LaterShifts(text: string, b: Block, other: Block)
    requires Usable(b) && FrameIn(text, b).Found? && Usable(other) && FrameIn(text, other).Found?
    requires Past(text, other) <= First(text, b)
    requires !Occurs(Shown(other, Indent(text, other)), b.startMarker)
    ensures Rewrite(text, other).Replaced?
    ensures var r := Rewrite(text, other).text; var d := |r| - |text|;
      && FrameIn(r, b).Found? && Indent(r, b) == Indent(text, b)
      && First(r, b) == First(text, b) + d && Past(r, b) == Past(text, b) + d
  {
    hide FrameIn;
    hide Rewrite;
    hide Shown;
    hide Occurs;
    hide WholeLines;
    var g := FrameIn(text, other).frame;
    var p, shown := Past(text, other), Shown(other, g.indent);
    FrameInside(text, b);
    FrameInside(text, other);
    AfterLines(text, other);
    RewriteText(text, other);
    var x, k := text[..p], text[p..];
    assert text == x + k && k == g.after && k != "";
    FoundInTail(x, k, b);
    FrameShift(x, k, b);
    LinesBefore(text, other, shown, b.startMarker);
    assert g.before + (shown + Tail(k)) == g.before + shown + "\n" + k;
    FrameShift(g.before + shown + "\n", k, b);
  }

  lemma {:induction false} LinesBefore(text: string, other: Block, shown: string, part: string)
    requires Usable(other) && FrameIn(text, other).Found? && Marker(part)
    requires !Occurs(text[..Past(text, other)], part) && !Occurs(shown, part)
    ensures var x := FrameIn(text, other).frame.before + shown + "\n";
      WholeLines(x) && !Occurs(x, part)
  {
    hide FrameIn;
    hide Occurs;
    FrameInside(text, other);
    var g := FrameIn(text, other).frame;
    assert g.before <= text[..Past(text, other)];
    NoneInPrefix(g.before, text[..Past(text, other)], part);
    NoneInLine(g.before, shown, part);
  }

  lemma {:induction false} NoneInPrefix(a: string, x: string, part: string)
    requires a <= x && !Occurs(x, part)
    ensures !Occurs(a, part)
  {
    assert x == a + x[|a|..];
    forall j: nat ensures !OccursAt(a, part, j) {
      if j + |part| <= |a| { OccursPrefix(a, x[|a|..], part, j); }
    }
  }

  lemma {:induction false} OwnLines(text: string, b: Block)
    requires Ready(text, b)
    ensures Rewrite(text, b).Replaced?
    ensures var r := Rewrite(text, b).text;
      && FrameIn(r, b).Found? && Indent(r, b) == Indent(text, b)
      && First(r, b) == First(text, b) && Past(r, b) == Past(text, b) + |r| - |text|
  {
    RewriteFrame(text, b.startMarker, b.endMarker, b.lines);
    hide EndsEarly;
    hide FrameOf;
    hide Rendered;
  }

  // ---- Blocks that are apart ----

  // The block is found, and what it is to show does not end it early.
  ghost predicate Ready(text: string, b: Block) {
    Usable(b) && FrameIn(text, b).Found? && !EndsEarly(b.startMarker, b.endMarker, b.lines, Indent(text, b))
  }

  // Two blocks do not overlap, and neither shows the other's start marker.
  ghost predicate ApartIn(text: string, b: Block, c: Block)
    requires FrameIn(text, b).Found? && FrameIn(text, c).Found?
  {
    && (Past(text, b) <= First(text, c) || Past(text, c) <= First(text, b))
    && !Occurs(Shown(b, Indent(text, b)), c.startMarker) && !Occurs(Shown(c, Indent(text, c)), b.startMarker)
  }

  ghost predicate AllApart(text: string, blocks: seq<Block>) {
    && (forall i | 0 <= i < |blocks| :: Ready(text, blocks[i]))
    && (forall i, j | 0 <= i < j < |blocks| :: ApartIn(text, blocks[i], blocks[j]))
  }

  // Where a block is after another one was rewritten.
  ghost predicate MovedAs(text: string, r: string, b: Block, other: Block)
    requires FrameIn(text, b).Found? && FrameIn(text, other).Found?
  {
    var d := |r| - |text|;
    && FrameIn(r, b).Found? && Indent(r, b) == Indent(text, b)
    && (if Past(text, b) <= First(text, other) then First(r, b) == First(text, b) && Past(r, b) == Past(text, b)
        else First(r, b) == First(text, b) + d && Past(r, b) == Past(text, b) + d)
  }

  lemma {:induction false} RewriteMoves(text: string, b: Block, other: Block)
    requires Ready(text, b) && Ready(text, other) && (ApartIn(text, b, other) || ApartIn(text, other, b))
    ensures Rewrite(text, other).Replaced? && MovedAs(text, Rewrite(text, other).text, b, other)
    ensures Ready(Rewrite(text, other).text, b)
  {
    hide FrameIn;
    hide Rewrite;
    hide Shown;
    hide Occurs;
    hide EndsEarly;
    if Past(text, b) <= First(text, other) {
      EarlierStays(text, b, other);
    } else {
      LaterShifts(text, b, other);
    }
  }

  // Every block has lines.
  lemma {:induction false} FirstBeforePast(text: string, b: Block)
    requires Usable(b) && FrameIn(text, b).Found?
    ensures First(text, b) < Past(text, b)
  {
    FrameInside(text, b);
  }

  // Rewriting one of the blocks leaves all of them found and apart.
  lemma {:induction false} ApartKept(text: string, blocks: seq<Block>, k: nat)
    requires AllApart(text, blocks) && k < |blocks|
    ensures Rewrite(text, blocks[k]).Replaced? && AllApart(Rewrite(text, blocks[k]).text, blocks)
  {
    hide FrameIn;
    hide Rewrite;
    hide Shown;
    hide Occurs;
    hide EndsEarly;
    var other := blocks[k];
    assert Ready(text, other);
    OwnLines(text, other);
    var r := Rewrite(text, other).text;
    forall i | 0 <= i < |blocks|
      ensures Ready(r, blocks[i])
      ensures i != k ==> MovedAs(text, r, blocks[i], other)
      ensures First(text, blocks[i]) < Past(text, blocks[i])
    {
      assert Ready(text, blocks[i]);
      FirstBeforePast(text, blocks[i]);
      if i != k {
        assert if i < k then ApartIn(text, blocks[i], other) else ApartIn(text, other, blocks[i]);
        RewriteMoves(text, blocks[i], other);
      }
    }
    FirstBeforePast(r, other);
    forall i, j | 0 <= i < j < |blocks| ensures ApartIn(r, blocks[i], blocks[j]) {
      assert ApartIn(text, blocks[i], blocks[j]);
      assert i != k ==> if i < k then ApartIn(text, blocks[i], other) else ApartIn(text, other, blocks[i]);
      assert j != k ==> if j < k then ApartIn(text, blocks[j], other) else ApartIn(text, other, blocks[j]);
      if i != k && j != k { PairKept(text, r, blocks[i], blocks[j], other); }
    }
  }

  lemma {:induction false} PairKept(text: string, r: string, b: Block, c: Block, other: Block)
    requires Ready(text, b) && Ready(text, c) && Ready(text, other) && Ready(r, other) && ApartIn(text, b, c)
    requires ApartIn(text, b, other) || ApartIn(text, other, b)
    requires ApartIn(text, c, other) || ApartIn(text, other, c)
    requires MovedAs(text, r, b, other) && MovedAs(text, r, c, other)
    requires First(r, other) == First(text, other) && Past(r, other) == Past(text, other) + |r| - |text|
    requires First(r, other) < Past(r, other)
    requires First(text, b) < Past(text, b) && First(text, c) < Past(text, c)
    ensures ApartIn(r, b, c)
  {
    hide FrameIn;
    hide Shown;
    hide Occurs;
    hide EndsEarly;
  }

  lemma {:induction false} ApartIndependent(text: string, done: seq<Block>, todo: seq<Block>)
    requires AllApart(text, done + todo)
    ensures Independent(text, done, todo)
    decreases |todo|
  {
    hide FrameIn;
    hide Rewrite;
    hide Shown;
    hide Occurs;
    hide EndsEarly;
    if todo != [] {
      var b, all := todo[0], done + todo;
      assert all[|done|] == b && Ready(text, b);
      forall d | d in done ensures FrameIn(text, d).Found? && Undisturbed(text, d, b) {
        var i :| 0 <= i < |done| && done[i] == d;
        assert all[i] == d && Ready(text, d);
        assert ApartIn(text, all[i], all[|done|]);
      }
      ApartKept(text, all, |done|);
      assert all == done + [b] + todo[1..];
      ApartIndependent(Rewrite(text, b).text, done + [b], todo[1..]);
    }
  }

  // Syncing a document in which the blocks are found, do not overlap, end where they should and show no start marker
  // of another succeeds, settles every block, and syncing it again changes nothing.
  lemma {:induction false} SyncDocumentTwice(text: string, blocks: seq<Block>)
    requires AllApart(text, blocks)
    ensures Sync(text, blocks).Replaced? && Sync(Sync(text, blocks).text, blocks) == Sync(text, blocks)
    ensures forall b | b in blocks :: Settled(Sync(text, blocks).text, b)
  {
    hide *;
    assert [] + blocks == blocks;
    ApartIndependent(text, [], blocks);
    SyncSettles(text, [], blocks);
    SyncTwice(text, blocks);
  }
}

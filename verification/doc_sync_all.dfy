/** The whole sync: several blocks of one document rewritten one after the other. */
module DocSyncAll {
  import opened DocSync

  datatype Block = Block(startMarker: string, endMarker: string, lines: seq<string>)

  function Rewrite(text: string, b: Block): Result { Replace(text, b.startMarker, b.endMarker, b.lines) }

  function FrameIn(text: string, b: Block): Search { FrameOf(text, b.startMarker, b.endMarker) }

  function Shown(b: Block, indent: string): string { Rendered(b.startMarker, b.endMarker, b.lines, indent) }

  // syncMoonshotDocs for one document: the first error ends it.
  function Sync(text: string, blocks: seq<Block>): Result
    decreases |blocks|
  {
    if blocks == [] then Replaced(text)
    else
      var once := Rewrite(text, blocks[0]);
      if once.Replaced? then Sync(once.text, blocks[1..]) else once
  }

  ghost predicate Usable(b: Block) { Marker(b.startMarker) && Marker(b.endMarker) }

  // The text is up to date in this block, and nothing in the block ends it early.
  ghost predicate Settled(text: string, b: Block) {
    && Usable(b) && FrameIn(text, b).Found?
    && !EndsEarly(b.startMarker, b.endMarker, b.lines, FrameIn(text, b).frame.indent)
    && Rewrite(text, b) == Replaced(text)
  }

  // No start marker stands before the head's end in a text that goes on with the marker.
  ghost predicate FirstAt(head: string, startMarker: string, rest: string) {
    forall j | 0 <= j < |head| :: !OccursAt(head + startMarker + rest, startMarker, j)
  }

  // A rendered block in a frame without earlier start marker is up to date.
  lemma {:induction false} ShownSettled(f: Frame, b: Block, rest: string)
    requires Usable(b) && '\n' !in f.indent && (f.before == "" || f.before[|f.before| - 1] == '\n')
    requires FirstAt(f.before + f.indent, b.startMarker, rest)
    requires !EndsEarly(b.startMarker, b.endMarker, b.lines, f.indent)
    ensures Settled(Assembled(f, Shown(b, f.indent)), b)
  {
    RewriteSearch(f, b.startMarker, b.endMarker, b.lines, rest);
    hide EndsEarly;
    hide Rendered;
    var text := Assembled(f, Shown(b, f.indent));
    hide Assembled;
    var start := |f.before + f.indent|;
    var end := IndexOf(text, b.endMarker, start).value;
    assert FrameOf(text, b.startMarker, b.endMarker) == Found(f) by {
      assert text[start] == text[start..start + |b.startMarker|][0] == b.startMarker[0];
      assert b.startMarker[0] in b.startMarker;
    }
  }

  // ---- Start markers elsewhere ----

  lemma {:induction false} FirstAfterNewline(before: string, head: string, startMarker: string, rest: string)
    requires Marker(startMarker) && !Occurs(before, startMarker) && FirstAt(head, startMarker, rest)
    ensures FirstAt(before + "\n" + head, startMarker, rest)
  {
    var all := head + startMarker + rest;
    var t := before + "\n" + head + startMarker + rest;
    assert t == before + "\n" + all;
    assert t == before + ("\n" + all);
    forall j: nat | j < |before + "\n" + head| ensures !OccursAt(t, startMarker, j) {
      if j + |startMarker| <= |before| {
        OccursPrefix(before, "\n" + all, startMarker, j);
      } else if j <= |before| {
        OccursAcross(before, all, startMarker, j);
      } else {
        OccursSuffix(before + "\n", all, startMarker, j - |before| - 1);
      }
    }
  }

  lemma {:induction false} FirstInTail(before: string, head: string, startMarker: string, rest: string)
    requires FirstAt(before + head, startMarker, rest)
    ensures FirstAt(head, startMarker, rest)
  {
    assert before + head + startMarker + rest == before + (head + startMarker + rest);
    forall j: nat | j < |head| ensures !OccursAt(head + startMarker + rest, startMarker, j) {
      OccursSuffix(before, head + startMarker + rest, startMarker, j);
    }
  }

  lemma {:induction false} NoneInHead(part: string, head: string, startMarker: string, rest: string)
    requires Marker(startMarker) && FirstAt(part + head, startMarker, rest)
    ensures !Occurs(part, startMarker)
  {
    assert part + head + startMarker + rest == part + (head + startMarker + rest);
    forall j: nat | j + |startMarker| <= |part| ensures !OccursAt(part, startMarker, j) {
      OccursPrefix(part, head + startMarker + rest, startMarker, j);
    }
  }

  // Lines that end with a newline, followed by a text, hold a marker only if one of the two does.
  lemma {:induction false} NoneInLines(lines: string, text: string, startMarker: string)
    requires Marker(startMarker) && (lines == "" || lines[|lines| - 1] == '\n')
    requires !Occurs(lines, startMarker) && !Occurs(text, startMarker)
    ensures !Occurs(lines + text, startMarker)
  {
    if lines == "" {
      assert lines + text == text;
    } else {
      var init := lines[..|lines| - 1];
      assert lines == init + "\n" && lines + text == init + "\n" + text;
      OccursEitherSide(init, text, startMarker);
      forall j: nat ensures !OccursAt(init, startMarker, j) {
        if j + |startMarker| <= |init| { OccursPrefix(init, "\n", startMarker, j); }
      }
    }
  }

  // ---- A rewrite elsewhere keeps a block up to date ----

  // A text up to date in a block, read as its frame around the rendered block.
  lemma {:induction false} SettledText(text: string, b: Block) returns (rest: string)
    requires Settled(text, b)
    ensures var f := FrameIn(text, b).frame;
      && text == f.before + Shown(b, f.indent) + Tail(f.after)
      && FirstAt(f.before + f.indent, b.startMarker, rest)
      && '\n' !in f.indent && (f.before == "" || f.before[|f.before| - 1] == '\n')
  {
    hide EndsEarly;
    hide Rendered;
    hide FrameOf;
    hide OccursAt;
    var block := FrameCovers(text, b.startMarker, b.endMarker);
    var f := FrameIn(text, b).frame;
    rest := block + f.after;
    assert f.before + f.indent + b.startMarker + rest == f.before + f.indent + b.startMarker + block + f.after;
  }

  lemma {:induction false} PrefixGoesOn(first: string, after: string, cut: string, new': string)
    requires cut <= first + after && |first| <= |cut|
    ensures cut + new' == first + (cut[|first|..] + new')
  {
    assert first == (first + after)[..|first|] == cut[..|first|];
    assert cut == first + cut[|first|..];
  }

  // A text before `cut` is the frame's block and more; what follows the cut becomes part of what follows the block.
  lemma {:induction false} CutAfter(before: string, shown: string, after: string, cut: string, new': string)
    requires cut <= before + shown + Tail(after) && |before + shown + Tail(after)| - |after| <= |cut| && new' != ""
    requires |cut| < |before + shown + Tail(after)|
    ensures exists later: string :: cut + new' == before + shown + Tail(later)
  {
    var first := before + shown + "\n";
    assert after != "" && before + shown + Tail(after) == first + after;
    PrefixGoesOn(first, after, cut, new');
    var later := cut[|first|..] + new';
    assert before + shown + Tail(later) == first + later;
  }

  // Rewriting a block puts the rendered one after what precedes it.
  lemma {:induction false} RewriteText(text: string, b: Block)
    requires Usable(b) && FrameIn(text, b).Found?
    ensures var g := FrameIn(text, b).frame;
      Rewrite(text, b) == Replaced(g.before + (Shown(b, g.indent) + Tail(g.after))) && Shown(b, g.indent) != ""
  {
    ShownNotEmpty(b, FrameIn(text, b).frame.indent);
    hide FrameOf;
    hide Rendered;
    var g := FrameIn(text, b).frame;
    assert g.before + Shown(b, g.indent) + Tail(g.after) == g.before + (Shown(b, g.indent) + Tail(g.after));
  }

  lemma {:induction false} FrameInside(text: string, b: Block)
    requires Usable(b) && FrameIn(text, b).Found?
    ensures var g := FrameIn(text, b).frame;
      && |g.before| + |g.after| < |text| && g.before == text[..|g.before|] && g.after == text[|text| - |g.after|..]
      && (g.before == "" || g.before[|g.before| - 1] == '\n')
  {
    hide FrameOf;
    hide OccursAt;
    var block := FrameCovers(text, b.startMarker, b.endMarker);
  }

  // The other block follows.
  lemma {:induction false} KeptBefore(text: string, b: Block, other: Block)
    requires Settled(text, b) && Usable(other) && FrameIn(text, other).Found?
    requires |text| - |FrameIn(text, b).frame.after| <= |FrameIn(text, other).frame.before|
    ensures Settled(Rewrite(text, other).text, b)
  {
    hide *;
    SettledParts(text, b);
    var rest := SettledText(text, b);
    RewriteText(text, other);
    FrameInside(text, other);
    var f, g := FrameIn(text, b).frame, FrameIn(text, other).frame;
    var new' := Shown(other, g.indent) + Tail(g.after);
    CutAfter(f.before, Shown(b, f.indent), f.after, g.before, new');
    var later: string :| g.before + new' == f.before + Shown(b, f.indent) + Tail(later);
    ShownAgain(Frame(f.before, f.indent, later), b, rest);
  }

  lemma {:induction false} SettledParts(text: string, b: Block)
    requires Settled(text, b)
    ensures Usable(b) && FrameIn(text, b).Found?
    ensures !EndsEarly(b.startMarker, b.endMarker, b.lines, FrameIn(text, b).frame.indent)
  {
    hide EndsEarly;
    hide FrameOf;
  }

  lemma {:induction false} ShownAgain(f: Frame, b: Block, rest: string)
    requires Usable(b) && '\n' !in f.indent && (f.before == "" || f.before[|f.before| - 1] == '\n')
    requires FirstAt(f.before + f.indent, b.startMarker, rest)
    requires !EndsEarly(b.startMarker, b.endMarker, b.lines, f.indent)
    ensures Settled(f.before + Shown(b, f.indent) + Tail(f.after), b)
  {
    ShownSettled(f, b, rest);
    hide Settled;
    hide Shown;
  }

  lemma {:induction false} ShownNotEmpty(b: Block, indent: string)
    requires Usable(b)
    ensures Shown(b, indent) != ""
  {
    RenderedBody(b.startMarker, b.endMarker, b.lines, indent);
  }

  // A text after the other frame's block holds this one; what is put before it becomes part of what precedes it.
  lemma {:induction false} MovedDown(text: string, f: Frame, g: Frame, shown: string, shown': string)
    requires text == f.before + shown + Tail(f.after) && shown != ""
    requires |g.before| + |g.after| < |text| && |text| - |g.after| <= |f.before|
    requires g.before == text[..|g.before|] && g.after == text[|text| - |g.after|..]
    ensures var to := |text| - |g.after|;
      && g.before <= text[..to] && f.before == text[..to] + f.before[to..]
      && g.before + (shown' + Tail(g.after)) == g.before + shown' + "\n" + f.before[to..] + shown + Tail(f.after)
      && (f.before[to..] == "" || f.before[to..][|f.before[to..]| - 1] == f.before[|f.before| - 1])
  {
    var to := |text| - |g.after|;
    hide Tail;
    assert f.before == text[..|f.before|];
    assert g.before <= text[..to];
    assert g.after == f.before[to..] + shown + Tail(f.after);
    assert Tail(g.after) == "\n" + g.after by { TailOf(g.after); }
  }

  lemma {:induction false} TailOf(after: string)
    requires after != ""
    ensures Tail(after) == "\n" + after
  {
  }

  // The other block precedes.
  lemma {:induction false} KeptAfter(text: string, b: Block, other: Block)
    requires Settled(text, b) && Usable(other) && FrameIn(text, other).Found?
    requires |text| - |FrameIn(text, other).frame.after| <= |FrameIn(text, b).frame.before|
    requires !Occurs(Shown(other, FrameIn(text, other).frame.indent), b.startMarker)
    ensures Settled(Rewrite(text, other).text, b)
  {
    hide *;
    SettledParts(text, b);
    var rest := SettledText(text, b);
    RewriteText(text, b);
    RewriteText(text, other);
    FrameInside(text, b);
    FrameInside(text, other);
    var f, g := FrameIn(text, b).frame, FrameIn(text, other).frame;
    ShownBelow(text, b, f, g, Shown(other, g.indent), rest);
  }

  // The block shown again below what was put above it.
  lemma {:induction false} ShownBelow(text: string, b: Block, f: Frame, g: Frame, shown: string, rest: string)
    requires Usable(b) && '\n' !in f.indent && (f.before == "" || f.before[|f.before| - 1] == '\n')
    requires text == f.before + Shown(b, f.indent) + Tail(f.after) && Shown(b, f.indent) != ""
    requires FirstAt(f.before + f.indent, b.startMarker, rest) && !Occurs(shown, b.startMarker)
    requires !EndsEarly(b.startMarker, b.endMarker, b.lines, f.indent)
    requires |g.before| + |g.after| < |text| && |text| - |g.after| <= |f.before|
    requires g.before == text[..|g.before|] && g.after == text[|text| - |g.after|..]
    requires g.before == "" || g.before[|g.before| - 1] == '\n'
    ensures Settled(g.before + (shown + Tail(g.after)), b)
  {
    hide *;
    var to := |text| - |g.after|;
    MovedDown(text, f, g, Shown(b, f.indent), shown);
    KeptFirst(text, b, g.before, to, f.before[to..], f.indent, rest, shown);
    var before := g.before + shown + "\n" + f.before[to..];
    assert before + f.indent == g.before + shown + "\n" + (f.before[to..] + f.indent);
    ShownAgain(Frame(before, f.indent, f.after), b, rest);
  }

  lemma {:induction false} KeptFirst(text: string, b: Block, before: string, to: nat, between: string,
      indent: string, rest: string, shown: string)
    requires Usable(b) && to <= |text| && before <= text[..to]
    requires before == "" || before[|before| - 1] == '\n'
    requires FirstAt(text[..to] + between + indent, b.startMarker, rest)
    requires !Occurs(shown, b.startMarker)
    ensures FirstAt(before + shown + "\n" + (between + indent), b.startMarker, rest)
  {
    var head := between + indent;
    assert text[..to] + between + indent == text[..to] + head;
    FirstInTail(text[..to], head, b.startMarker, rest);
    var more := text[|before|..to] + head;
    assert text[..to] + head == before + more;
    NoneInHead(before, more, b.startMarker, rest);
    NoneInLines(before, shown, b.startMarker);
    FirstAfterNewline(before + shown, head, b.startMarker, rest);
  }

  // ---- The whole sync ----

  // Rewriting `other` leaves `b` alone: the two blocks do not overlap, and `other` shows no start marker of `b` above
  // it.
  ghost predicate Undisturbed(text: string, b: Block, other: Block)
    requires FrameIn(text, b).Found? && FrameIn(text, other).Found?
  {
    var f, g := FrameIn(text, b).frame, FrameIn(text, other).frame;
    || |text| - |f.after| <= |g.before|
    || (|text| - |g.after| <= |f.before| && !Occurs(Shown(other, g.indent), b.startMarker))
  }

  // Each block is found in its turn, shows no end marker early and leaves the blocks before it alone.
  ghost predicate Independent(text: string, done: seq<Block>, todo: seq<Block>)
    decreases |todo|
  {
    todo == [] ||
    var b := todo[0];
    && Usable(b) && FrameIn(text, b).Found?
    && !EndsEarly(b.startMarker, b.endMarker, b.lines, FrameIn(text, b).frame.indent)
    && (forall d | d in done :: FrameIn(text, d).Found? && Undisturbed(text, d, b))
    && Independent(Rewrite(text, b).text, done + [b], todo[1..])
  }

  lemma {:induction false} RewriteSettles(text: string, b: Block)
    requires Usable(b) && FrameIn(text, b).Found?
    requires !EndsEarly(b.startMarker, b.endMarker, b.lines, FrameIn(text, b).frame.indent)
    ensures Rewrite(text, b).Replaced? && Settled(Rewrite(text, b).text, b)
  {
    RewriteFrame(text, b.startMarker, b.endMarker, b.lines);
    IdempotentExactly(text, b.startMarker, b.endMarker, b.lines);
    hide EndsEarly;
    hide FrameOf;
    hide Rendered;
  }

  lemma {:induction false} RewriteKeeps(text: string, d: Block, b: Block)
    requires Settled(text, d) && Usable(b) && FrameIn(text, b).Found? && Undisturbed(text, d, b)
    ensures Settled(Rewrite(text, b).text, d)
  {
    hide Settled;
    hide Shown;
    hide FrameIn;
    hide Rewrite;
    hide Occurs;
    SettledParts(text, d);
    if |text| - |FrameIn(text, d).frame.after| <= |FrameIn(text, b).frame.before| {
      KeptBefore(text, d, b);
    } else {
      KeptAfter(text, d, b);
    }
  }

  lemma {:induction false} SyncSettles(text: string, done: seq<Block>, todo: seq<Block>)
    requires Independent(text, done, todo) && forall d | d in done :: Settled(text, d)
    ensures Sync(text, todo).Replaced? && forall d | d in done + todo :: Settled(Sync(text, todo).text, d)
    decreases |todo|
  {
    hide Settled;
    hide EndsEarly;
    hide Undisturbed;
    hide FrameIn;
    hide Rewrite;
    if todo != [] {
      var b := todo[0];
      RewriteSettles(text, b);
      var next := Rewrite(text, b).text;
      forall d | d in done + [b] ensures Settled(next, d) {
        if d in done { RewriteKeeps(text, d, b); }
      }
      SyncSettles(next, done + [b], todo[1..]);
      assert done + todo == done + [b] + todo[1..];
    }
  }

  lemma {:induction false} SettledSync(text: string, blocks: seq<Block>)
    requires forall b | b in blocks :: Settled(text, b)
    ensures Sync(text, blocks) == Replaced(text)
    decreases |blocks|
  {
    hide EndsEarly;
    hide FrameOf;
    if blocks != [] {
      assert Settled(text, blocks[0]);
      SettledSync(text, blocks[1..]);
    }
  }

  // Syncing a document whose blocks are independent succeeds, and syncing it again changes nothing.
  lemma {:induction false} SyncTwice(text: string, blocks: seq<Block>)
    requires Independent(text, [], blocks)
    ensures Sync(text, blocks).Replaced?
    ensures Sync(Sync(text, blocks).text, blocks) == Sync(text, blocks)
  {
    SyncSettles(text, [], blocks);
    hide *;
    assert [] + blocks == blocks;
    SettledSync(Sync(text, blocks).text, blocks);
  }
}

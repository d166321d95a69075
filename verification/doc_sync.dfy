/** Rewriting the lines between two markers of a document. */
module DocSync {
  import opened Basics
  import opened Text

  // ---- Searching ----

  predicate OccursAt(text: string, part: string, i: nat) {
    i + |part| <= |text| && text[i..i + |part|] == part
  }

  ghost predicate Occurs(text: string, part: string) {
    exists i: nat :: OccursAt(text, part, i)
  }

  // The first occurrence of a part at or after a position.
  function IndexOf(text: string, part: string, from: nat): (r: Option<nat>)
    requires from <= |text|
    ensures r.Some? ==> from <= r.value <= |text| && OccursAt(text, part, r.value)
    ensures forall j: nat | from <= j && (r.Some? ==> j < r.value) :: !OccursAt(text, part, j)
    decreases |text| - from
  {
    if OccursAt(text, part, from) then Some(from)
    else if from == |text| then None
    else IndexOf(text, part, from + 1)
  }

  // What follows the last newline before a position.
  function LineStart(text: string, at: nat): (i: nat)
    requires at <= |text|
    ensures i <= at
    ensures i == 0 || text[i - 1] == '\n'
    ensures forall k | i <= k < at :: text[k] != '\n'
  {
    if at == 0 || text[at - 1] == '\n' then at else LineStart(text, at - 1)
  }

  // What follows the first newline at or after a position, or the end of the text.
  function LineEnd(text: string, at: nat): (i: nat)
    requires at <= |text|
    ensures at <= i <= |text|
    ensures i == |text| || (at < i && text[i - 1] == '\n')
    ensures forall k | at <= k < i - 1 :: text[k] != '\n'
    decreases |text| - at
  {
    if at == |text| then at else if text[at] == '\n' then at + 1 else LineEnd(text, at + 1)
  }

  // ---- Rewriting ----

  // The text around a block: what precedes its first line, that line's indentation, what follows its last.
  datatype Frame = Frame(before: string, indent: string, after: string)

  datatype Search = Found(frame: Frame) | NoStart | NoEnd

  // The search for the last newline includes the position of the start marker itself.
  function FrameOf(text: string, startMarker: string, endMarker: string): Search {
    var start := IndexOf(text, startMarker, 0);
    if start.None? then NoStart
    else
      var end := IndexOf(text, endMarker, start.value);
      if end.None? then NoEnd
      else
        var onNewline := start.value < |text| && text[start.value] == '\n';
        var from := if onNewline then start.value + 1 else LineStart(text, start.value);
        var indent := if onNewline then "" else text[from..start.value];
        Found(Frame(text[..from], indent, text[LineEnd(text, end.value)..]))
  }

  function Indented(lines: seq<string>, indent: string): (r: seq<string>)
    ensures |r| == |lines|
  {
    seq(|lines|, i requires 0 <= i < |lines| => indent + lines[i])
  }

  function Rendered(startMarker: string, endMarker: string, lines: seq<string>, indent: string): string {
    Join([indent + startMarker] + Indented(lines, indent) + [indent + endMarker], '\n')
  }

  function Assembled(frame: Frame, block: string): string {
    frame.before + block + (if frame.after == "" then "" else "\n" + frame.after)
  }

  datatype Result = Replaced(text: string) | MissingStart | MissingEnd

  // replaceBlockLines.
  function Replace(text: string, startMarker: string, endMarker: string, lines: seq<string>): Result {
    match FrameOf(text, startMarker, endMarker)
    case NoStart => MissingStart
    case NoEnd => MissingEnd
    case Found(f) => Replaced(Assembled(f, Rendered(startMarker, endMarker, lines, f.indent)))
  }

  ghost predicate Marker(m: string) { m != "" && '\n' !in m }

  // ---- Searching in parts of a text ----

  lemma {:induction false} OccursPrefix(a: string, b: string, part: string, i: nat)
    requires i + |part| <= |a|
    ensures OccursAt(a + b, part, i) <==> OccursAt(a, part, i)
  {
  }

  lemma {:induction false} OccursSuffix(a: string, b: string, part: string, i: nat)
    ensures OccursAt(a + b, part, |a| + i) <==> OccursAt(b, part, i)
  {
  }

  // A part without newlines does not reach across one.
  lemma {:induction false} OccursAcross(a: string, b: string, part: string, i: nat)
    requires Marker(part) && i <= |a| < i + |part|
    ensures !OccursAt(a + "\n" + b, part, i)
  {
    var t := a + "\n" + b;
    assert t[|a|] == '\n';
    assert part[|a| - i] in part;
    if i + |part| <= |t| { assert t[i..i + |part|][|a| - i] == '\n'; }
  }

  lemma {:induction false} OccursEitherSide(a: string, b: string, part: string)
    requires Marker(part)
    ensures Occurs(a + "\n" + b, part) <==> Occurs(a, part) || Occurs(b, part)
  {
    var t := a + "\n" + b;
    forall i: nat
      ensures OccursAt(t, part, i) <==> OccursAt(a, part, i) || (i > |a| && OccursAt(b, part, i - |a| - 1))
    {
      if i + |part| <= |a| {
        assert t == a + ("\n" + b);
        OccursPrefix(a, "\n" + b, part, i);
      } else if i <= |a| {
        OccursAcross(a, b, part, i);
      } else {
        OccursSuffix(a + "\n", b, part, i - |a| - 1);
      }
    }
    forall i: nat | OccursAt(b, part, i) ensures Occurs(t, part) {
      assert OccursAt(t, part, i + |a| + 1);
    }
  }

  lemma {:induction false} FirstIndex(text: string, part: string, from: nat, i: nat)
    requires from <= i <= |text| && OccursAt(text, part, i)
    requires forall j: nat | from <= j < i :: !OccursAt(text, part, j)
    ensures IndexOf(text, part, from) == Some(i)
    decreases i - from
  {
  }

  lemma {:induction false} LineStartAt(text: string, from: nat, at: nat)
    requires from <= at <= |text| && (from == 0 || text[from - 1] == '\n')
    requires forall k | from <= k < at :: text[k] != '\n'
    ensures LineStart(text, at) == from
  {
  }

  // The line ends after the first newline from here on.
  lemma {:induction false} LineEndAt(text: string, at: nat, to: nat)
    requires at <= to <= |text|
    requires forall k | at <= k < to :: text[k] != '\n'
    requires to < |text| ==> text[to] == '\n'
    ensures LineEnd(text, at) == (if to < |text| then to + 1 else to)
    decreases |text| - at
  {
  }

  // ---- The rendered block ----

  // The start marker and the lines of a block, without the indentation of the first.
  function Body(startMarker: string, lines: seq<string>, indent: string): string {
    if lines == [] then startMarker
    else Body(startMarker, lines[..|lines| - 1], indent) + "\n" + indent + lines[|lines| - 1]
  }

  lemma {:induction false} BodyStart(startMarker: string, lines: seq<string>, indent: string)
    ensures startMarker <= Body(startMarker, lines, indent)
  {
    if lines != [] { BodyStart(startMarker, lines[..|lines| - 1], indent); }
  }

  lemma {:induction false} JoinLast(parts: seq<string>, last: string, sep: char)
    requires parts != []
    ensures Join(parts + [last], sep) == Join(parts, sep) + [sep] + last
  {
    var all := parts + [last];
    assert all[1..] == parts[1..] + [last];
    if |parts| > 1 {
      JoinLast(parts[1..], last, sep);
    } else {
      assert all[1..] == [last];
    }
  }

  lemma {:induction false} RenderedBody(startMarker: string, endMarker: string, lines: seq<string>, indent: string)
    ensures Join([indent + startMarker] + Indented(lines, indent), '\n') == indent + Body(startMarker, lines, indent)
    ensures Rendered(startMarker, endMarker, lines, indent) ==
      indent + Body(startMarker, lines, indent) + "\n" + indent + endMarker
  {
    var parts := [indent + startMarker] + Indented(lines, indent);
    if lines != [] {
      var init := lines[..|lines| - 1];
      RenderedBody(startMarker, endMarker, init, indent);
      var shorter := [indent + startMarker] + Indented(init, indent);
      assert parts == shorter + [indent + lines[|lines| - 1]];
      JoinLast(shorter, indent + lines[|lines| - 1], '\n');
    } else {
      assert parts == [indent + startMarker];
    }
    JoinLast(parts, indent + endMarker, '\n');
  }

  // The end marker occurs in the start marker or in an indented line.
  ghost predicate EndsEarly(startMarker: string, endMarker: string, lines: seq<string>, indent: string) {
    Occurs(startMarker, endMarker) || exists k | 0 <= k < |lines| :: Occurs(indent + lines[k], endMarker)
  }

  lemma {:induction false} OccursBody(startMarker: string, endMarker: string, lines: seq<string>, indent: string)
    requires Marker(endMarker)
    ensures Occurs(Body(startMarker, lines, indent), endMarker) <==> EndsEarly(startMarker, endMarker, lines, indent)
  {
    if lines != [] {
      var n := |lines| - 1;
      var init := lines[..n];
      OccursBody(startMarker, endMarker, init, indent);
      OccursEitherSide(Body(startMarker, init, indent), indent + lines[n], endMarker);
      assert Body(startMarker, lines, indent) == Body(startMarker, init, indent) + "\n" + (indent + lines[n]);
      assert forall k | 0 <= k < n :: init[k] == lines[k];
      assert EndsEarly(startMarker, endMarker, lines, indent) <==>
        EndsEarly(startMarker, endMarker, init, indent) || Occurs(indent + lines[n], endMarker);
    }
  }

  // ---- What a rewrite keeps ----

  // The line of the end marker ends after the start marker.
  lemma {:induction false} EndAfterStart(text: string, startMarker: string, start: nat, end: nat)
    requires Marker(startMarker) && start <= end <= |text| && OccursAt(text, startMarker, start)
    ensures start + |startMarker| <= LineEnd(text, end)
    decreases |text| - end
  {
  }

  lemma {:induction false} FrameAt(text: string, startMarker: string, endMarker: string) returns (start: nat, end: nat)
    requires Marker(startMarker) && FrameOf(text, startMarker, endMarker).Found?
    ensures IndexOf(text, startMarker, 0) == Some(start) && IndexOf(text, endMarker, start) == Some(end)
    ensures FrameOf(text, startMarker, endMarker).frame ==
            Frame(text[..LineStart(text, start)], text[LineStart(text, start)..start], text[LineEnd(text, end)..])
  {
    start := IndexOf(text, startMarker, 0).value;
    end := IndexOf(text, endMarker, start).value;
    assert text[start] == text[start..start + |startMarker|][0] == startMarker[0];
    assert startMarker[0] in startMarker;
  }

  // A text cut at four places in order, the second part being a marker.
  lemma {:induction false} CutParts(text: string, part: string, from: nat, start: nat, to: nat)
    requires from <= start && OccursAt(text, part, start) && start + |part| <= to <= |text|
    ensures text == text[..from] + text[from..start] + part + text[start + |part|..to] + text[to..]
  {
  }

  // The text is the frame around a block that starts with the first start marker.
  lemma {:induction false} FrameCovers(text: string, startMarker: string, endMarker: string) returns (block: string)
    requires Marker(startMarker) && FrameOf(text, startMarker, endMarker).Found?
    ensures var f := FrameOf(text, startMarker, endMarker).frame;
      && text == f.before + f.indent + startMarker + block + f.after
      && (f.before == "" || f.before[|f.before| - 1] == '\n')
      && '\n' !in f.indent
      && (forall j | 0 <= j < |f.before + f.indent| :: !OccursAt(text, startMarker, j))
  {
    hide FrameOf;
    hide IndexOf;
    hide OccursAt;
    var start, end := FrameAt(text, startMarker, endMarker);
    var from, to := LineStart(text, start), LineEnd(text, end);
    hide LineStart;
    hide LineEnd;
    EndAfterStart(text, startMarker, start, end);
    block := text[start + |startMarker|..to];
    CutParts(text, startMarker, from, start, to);
    assert |text[..from] + text[from..start]| == start;
  }

  lemma {:induction false} LineEndBy(text: string, at: nat, newline: nat)
    requires at <= newline < |text| && text[newline] == '\n'
    ensures LineEnd(text, at) <= newline + 1
    decreases |text| - at
  {
  }

  // The same text up to and including the first start marker gives the same first start marker.
  lemma {:induction false} SameStart(head: string, startMarker: string, rest: string, other: string)
    requires forall j | 0 <= j < |head| :: !OccursAt(head + startMarker + rest, startMarker, j)
    ensures IndexOf(head + startMarker + other, startMarker, 0) == Some(|head|)
  {
    var t := head + startMarker + other;
    forall j: nat | j < |head| ensures !OccursAt(t, startMarker, j) {
      OccursPrefix(head + startMarker, rest, startMarker, j);
      OccursPrefix(head + startMarker, other, startMarker, j);
    }
    assert t[|head|..|head| + |startMarker|] == startMarker;
    FirstIndex(t, startMarker, 0, |head|);
  }

  // A text whose end marker stands, indented, on the line after a body, followed by the end or a newline.
  function Closed(head: string, body: string, indent: string, endMarker: string, tail: string): string {
    head + (body + "\n" + (indent + endMarker + tail))
  }

  // The end marker is found on its own line when the body holds none.
  lemma {:induction false} EndFound(head: string, body: string, indent: string, endMarker: string, tail: string)
    returns (end: nat)
    requires Marker(endMarker)
    ensures var t := Closed(head, body, indent, endMarker, tail);
      && |head| <= end <= |head| + |body| + 1 + |indent|
      && IndexOf(t, endMarker, |head|) == Some(end)
      && (Occurs(body, endMarker) ==> end < |head| + |body|)
      && (!Occurs(body, endMarker) ==> |head| + |body| < end)
  {
    var t := Closed(head, body, indent, endMarker, tail);
    var rest := indent + endMarker + tail;
    var last := |head| + |body| + 1 + |indent|;
    assert t[last..last + |endMarker|] == endMarker;
    assert OccursAt(t, endMarker, last);
    end := IndexOf(t, endMarker, |head|).value;
    forall q: nat | q <= |body| ensures OccursAt(t, endMarker, |head| + q) <==> OccursAt(body, endMarker, q) {
      OccursSuffix(head, body + "\n" + rest, endMarker, q);
      if q + |endMarker| <= |body| {
        assert body + "\n" + rest == body + ("\n" + rest);
        OccursPrefix(body, "\n" + rest, endMarker, q);
      } else {
        OccursAcross(body, rest, endMarker, q);
      }
    }
    if Occurs(body, endMarker) {
      var q: nat :| OccursAt(body, endMarker, q);
      assert OccursAt(t, endMarker, |head| + q);
    }
    assert end <= |head| + |body| ==> OccursAt(body, endMarker, end - |head|);
  }

  // What follows the line of the end marker that is found.
  lemma {:induction false} EndLine(head: string, body: string, indent: string, endMarker: string, tail: string)
    requires Marker(endMarker) && '\n' !in indent && (tail == "" || tail[0] == '\n')
    ensures var t := Closed(head, body, indent, endMarker, tail);
      var end := IndexOf(t, endMarker, |head|);
      && end.Some?
      && (!Occurs(body, endMarker) ==> t[LineEnd(t, end.value)..] == if tail == "" then "" else tail[1..])
      && (Occurs(body, endMarker) ==> |t[LineEnd(t, end.value)..]| >= |indent + endMarker + tail|)
  {
    var t := Closed(head, body, indent, endMarker, tail);
    var end := EndFound(head, body, indent, endMarker, tail);
    var middle := |head| + |body|;
    var to := middle + 1 + |indent| + |endMarker|;
    assert t[middle] == '\n';
    if Occurs(body, endMarker) {
      LineEndBy(t, end, middle);
    } else {
      assert t[middle + 1..to] == indent + endMarker;
      assert forall k | middle < k < to :: t[k] == (indent + endMarker)[k - middle - 1];
      assert t[to..] == tail;
      LineEndAt(t, end, to);
    }
  }

  // ---- Main results ----

  function Tail(after: string): string { if after == "" then "" else "\n" + after }

  // The rewritten text continues the frame with the start marker, and is closed by the end marker's line.
  lemma {:induction false} RewriteForm(f: Frame, startMarker: string, endMarker: string, lines: seq<string>)
    returns (other: string)
    ensures var r := Assembled(f, Rendered(startMarker, endMarker, lines, f.indent));
      && r == f.before + f.indent + startMarker + other
      && r == Closed(f.before + f.indent, Body(startMarker, lines, f.indent), f.indent, endMarker, Tail(f.after))
  {
    var body, tail := Body(startMarker, lines, f.indent), Tail(f.after);
    RenderedBody(startMarker, endMarker, lines, f.indent);
    BodyStart(startMarker, lines, f.indent);
    hide Body;
    hide Rendered;
    assert Assembled(f, Rendered(startMarker, endMarker, lines, f.indent)) ==
      f.before + (f.indent + body + "\n" + f.indent + endMarker) + tail;
    hide *;
    other := Regroup(f.before, f.indent, startMarker, body, endMarker, tail);
  }

  // The same text with its parts grouped around the body, and after the start marker.
  lemma {:induction false} Regroup(before: string, indent: string, startMarker: string, body: string, endMarker: string,
      tail: string) returns (other: string)
    requires startMarker <= body
    ensures var r := before + (indent + body + "\n" + indent + endMarker) + tail;
      r == before + indent + startMarker + other && r == Closed(before + indent, body, indent, endMarker, tail)
  {
    var r := before + (indent + body + "\n" + indent + endMarker) + tail;
    var more := body[|startMarker|..];
    other := more + "\n" + indent + endMarker + tail;
    assert body == startMarker + more;
    assert r == (before + indent) + (body + "\n" + (indent + endMarker + tail));
    assert r == before + indent + startMarker + other;
  }

  // Searching a rewritten text finds the frame it was made with; what follows the block is the same unless the
  // end marker occurs early, which leaves more text after it.
  ghost predicate SearchedAs(r: string, startMarker: string, endMarker: string, f: Frame, early: bool) {
    var start := |f.before + f.indent|;
    && start <= |r| && IndexOf(r, startMarker, 0) == Some(start) && LineStart(r, start) == |f.before|
    && r[..|f.before|] == f.before && r[|f.before|..start] == f.indent
    && IndexOf(r, endMarker, start).Some?
    && (if early then |r[LineEnd(r, IndexOf(r, endMarker, start).value)..]| > |f.after|
        else r[LineEnd(r, IndexOf(r, endMarker, start).value)..] == f.after)
  }

  lemma {:induction false} RewriteSearch(f: Frame, startMarker: string, endMarker: string, lines: seq<string>,
      rest: string)
    requires Marker(startMarker) && Marker(endMarker) && '\n' !in f.indent
    requires f.before == "" || f.before[|f.before| - 1] == '\n'
    requires forall j | 0 <= j < |f.before + f.indent| :: !OccursAt(f.before + f.indent + startMarker + rest,
      startMarker, j)
    ensures SearchedAs(Assembled(f, Rendered(startMarker, endMarker, lines, f.indent)), startMarker, endMarker, f,
                       EndsEarly(startMarker, endMarker, lines, f.indent))
  {
    hide Rendered;
    hide Assembled;
    hide Body;
    hide Closed;
    hide IndexOf;
    hide OccursAt;
    hide Occurs;
    hide LineStart;
    hide LineEnd;
    hide EndsEarly;
    TailText(f.after);
    hide Tail;
    var head := f.before + f.indent;
    var other := RewriteForm(f, startMarker, endMarker, lines);
    var r := Assembled(f, Rendered(startMarker, endMarker, lines, f.indent));
    SameStart(head, startMarker, rest, other);
    HeadText(f.before, f.indent, startMarker + other);
    assert r == f.before + f.indent + (startMarker + other);
    LineStartAt(r, |f.before|, |head|);
    EndLine(head, Body(startMarker, lines, f.indent), f.indent, endMarker, Tail(f.after));
    OccursBody(startMarker, endMarker, lines, f.indent);
  }

  lemma {:induction false} TailText(after: string)
    ensures var tail := Tail(after);
      (tail == "" || tail[0] == '\n') && (if tail == "" then "" else tail[1..]) == after && |tail| >= |after|
  {
  }

  lemma {:induction false} HeadText(before: string, indent: string, rest: string)
    ensures var r := before + indent + rest;
      && r[..|before|] == before && r[|before|..|before + indent|] == indent
      && (before == "" || r[|before| - 1] == before[|before| - 1])
      && forall k | |before| <= k < |before + indent| :: r[k] == indent[k - |before|]
  {
  }

  lemma {:induction false} SearchAgain(text: string, startMarker: string, endMarker: string, lines: seq<string>)
    requires Marker(startMarker) && Marker(endMarker) && FrameOf(text, startMarker, endMarker).Found?
    ensures var f := FrameOf(text, startMarker, endMarker).frame;
      SearchedAs(Assembled(f, Rendered(startMarker, endMarker, lines, f.indent)), startMarker, endMarker, f,
                 EndsEarly(startMarker, endMarker, lines, f.indent))
  {
    hide FrameOf;
    hide Assembled;
    hide Rendered;
    hide SearchedAs;
    hide EndsEarly;
    var f := FrameOf(text, startMarker, endMarker).frame;
    var block := FrameCovers(text, startMarker, endMarker);
    assert text == f.before + f.indent + startMarker + (block + f.after);
    RewriteSearch(f, startMarker, endMarker, lines, block + f.after);
  }

  lemma {:induction false} RewriteFrame(text: string, startMarker: string, endMarker: string, lines: seq<string>)
    requires Marker(startMarker) && Marker(endMarker) && FrameOf(text, startMarker, endMarker).Found?
    ensures var f := FrameOf(text, startMarker, endMarker).frame;
      var again := FrameOf(Replace(text, startMarker, endMarker, lines).text, startMarker, endMarker);
      && again.Found? && again.frame.before == f.before && again.frame.indent == f.indent
      && (if EndsEarly(startMarker, endMarker, lines, f.indent) then |again.frame.after| > |f.after|
          else again.frame.after == f.after)
  {
    SearchAgain(text, startMarker, endMarker, lines);
    hide EndsEarly;
    var start, end := FrameAt(Replace(text, startMarker, endMarker, lines).text, startMarker, endMarker);
  }

  // A second rewrite replaces the first one completely.
  lemma {:induction false} SecondRewriteWins(text: string, startMarker: string, endMarker: string,
      first: seq<string>, second: seq<string>)
    requires Marker(startMarker) && Marker(endMarker) && FrameOf(text, startMarker, endMarker).Found?
    requires !EndsEarly(startMarker, endMarker, first, FrameOf(text, startMarker, endMarker).frame.indent)
    ensures Replace(Replace(text, startMarker, endMarker, first).text, startMarker, endMarker, second) ==
            Replace(text, startMarker, endMarker, second)
  {
    RewriteFrame(text, startMarker, endMarker, first);
  }

  // Repeating a rewrite changes nothing exactly when the end marker is in neither the start marker nor an indented
  // line.
  lemma {:induction false} IdempotentExactly(text: string, startMarker: string, endMarker: string, lines: seq<string>)
    requires Marker(startMarker) && Marker(endMarker) && FrameOf(text, startMarker, endMarker).Found?
    ensures var once := Replace(text, startMarker, endMarker, lines);
      Replace(once.text, startMarker, endMarker, lines) == once <==>
      !EndsEarly(startMarker, endMarker, lines, FrameOf(text, startMarker, endMarker).frame.indent)
  {
    RewriteFrame(text, startMarker, endMarker, lines);
    hide EndsEarly;
    var f := FrameOf(text, startMarker, endMarker).frame;
    var again := FrameOf(Replace(text, startMarker, endMarker, lines).text, startMarker, endMarker).frame;
    var block := Rendered(startMarker, endMarker, lines, f.indent);
    assert |Assembled(again, block)| - |Assembled(f, block)| == |Tail(again.after)| - |Tail(f.after)|;
  }

  // A rewrite fails exactly when the start marker is missing, or no end marker follows the first one.
  lemma {:induction false} FailsExactly(text: string, startMarker: string, endMarker: string, lines: seq<string>)
    ensures Replace(text, startMarker, endMarker, lines).MissingStart? <==> !Occurs(text, startMarker)
    ensures Replace(text, startMarker, endMarker, lines).MissingEnd? <==>
      exists i: nat :: && OccursAt(text, startMarker, i) && (forall j: nat | j < i :: !OccursAt(text, startMarker, j))
                       && forall k: nat | i <= k :: !OccursAt(text, endMarker, k)
  {
  }

  // A line that holds the end marker: the second rewrite leaves the old line after the block and adds a new one.
  lemma {:induction false} EarlyEndRepeats()
    ensures var once := Replace("S\nE", "S", "E", ["E", "x"]);
      once.Replaced? && Replace(once.text, "S", "E", ["E", "x"]) != once
  {
    var t, lines := "S\nE", ["E", "x"];
    assert OccursAt(t, "S", 0) && OccursAt(t, "E", 2);
    var indent := FrameOf(t, "S", "E").frame.indent;
    assert OccursAt(indent + lines[0], "E", |indent|);
    IdempotentExactly(t, "S", "E", lines);
  }

  // ---- The rewritten text, in the terms of the old one ----

  // The lines below each other, each with the indentation.
  function Below(indent: string, lines: seq<string>): string
    requires lines != []
  {
    indent + lines[0] + if |lines| == 1 then "" else "\n" + Below(indent, lines[1..])
  }

  // The first line of the block begins at `from`, and what follows its last line at `to`.
  ghost predicate Spans(text: string, start: nat, end: nat, from: nat, to: nat) {
    && from <= start <= end <= to <= |text|
    && (from == 0 || text[from - 1] == '\n') && (forall k | from <= k < start :: text[k] != '\n')
    && (forall k | end <= k < to - 1 :: text[k] != '\n')
    && ((end < to && text[to - 1] == '\n') || (to == |text| && forall k | end <= k < to :: text[k] != '\n'))
  }

  lemma {:induction false} JoinBelow(indent: string, lines: seq<string>)
    requires lines != []
    ensures Join(Indented(lines, indent), '\n') == Below(indent, lines)
    decreases |lines|
  {
    if |lines| > 1 {
      JoinBelow(indent, lines[1..]);
      assert Indented(lines, indent)[1..] == Indented(lines[1..], indent);
    }
  }

  lemma {:induction false} RenderedBelow(startMarker: string, endMarker: string, lines: seq<string>, indent: string)
    ensures Rendered(startMarker, endMarker, lines, indent) == Below(indent, [startMarker] + lines + [endMarker])
  {
    var all := [startMarker] + lines + [endMarker];
    JoinBelow(indent, all);
    hide Join;
    hide Below;
    assert Indented(all, indent) == [indent + startMarker] + Indented(lines, indent) + [indent + endMarker];
  }

  lemma {:induction false} FrameIs(text: string, startMarker: string, endMarker: string, start: nat, end: nat,
      from: nat, to: nat)
    requires Marker(startMarker) && Spans(text, start, end, from, to)
    requires IndexOf(text, startMarker, 0) == Some(start) && IndexOf(text, endMarker, start) == Some(end)
    ensures FrameOf(text, startMarker, endMarker) == Found(Frame(text[..from], text[from..start], text[to..]))
  {
    StartsInLine(text, startMarker, start);
    hide IndexOf;
    hide OccursAt;
    hide LineStart;
    hide LineEnd;
    LineStartAt(text, from, start);
    LineEndAt(text, end, if end < to && text[to - 1] == '\n' then to - 1 else to);
  }

  lemma {:induction false} StartsInLine(text: string, part: string, i: nat)
    requires Marker(part) && OccursAt(text, part, i)
    ensures i < |text| && text[i] != '\n'
  {
    assert text[i..i + |part|][0] == text[i] && part[0] in part;
  }

  lemma {:induction false} FirstIs(text: string, part: string, from: nat, i: nat)
    requires from <= i && OccursAt(text, part, i) && forall j: nat | from <= j < i :: !OccursAt(text, part, j)
    ensures from <= |text| && IndexOf(text, part, from) == Some(i)
  {
    hide OccursAt;
    assert i <= |text| by { IndexBound(text, part, i); }
  }

  lemma {:induction false} IndexBound(text: string, part: string, i: nat)
    requires OccursAt(text, part, i)
    ensures i <= |text|
  {
  }

  // With the first start marker at `start` and the first end marker from there on at `end`, the lines from one to the
  // other are replaced by the start marker, the new lines and the end marker, all indented as the start marker was;
  // what precedes and follows them stays, and a newline follows the block exactly when more text does.
  lemma {:induction false} ReplaceExactly(text: string, startMarker: string, endMarker: string, lines: seq<string>,
      start: nat, end: nat, from: nat, to: nat)
    requires Marker(startMarker) && Spans(text, start, end, from, to)
    requires OccursAt(text, startMarker, start) && forall j: nat | 0 <= j < start :: !OccursAt(text, startMarker, j)
    requires OccursAt(text, endMarker, end) && forall j: nat | start <= j < end :: !OccursAt(text, endMarker, j)
    ensures Replace(text, startMarker, endMarker, lines) ==
            Replaced(text[..from] + Below(text[from..start], [startMarker] + lines + [endMarker]) +
                     if to == |text| then "" else "\n" + text[to..])
  {
    FirstIs(text, startMarker, 0, start);
    FirstIs(text, endMarker, start, end);
    FrameIs(text, startMarker, endMarker, start, end, from, to);
    RenderedBelow(startMarker, endMarker, lines, text[from..start]);
    hide FrameOf;
    hide Rendered;
    hide Below;
    hide OccursAt;
    hide IndexOf;
  }
}

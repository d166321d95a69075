/** The reminders file and the poll that reads, delivers and rewrites it. */
module ReminderService {
  import opened Basics
  import opened Text
  import opened Reminders

  // ---- The file format: one rendered record a line ----

  function ParseLines<R>(lines: seq<string>, parse: string -> Option<R>): seq<R> {
    if lines == [] then []
    else
      var rest := ParseLines(lines[1..], parse);
      if lines[0] == "" || parse(lines[0]).None? then rest else [parse(lines[0]).value] + rest
  }

  function ReadFile<R>(content: Option<string>, parse: string -> Option<R>): seq<R> {
    if content.None? || Trim(content.value) == "" then []
    else ParseLines(Split(Trim(content.value), '\n'), parse)
  }

  function Render<R>(records: seq<R>, render: R -> string): (lines: seq<string>)
    ensures |lines| == |records| && forall i | 0 <= i < |lines| :: lines[i] == render(records[i])
  {
    seq(|records|, i requires 0 <= i < |records| => render(records[i]))
  }

  function WriteFile<R>(records: seq<R>, render: R -> string): string {
    Join(Render(records, render), '\n') + if records == [] then "" else "\n"
  }

  // Each of the records is rendered as one trimmed, non-blank line that parses back to it.
  ghost predicate Faithful<R>(records: seq<R>, render: R -> string, parse: string -> Option<R>) {
    forall r | r in records ::
      '\n' !in render(r) && render(r) != "" && Trimmed(render(r)) && parse(render(r)) == Some(r)
  }

  lemma {:induction false} ParseRendered<R>(records: seq<R>, render: R -> string, parse: string -> Option<R>)
    requires Faithful(records, render, parse)
    ensures ParseLines(Render(records, render), parse) == records
    decreases |records|
  {
    if records != [] {
      assert Render(records, render)[1..] == Render(records[1..], render);
      ParseRendered(records[1..], render, parse);
    }
  }

  // Reading back a written file yields the same list.
  lemma {:induction false} ReadWritten<R>(records: seq<R>, render: R -> string, parse: string -> Option<R>)
    requires Faithful(records, render, parse)
    ensures ReadFile(Some(WriteFile(records, render)), parse) == records
  {
    if records == [] {
      EmptyFile(render, parse);
    } else {
      RenderedLines(records, render, parse);
      ParseRendered(records, render, parse);
      var lines := Render(records, render);
      WrittenText(records, render);
      hide *;
      JoinTrimmed(lines, '\n');
      TrimNewline(Join(lines, '\n'));
      SplitJoin(lines, '\n');
      ReadText(WriteFile(records, render), Join(lines, '\n'), parse);
    }
  }

  lemma {:induction false} WrittenText<R>(records: seq<R>, render: R -> string)
    requires records != []
    ensures WriteFile(records, render) == Join(Render(records, render), '\n') + "\n"
  {
    hide Join;
    hide Render;
  }

  lemma {:induction false} ReadText<R>(content: string, text: string, parse: string -> Option<R>)
    requires Trim(content) == text && text != ""
    ensures ReadFile(Some(content), parse) == ParseLines(Split(text, '\n'), parse)
  {
    hide Trim;
    hide Split;
    hide ParseLines;
  }

  lemma {:induction false} EmptyFile<R>(render: R -> string, parse: string -> Option<R>)
    ensures ReadFile(Some(WriteFile([], render)), parse) == []
  {
    hide ParseLines;
    hide Split;
    assert WriteFile([], render) == "";
  }

  lemma {:induction false} RenderedLines<R>(records: seq<R>, render: R -> string, parse: string -> Option<R>)
    requires Faithful(records, render, parse) && records != []
    ensures var lines := Render(records, render);
      && lines != [] && (forall p | p in lines :: '\n' !in p)
      && forall i | 0 <= i < |lines| :: lines[i] != "" && Trimmed(lines[i])
  {
    hide Trimmed;
    hide Render;
  }

  // ---- The service ----

  class Service {
    var content: Option<string> // reminders.jsonl; None when it does not exist
    const render: Reminder -> string
    const parse: string -> Option<Reminder>

    constructor (content: Option<string>, render: Reminder -> string, parse: string -> Option<Reminder>)
      ensures this.content == content && this.render == render && this.parse == parse
    {
      this.content, this.render, this.parse := content, render, parse;
    }

    function List(): seq<Reminder>
      reads this
    {
      ReadFile(content, parse)
    }

    // deliverToChannels: every target is tried; a failure does not stop the rest, but a configuration that does not
    // load throws before the first.
    method DeliverToChannels(targets: seq<Target>, i: nat, loads: bool, sends: (nat, nat) -> bool)
      returns (delivered: nat, attempted: nat, threw: bool)
      ensures threw == (targets != [] && !loads)
      ensures attempted == if threw then 0 else |targets|
      ensures delivered == if threw then 0 else |set j | 0 <= j < |targets| && sends(i, j)|
    {
      delivered, attempted, threw := 0, 0, false;
      if |targets| == 0 { return; }
      if !loads { return 0, 0, true; }
      ghost var done: set<int> := {};
      for j := 0 to |targets|
        invariant done == set k | 0 <= k < j && sends(i, k)
        invariant delivered == |done|
      {
        if sends(i, j) {
          delivered := delivered + 1;
          done := done + {j};
        }
      }
      attempted := |targets|;
    }

    // The body of the poll's loop for the i-th reminder.
    method HandleReminder(r: Reminder, i: nat, tick: Tick)
      returns (next: Reminder, changed: bool, threw: bool, ghost sent: bool)
      ensures var fate := FateOf(r, tick.now, tick.entries, tick.loads(i), Delivers(r, i, tick));
        && threw == fate.Threw? && sent == (fate.Sent? || fate == Threw(true))
        && next == After(r, fate) && changed == (fate.Advanced? || fate.Sent?)
    {
      next, changed, threw, sent := r, false, false, false;
      if !r.present {
        threw := true;
        return;
      }
      if !r.active { return; }
      if r.deliveredAt.Some? {
        if r.recurring.Some? {
          if r.triggerAt.Unparsable? {
            threw := true;
            return;
          }
          var trigger := AdvanceTrigger(r.triggerAt.ms, CronToMs(r.recurring.value), tick.now);
          if trigger > MAX_TIME {
            threw := true;
            return;
          }
          next, changed := r.(triggerAt := At(trigger), deliveredAt := None, deliveredOn := None), true;
        }
        return;
      }
      if r.triggerAt.Unparsable? || r.triggerAt.ms > tick.now { return; }
      var delivered, attempted, failed := DeliverToChannels(TargetsOf(r, tick.entries), i, tick.loads(i), tick.sends);
      SomeSend(TargetsOf(r, tick.entries), i, tick.sends);
      if failed {
        threw := true;
        return;
      }
      if delivered == 0 { return; }
      sent := true;
      if !(-MAX_TIME <= tick.now <= MAX_TIME) {
        threw := true;
        return;
      }
      next := r.(deliveredAt := Some(tick.now), deliveredOn := Some(DeliveredOn(r, tick.entries)));
      changed := true;
    }

    method PollRemindersOnce(tick: Tick) returns (threw: bool, ghost sent: set<nat>)
      requires forall r: Reminder | r.present :: Faithful([r], render, parse)
      modifies this`content
      ensures List() == Poll(old(List()), tick)
      ensures threw == PollThrows(old(List()), tick) && sent == SentBy(old(List()), tick)
      ensures threw ==> content == old(content)
    {
      hide ReadFile;
      hide WriteFile;
      hide Handled;
      hide FateOf;
      hide ThrowsAt;
      hide SentBy;
      hide PollThrows;
      var reminders := List();
      HandledNone(reminders, tick);
      threw, sent := false, {};
      var changed := false;
      var updated: seq<Reminder> := [];
      for i := 0 to |reminders|
        invariant !threw && content == old(content)
        invariant Handled(reminders, i, tick, updated, sent, changed)
      {
        var next, touched, failed, went := HandleReminder(reminders[i], i, tick);
        HandledOneMore(reminders, i, tick, updated, sent, changed);
        if went { sent := sent + {i}; }
        if failed { return true, sent; }
        updated := updated + [next];
        changed := changed || touched;
      }
      HandledAll(reminders, tick, updated, sent, changed);
      if changed {
        if !tick.writes { return true, sent; }
        content := Some(WriteFile(updated, render));
        AllFaithful(reminders, tick, updated, render, parse);
        ReadWritten(updated, render, parse);
      }
    }
  }

  // A list that a poll writes back holds no null record.
  lemma {:induction false} AllFaithful(list: seq<Reminder>, tick: Tick, updated: seq<Reminder>,
      render: Reminder -> string, parse: string -> Option<Reminder>)
    requires forall r: Reminder | r.present :: Faithful([r], render, parse)
    requires !PollThrows(list, tick) && updated == Poll(list, tick)
    ensures Faithful(updated, render, parse)
  {
    hide Trimmed;
    forall i | 0 <= i < |list| ensures updated[i].present {
      PollKeeps(list, tick, i);
      assert !FateAt(list, i, tick).Threw?;
    }
    hide Poll;
    hide PollThrows;
    forall r | r in updated ensures Faithful([r], render, parse) {
    }
    forall r | r in updated
      ensures '\n' !in render(r) && render(r) != "" && Trimmed(render(r)) && parse(render(r)) == Some(r)
    {
      assert r in [r];
    }
  }

  // The loop has handled the first i reminders, none of which made it throw.
  ghost predicate Handled(list: seq<Reminder>, i: nat, tick: Tick, updated: seq<Reminder>, sent: set<nat>,
      changed: bool)
  {
    && i <= |list| && |updated| == i
    && (forall j | 0 <= j < i :: updated[j] == After(list[j], FateAt(list, j, tick)))
    && ThrowsAt(list, 0, tick) == ThrowsAt(list, i, tick)
    && sent == (set j | 0 <= j < i && FateAt(list, j, tick).Sent? :: j)
    && changed == (exists j | 0 <= j < i :: Changes(FateAt(list, j, tick)))
  }

  lemma {:induction false} HandledNone(list: seq<Reminder>, tick: Tick)
    ensures Handled(list, 0, tick, [], {}, false)
  {
  }

  lemma {:induction false} HandledOneMore(
    list: seq<Reminder>, i: nat, tick: Tick, updated: seq<Reminder>, sent: set<nat>, changed: bool
  )
    requires i < |list| && Handled(list, i, tick, updated, sent, changed)
    ensures var fate := FateAt(list, i, tick);
      if fate.Threw? then
        PollThrows(list, tick) && SentBy(list, tick) == if fate.afterSend then sent + {i} else sent
      else
        Handled(list, i + 1, tick, updated + [After(list[i], fate)], if fate.Sent? then sent + {i} else sent,
                changed || Changes(fate))
  {
    hide FateAt;
    hide After;
  }

  // What the loop has gathered at its end; without a change there is nothing to write.
  lemma {:induction false} HandledAll(list: seq<Reminder>, tick: Tick, updated: seq<Reminder>, sent: set<nat>,
      changed: bool)
    requires Handled(list, |list|, tick, updated, sent, changed)
    ensures sent == SentBy(list, tick)
    ensures PollThrows(list, tick) <==> changed && !tick.writes
    ensures !PollThrows(list, tick) ==> updated == Poll(list, tick)
    ensures !changed ==> updated == list
  {
    hide FateAt;
  }

  lemma {:induction false} SomeSend(targets: seq<Target>, i: nat, sends: (nat, nat) -> bool)
    ensures |set j | 0 <= j < |targets| && sends(i, j)| == 0 <==> !exists j | 0 <= j < |targets| :: sends(i, j)
  {
    var all := set j | 0 <= j < |targets| && sends(i, j);
    if j :| 0 <= j < |targets| && sends(i, j) { assert j in all; } else { assert all == {}; }
  }

  // Each line of a file adds the record it parses to, in order; one that is empty or does not parse adds none and does
  // not keep the others from being read.
  lemma {:induction false} LinesInOrder<R>(first: seq<string>, line: string, rest: seq<string>,
      parse: string -> Option<R>)
    ensures ParseLines([], parse) == []
    ensures ParseLines(first + [line] + rest, parse) ==
            ParseLines(first, parse) +
            (if line != "" && parse(line).Some? then [parse(line).value] else []) +
            ParseLines(rest, parse)
    decreases |first|
  {
    var all := first + [line] + rest;
    if first == [] {
      assert all == [line] + rest && all[1..] == rest;
    } else {
      assert all[0] == first[0] && all[1..] == first[1..] + [line] + rest;
      LinesInOrder(first[1..], line, rest, parse);
    }
  }
}

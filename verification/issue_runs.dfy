/** The loop over work batches that classifies the issues not processed before. */
module IssueRuns {
  import opened Basics
  import opened LabelBatches

  // The processed numbers, and the numbers classified in this run, in order.
  datatype Progress = Progress(state: set<nat>, classified: seq<nat>)

  function Pending(batch: seq<nat>, state: set<nat>): seq<nat> {
    if batch == [] then []
    else (if batch[0] in state then [] else [batch[0]]) + Pending(batch[1..], state)
  }

  function Numbers(batch: seq<nat>): set<nat> { set n | n in batch }

  // A batch is filtered by the state it starts with.
  function Process(p: Progress, batch: seq<nat>): Progress {
    var pending := Pending(batch, p.state);
    Progress(p.state + Numbers(pending), p.classified + pending)
  }

  function ProcessAll(p: Progress, batches: seq<seq<nat>>): Progress {
    if batches == [] then p else Process(ProcessAll(p, batches[..|batches| - 1]), batches[|batches| - 1])
  }

  lemma {:induction false} ProcessStep(p: Progress, batches: seq<seq<nat>>, i: nat)
    requires i < |batches|
    ensures ProcessAll(p, batches[..i + 1]) == Process(ProcessAll(p, batches[..i]), batches[i])
  {
    assert batches[..i + 1][..i] == batches[..i];
  }

  // The issues of one batch.
  method ClassifyBatch(batch: seq<nat>, state: set<nat>) returns (issueState: set<nat>, classified: seq<nat>)
    ensures classified == Pending(batch, state) && issueState == state + Numbers(classified)
  {
    var pendingIssues := Pending(batch, state);
    hide Pending;
    issueState, classified := state, [];
    var i := 0;
    while i < |pendingIssues|
      invariant 0 <= i <= |pendingIssues|
      invariant issueState == state + Numbers(pendingIssues[..i])
      invariant classified == pendingIssues[..i]
    {
      NumbersLast(pendingIssues[..i], pendingIssues[i]);
      assert pendingIssues[..i + 1] == pendingIssues[..i] + [pendingIssues[i]];
      classified := classified + [pendingIssues[i]];
      issueState := issueState + {pendingIssues[i]};
      i := i + 1;
    }
    assert pendingIssues[..i] == pendingIssues;
  }

  lemma {:induction false} NumbersLast(batch: seq<nat>, n: nat)
    ensures Numbers(batch + [n]) == Numbers(batch) + {n}
  {
  }

  // The issue loop of main; the state is saved after each batch.
  method ClassifyIssues(batches: seq<seq<nat>>, loaded: set<nat>) returns (issueState: set<nat>, classified: seq<nat>)
    ensures Progress(issueState, classified) == ProcessAll(Progress(loaded, []), batches)
  {
    issueState, classified := loaded, [];
    var b := 0;
    while b < |batches|
      invariant 0 <= b <= |batches|
      invariant Progress(issueState, classified) == ProcessAll(Progress(loaded, []), batches[..b])
    {
      ProcessStep(Progress(loaded, []), batches, b);
      hide Pending;
      hide Numbers;
      hide ProcessAll;
      var done: seq<nat>;
      issueState, done := ClassifyBatch(batches[b], issueState);
      classified := classified + done;
      b := b + 1;
    }
    assert batches[..b] == batches;
  }

  // ---- What is classified ----

  lemma {:induction false} PendingExact(batch: seq<nat>, state: set<nat>, n: nat)
    ensures multiset(Pending(batch, state))[n] == if n in state then 0 else multiset(batch)[n]
  {
    if batch != [] {
      PendingExact(batch[1..], state, n);
      assert batch == [batch[0]] + batch[1..];
    }
  }

  // How often a number occurs in the first batch that holds it.
  function FirstCount(batches: seq<seq<nat>>, n: nat): nat {
    if batches == [] then 0
    else if n in batches[0] then multiset(batches[0])[n]
    else FirstCount(batches[1..], n)
  }

  lemma {:induction false} FirstCountLast(batches: seq<seq<nat>>, batch: seq<nat>, n: nat)
    ensures n in Flatten(batches) <==> FirstCount(batches, n) > 0
    ensures FirstCount(batches + [batch], n) ==
            if n in Flatten(batches) then FirstCount(batches, n) else multiset(batch)[n]
    decreases |batches|
  {
    var all := batches + [batch];
    if batches == [] {
      assert all[1..] == [];
    } else {
      assert all[1..] == batches[1..] + [batch];
      FirstCountLast(batches[1..], batch, n);
      FlattenFirst(batches);
    }
  }

  lemma {:induction false} FlattenFirst(parts: seq<seq<nat>>)
    requires parts != []
    ensures Flatten(parts) == parts[0] + Flatten(parts[1..])
    decreases |parts|
  {
    var n := |parts| - 1;
    if n > 0 {
      FlattenFirst(parts[..n]);
      assert parts[..n][1..] == parts[1..][..n - 1];
    } else {
      assert parts[..0] == [] && parts[1..] == [];
    }
  }

  lemma {:induction false} ProcessCount(p: Progress, batch: seq<nat>, n: nat)
    ensures var q := Process(p, batch);
      && multiset(q.classified)[n] == multiset(p.classified)[n] + (if n in p.state then 0 else multiset(batch)[n])
      && (n in q.state <==> n in p.state || n in batch)
  {
    PendingExact(batch, p.state, n);
    hide Pending;
    assert n in batch <==> multiset(batch)[n] > 0;
    assert n in Pending(batch, p.state) <==> multiset(Pending(batch, p.state))[n] > 0;
  }

  // A number is classified as often as it occurs in the first batch that holds it, and never if it was loaded;
  // the final state adds every number of every batch.
  lemma {:induction false} ClassifiedCount(batches: seq<seq<nat>>, loaded: set<nat>, n: nat)
    ensures var p := ProcessAll(Progress(loaded, []), batches);
      && multiset(p.classified)[n] == (if n in loaded then 0 else FirstCount(batches, n))
      && (n in p.state <==> n in loaded || n in Flatten(batches))
  {
    if batches != [] {
      var k := |batches| - 1;
      ClassifiedCount(batches[..k], loaded, n);
      var before := ProcessAll(Progress(loaded, []), batches[..k]);
      assert batches == batches[..k] + [batches[k]];
      assert n in Flatten(batches) <==> n in Flatten(batches[..k]) || n in batches[k];
      FirstCountLast(batches[..k], batches[k], n);
      ProcessCount(before, batches[k], n);
      hide Process;
      hide Pending;
      hide FirstCount;
    }
  }

  // No issue is classified twice exactly when no new number is repeated in the first batch that holds it.
  lemma {:induction false} OnceExactly(batches: seq<seq<nat>>, loaded: set<nat>)
    ensures (forall n: nat :: multiset(ProcessAll(Progress(loaded, []), batches).classified)[n] <= 1) <==>
            (forall n: nat | n !in loaded :: FirstCount(batches, n) <= 1)
  {
    forall n: nat ensures multiset(ProcessAll(Progress(loaded, []), batches).classified)[n] ==
                          (if n in loaded then 0 else FirstCount(batches, n))
    {
      ClassifiedCount(batches, loaded, n);
    }
  }

  // A number twice in one batch is classified twice; the same number in two batches only once.
  lemma {:induction false} TwiceInOneBatch(n: nat)
    ensures ProcessAll(Progress({}, []), [[n, n]]).classified == [n, n]
    ensures ProcessAll(Progress({}, []), [[n], [n]]).classified == [n]
  {
    var p := Progress({}, []);
    assert Pending([n], {}) == [n];
    assert [n, n][1..] == [n] && Pending([n, n], {}) == [n, n];
    var twice, apart := [[n, n]], [[n], [n]];
    ProcessStep(p, twice, 0);
    ProcessStep(p, apart, 0);
    ProcessStep(p, apart, 1);
    assert twice[..0] == [] && apart[..0] == [] && twice[..1] == twice && apart[..2] == apart;
    assert Numbers([n]) == {n};
    assert Process(p, [n]) == Progress({n}, [n]);
    assert Pending([n], {n}) == [] && Numbers([]) == {};
  }

  // ---- Resuming ----

  lemma {:induction false} NothingPending(batch: seq<nat>, state: set<nat>)
    requires Numbers(batch) <= state
    ensures Pending(batch, state) == []
  {
    if batch != [] {
      assert batch[0] in Numbers(batch);
      assert Numbers(batch[1..]) <= Numbers(batch);
      NothingPending(batch[1..], state);
    }
  }

  lemma {:induction false} ProcessAppend(p: Progress, done: seq<seq<nat>>, rest: seq<seq<nat>>)
    ensures ProcessAll(p, done + rest) == ProcessAll(ProcessAll(p, done), rest)
  {
    hide Process;
    if rest == [] {
      assert done + rest == done;
    } else {
      var k := |rest| - 1;
      ProcessAppend(p, done, rest[..k]);
      assert (done + rest)[..|done| + k] == done + rest[..k];
    }
  }

  lemma {:induction false} NothingLeft(p: Progress, batches: seq<seq<nat>>)
    requires forall n | n in Flatten(batches) :: n in p.state
    ensures ProcessAll(p, batches) == p
  {
    if batches != [] {
      var k := |batches| - 1;
      NothingLeft(p, batches[..k]);
      NothingPending(batches[k], p.state);
      assert Numbers([]) == {};
    }
  }

  // A run interrupted after some batches and started again from its saved state on all of them classifies what
  // the uninterrupted run would have gone on to classify, and ends in the same state.
  lemma {:induction false} ResumeLosesNothing(done: seq<seq<nat>>, rest: seq<seq<nat>>, loaded: set<nat>)
    ensures var initial := ProcessAll(Progress(loaded, []), done);
      var again := ProcessAll(Progress(initial.state, []), done + rest);
      var whole := ProcessAll(Progress(loaded, []), done + rest);
      whole == Progress(again.state, initial.classified + again.classified)
  {
    var initial := ProcessAll(Progress(loaded, []), done);
    forall n | n in Flatten(done) ensures n in initial.state {
      ClassifiedCount(done, loaded, n);
    }
    var reloaded := Progress(initial.state, []);
    NothingLeft(reloaded, done);
    ProcessAppend(reloaded, done, rest);
    ProcessAppend(Progress(loaded, []), done, rest);
    KeepClassified(initial, rest);
  }

  lemma {:induction false} KeepClassified(p: Progress, batches: seq<seq<nat>>)
    ensures var again := ProcessAll(Progress(p.state, []), batches);
      ProcessAll(p, batches) == Progress(again.state, p.classified + again.classified)
  {
    hide Pending;
    hide Numbers;
    if batches != [] {
      var k := |batches| - 1;
      KeepClassified(p, batches[..k]);
      ProcessKeeps(ProcessAll(Progress(p.state, []), batches[..k]), p.classified, batches[k]);
      hide Process;
    }
  }

  lemma {:induction false} ProcessKeeps(p: Progress, before: seq<nat>, batch: seq<nat>)
    ensures Process(Progress(p.state, before + p.classified), batch) ==
            Progress(Process(p, batch).state, before + Process(p, batch).classified)
  {
  }

  // ---- Order ----

  // The numbers of a batch that were neither loaded nor seen earlier, in their order.
  function NewNumbers(batch: seq<nat>, loaded: set<nat>, earlier: seq<nat>): seq<nat> {
    Kept(batch, n => n !in loaded && n !in earlier)
  }

  lemma {:induction false} PendingNew(batch: seq<nat>, state: set<nat>, loaded: set<nat>, earlier: seq<nat>)
    requires forall n: nat :: n in state <==> n in loaded || n in earlier
    ensures Pending(batch, state) == NewNumbers(batch, loaded, earlier)
    decreases |batch|
  {
    if batch != [] { PendingNew(batch[1..], state, loaded, earlier); }
  }

  // A run classifies batch by batch, of each the numbers that neither were loaded nor occur in an earlier batch, in
  // their order.
  lemma {:induction false} BatchInOrder(batches: seq<seq<nat>>, loaded: set<nat>, k: nat)
    requires k < |batches|
    ensures var before := ProcessAll(Progress(loaded, []), batches[..k]);
      ProcessAll(Progress(loaded, []), batches[..k + 1]).classified ==
      before.classified + NewNumbers(batches[k], loaded, Flatten(batches[..k]))
  {
    var start := Progress(loaded, []);
    var before := ProcessAll(start, batches[..k]);
    ProcessStep(start, batches, k);
    forall n: nat ensures n in before.state <==> n in loaded || n in Flatten(batches[..k]) {
      ClassifiedCount(batches[..k], loaded, n);
    }
    hide ProcessAll;
    PendingNew(batches[k], before.state, loaded, Flatten(batches[..k]));
  }
}

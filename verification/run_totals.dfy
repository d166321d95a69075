/** Nested totals: tallies of recorded runs summed per job and per model of a job. */
module RunTotals {
  datatype Tally = Tally(runs: nat, missing: nat, input: nat, output: nat, total: nat)

  const ZERO := Tally(0, 0, 0, 0, 0)

  function Plus(a: Tally, b: Tally): Tally {
    Tally(a.runs + b.runs, a.missing + b.missing, a.input + b.input, a.output + b.output, a.total + b.total)
  }

  lemma {:induction false} PlusLaws(a: Tally, b: Tally, c: Tally)
    ensures Plus(a, ZERO) == a && Plus(ZERO, a) == a
    ensures Plus(a, b) == Plus(b, a)
    ensures Plus(a, Plus(b, c)) == Plus(Plus(a, b), c) == Plus(b, Plus(a, c))
  {
  }

  // One run: its job, its model and what it adds.
  datatype Line<K> = Line(job: K, model: K, tally: Tally)

  datatype Job<K(==)> = Job(sums: Tally, models: map<K, Tally>)

  function TallyAt<K>(models: map<K, Tally>, name: K): Tally { if name in models then models[name] else ZERO }

  function JobAt<K>(totals: map<K, Job<K>>, id: K): Job<K> { if id in totals then totals[id] else Job(ZERO, map[]) }

  function Bumped<K>(models: map<K, Tally>, name: K, t: Tally): map<K, Tally> {
    models[name := Plus(TallyAt(models, name), t)]
  }

  function Add<K>(totals: map<K, Job<K>>, l: Line<K>): map<K, Job<K>> {
    var job := JobAt(totals, l.job);
    totals[l.job := Job(Plus(job.sums, l.tally), Bumped(job.models, l.model, l.tally))]
  }

  function Totals<K(==)>(lines: seq<Line<K>>): map<K, Job<K>> {
    if lines == [] then map[] else Add(Totals(lines[..|lines| - 1]), lines[|lines| - 1])
  }

  // ---- What the totals are ----

  function Sum<K>(lines: seq<Line<K>>): Tally {
    if lines == [] then ZERO else Plus(Sum(lines[..|lines| - 1]), lines[|lines| - 1].tally)
  }

  function OfJob<K(==)>(lines: seq<Line<K>>, id: K): seq<Line<K>> {
    if lines == [] then []
    else
      var last := lines[|lines| - 1];
      OfJob(lines[..|lines| - 1], id) + if last.job == id then [last] else []
  }

  function OfModel<K(==)>(lines: seq<Line<K>>, model: K): seq<Line<K>> {
    if lines == [] then []
    else
      var last := lines[|lines| - 1];
      OfModel(lines[..|lines| - 1], model) + if last.model == model then [last] else []
  }

  lemma {:induction false} SumLast<K>(lines: seq<Line<K>>, l: Line<K>)
    ensures Sum(lines + [l]) == Plus(Sum(lines), l.tally)
  {
  }

  lemma {:induction false} OfModelLast<K>(lines: seq<Line<K>>, l: Line<K>, model: K)
    ensures OfModel(lines + [l], model) == OfModel(lines, model) + if l.model == model then [l] else []
  {
  }

  // A job is listed when it has a run, with the sums over its runs; so is a model of a job.
  lemma {:induction false} TotalsExact<K>(lines: seq<Line<K>>, id: K, model: K)
    ensures id in Totals(lines) <==> OfJob(lines, id) != []
    ensures JobAt(Totals(lines), id).sums == Sum(OfJob(lines, id))
    ensures model in JobAt(Totals(lines), id).models <==> OfModel(OfJob(lines, id), model) != []
    ensures TallyAt(JobAt(Totals(lines), id).models, model) == Sum(OfModel(OfJob(lines, id), model))
  {
    if lines != [] {
      var init, last := lines[..|lines| - 1], lines[|lines| - 1];
      TotalsExact(init, id, model);
      var own := OfJob(init, id);
      if last.job == id {
        SumLast(own, last);
        OfModelLast(own, last, model);
        SumLast(OfModel(own, model), last);
        assert OfModel(own, model) + [] == OfModel(own, model);
      } else {
        assert OfJob(lines, id) == own;
      }
    }
  }

  // ---- Conservation ----

  // The sum over all entries of a table.
  ghost function SumOf<K>(models: map<K, Tally>): Tally
    decreases |models|
  {
    if |models| == 0 then ZERO
    else
      var m :| m in models;
      Plus(models[m], SumOf(models - {m}))
  }

  lemma {:induction false} SumPick<K>(models: map<K, Tally>, m: K)
    requires m in models
    ensures SumOf(models) == Plus(models[m], SumOf(models - {m}))
    decreases |models|
  {
    hide Plus;
    var k :| k in models && SumOf(models) == Plus(models[k], SumOf(models - {k}));
    hide SumOf;
    if k != m {
      SumPick(models - {k}, m);
      SumPick(models - {m}, k);
      assert models - {k} - {m} == models - {m} - {k};
      PlusLaws(models[k], models[m], SumOf(models - {m} - {k}));
    }
  }

  lemma {:induction false} SumBumped<K>(models: map<K, Tally>, m: K, t: Tally)
    ensures SumOf(Bumped(models, m, t)) == Plus(SumOf(models), t)
  {
    hide Plus;
    hide SumOf;
    var after := Bumped(models, m, t);
    SumPick(after, m);
    assert after - {m} == models - {m};
    PlusLaws(t, TallyAt(models, m), SumOf(models - {m}));
    PlusLaws(t, SumOf(models), ZERO);
    PlusLaws(TallyAt(models, m), t, ZERO);
    if m in models {
      SumPick(models, m);
    } else {
      assert models - {m} == models;
    }
  }

  // Every total of a job is the sum over its models.
  lemma {:induction false} ModelsAddUp<K>(lines: seq<Line<K>>, id: K)
    ensures JobAt(Totals(lines), id).sums == SumOf(JobAt(Totals(lines), id).models)
  {
    if lines != [] {
      var init, last := lines[..|lines| - 1], lines[|lines| - 1];
      ModelsAddUp(init, id);
      SumBumped(JobAt(Totals(init), id).models, last.model, last.tally);
    }
  }

  function JobSums<K>(totals: map<K, Job<K>>): map<K, Tally> {
    map id | id in totals :: totals[id].sums
  }

  // Every total of all jobs together is the sum over all runs.
  lemma {:induction false} JobsAddUp<K>(lines: seq<Line<K>>)
    ensures SumOf(JobSums(Totals(lines))) == Sum(lines)
  {
    if lines != [] {
      var init, last := lines[..|lines| - 1], lines[|lines| - 1];
      JobsAddUp(init);
      JobSumsAdd(Totals(init), last);
      hide JobSums;
      hide Bumped;
      hide Plus;
      SumBumped(JobSums(Totals(init)), last.job, last.tally);
    }
  }

  lemma {:induction false} JobSumsAdd<K>(totals: map<K, Job<K>>, l: Line<K>)
    ensures JobSums(Add(totals, l)) == Bumped(JobSums(totals), l.job, l.tally)
  {
    hide Plus;
    PlusLaws(l.tally, ZERO, ZERO);
  }

  // ---- Order ----

  lemma {:induction false} SumAppend<K>(a: seq<Line<K>>, b: seq<Line<K>>)
    ensures Sum(a + b) == Plus(Sum(a), Sum(b))
  {
    hide Plus;
    PlusLaws(Sum(a), ZERO, ZERO);
    if b == [] {
      assert a + b == a;
    } else {
      PlusLaws(Sum(a), Sum(b[..|b| - 1]), b[|b| - 1].tally);
      SumAppend(a, b[..|b| - 1]);
      assert (a + b)[..|a + b| - 1] == a + b[..|b| - 1];
    }
  }

  lemma {:induction false} OfJobAppend<K>(a: seq<Line<K>>, b: seq<Line<K>>, id: K)
    ensures OfJob(a + b, id) == OfJob(a, id) + OfJob(b, id)
  {
    if b == [] {
      assert a + b == a;
    } else {
      OfJobAppend(a, b[..|b| - 1], id);
      assert (a + b)[..|a + b| - 1] == a + b[..|b| - 1];
    }
  }

  lemma {:induction false} OfModelAppend<K>(a: seq<Line<K>>, b: seq<Line<K>>, model: K)
    ensures OfModel(a + b, model) == OfModel(a, model) + OfModel(b, model)
  {
    if b == [] {
      assert a + b == a;
    } else {
      OfModelAppend(a, b[..|b| - 1], model);
      assert (a + b)[..|a + b| - 1] == a + b[..|b| - 1];
    }
  }

  lemma {:induction false} SwappedSums<K>(a: seq<Line<K>>, b: seq<Line<K>>)
    ensures Sum(a + b) == Sum(b + a) && (a + b == [] <==> b + a == [])
  {
    hide Sum;
    hide Plus;
    SumAppend(a, b);
    SumAppend(b, a);
    PlusLaws(Sum(a), Sum(b), ZERO);
  }

  lemma {:induction false} SwappedAt<K>(a: seq<Line<K>>, b: seq<Line<K>>, id: K, model: K)
    ensures var x, y := Totals(a + b), Totals(b + a);
      && (id in x <==> id in y) && JobAt(x, id).sums == JobAt(y, id).sums
      && (model in JobAt(x, id).models <==> model in JobAt(y, id).models)
      && TallyAt(JobAt(x, id).models, model) == TallyAt(JobAt(y, id).models, model)
  {
    hide *;
    TotalsExact(a + b, id, model);
    TotalsExact(b + a, id, model);
    OfJobAppend(a, b, id);
    OfJobAppend(b, a, id);
    var p, q := OfJob(a, id), OfJob(b, id);
    SwappedSums(p, q);
    OfModelAppend(p, q, model);
    OfModelAppend(q, p, model);
    SwappedSums(OfModel(p, model), OfModel(q, model));
  }

  // Reading two logs in the other order gives the same totals.
  lemma {:induction false} LogOrderIrrelevant<K(!new)>(a: seq<Line<K>>, b: seq<Line<K>>)
    ensures Totals(a + b) == Totals(b + a)
  {
    var x, y := Totals(a + b), Totals(b + a);
    forall id ensures (id in x <==> id in y) && JobAt(x, id) == JobAt(y, id) {
      SameJob(a, b, id);
    }
    assert forall id | id in x :: x[id] == JobAt(x, id) == JobAt(y, id) == y[id];
  }

  lemma {:induction false} SameJob<K(!new)>(a: seq<Line<K>>, b: seq<Line<K>>, id: K)
    ensures var x, y := Totals(a + b), Totals(b + a);
      (id in x <==> id in y) && JobAt(x, id) == JobAt(y, id)
  {
    var x, y := JobAt(Totals(a + b), id), JobAt(Totals(b + a), id);
    SwappedAt(a, b, id, id);
    forall model
      ensures (model in x.models <==> model in y.models) && TallyAt(x.models, model) == TallyAt(y.models, model)
    {
      SwappedAt(a, b, id, model);
    }
    assert forall model | model in x.models :: x.models[model] == TallyAt(x.models, model) == y.models[model];
    assert x.models == y.models;
  }
}

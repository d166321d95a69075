/** The usage report over finished cron runs: which entries count, what each adds, and the loop that sums them. */
module CronUsage {
  import opened Basics
  import opened RunTotals
  import opened Text

  // A number of the log, or what stands in its place.
  datatype Field = Absent | Null | Number(value: real)

  datatype Usage = Usage(total: Field, input: Field, output: Field)

  // A parsed line of a run log.
  datatype Entry = Entry(ts: real, jobId: string, model: Option<string>, usage: Option<Usage>)

  // The window, and the job and model to report on; "" is any.
  datatype Filters = Filters(from: real, to: real, jobId: string, model: string)

  function ModelName(e: Entry): string {
    var name := if e.model.None? then "<unknown>" else Trim(e.model.value);
    if name == "" then "<unknown>" else name
  }

  predicate Passes(e: Entry, f: Filters) {
    f.from <= e.ts <= f.to && (f.jobId == "" || e.jobId == f.jobId) && (f.model == "" || ModelName(e) == f.model)
  }

  // total ?? input ?? output is not undefined; a null output still counts as one.
  predicate HasUsage(e: Entry) {
    e.usage.Some? &&
    var u := e.usage.value;
    u.total.Number? || u.input.Number? || u.output != Absent
  }

  // Tokens are whole and not negative.
  function Tokens(x: real): nat { if x < 0.0 then 0 else x.Floor }

  function Reading(x: Field, otherwise: nat): nat { if x.Number? then Tokens(x.value) else otherwise }

  // What one entry adds to its job and to its model.
  function Contribution(e: Entry): Tally {
    if !HasUsage(e) then Tally(1, 1, 0, 0, 0)
    else
      var input, output := Reading(e.usage.value.input, 0), Reading(e.usage.value.output, 0);
      Tally(1, 0, input, output, Reading(e.usage.value.total, input + output))
  }

  // The runs that pass the window and the filters.
  function Lines(entries: seq<Entry>, f: Filters): seq<Line<string>> {
    if entries == [] then []
    else
      var last := entries[|entries| - 1];
      Lines(entries[..|entries| - 1], f) +
      if Passes(last, f) then [Line(last.jobId, ModelName(last), Contribution(last))] else []
  }

  // One turn of the loop of main, for an entry that passes.
  method Record(totals: map<string, Job<string>>, entry: Entry) returns (r: map<string, Job<string>>)
    ensures r == Add(totals, Line(entry.jobId, ModelName(entry), Contribution(entry)))
  {
    hide ModelName;
    hide Contribution;
    hide Plus;
    var model := ModelName(entry);
    var jobAgg := if entry.jobId in totals then totals[entry.jobId] else Job(ZERO, map[]);
    var modelAgg := if model in jobAgg.models then jobAgg.models[model] else ZERO;
    var jobSums, modelSums := Counted(jobAgg.sums, modelAgg, entry);
    r := totals[entry.jobId := Job(jobSums, jobAgg.models[model := modelSums])];
  }

  // The two accumulators of an entry, counted up field by field.
  method Counted(job: Tally, model: Tally, entry: Entry) returns (jobSums: Tally, modelSums: Tally)
    ensures jobSums == Plus(job, Contribution(entry)) && modelSums == Plus(model, Contribution(entry))
  {
    jobSums := job.(runs := job.runs + 1);
    modelSums := model.(runs := model.runs + 1);
    if !HasUsage(entry) {
      jobSums := jobSums.(missing := jobSums.missing + 1);
      modelSums := modelSums.(missing := modelSums.missing + 1);
      return;
    }
    var usage := entry.usage.value;
    var input := Reading(usage.input, 0);
    var output := Reading(usage.output, 0);
    var total := Reading(usage.total, input + output);
    jobSums := jobSums.(input := jobSums.input + input);
    jobSums := jobSums.(output := jobSums.output + output);
    jobSums := jobSums.(total := jobSums.total + total);
    modelSums := modelSums.(input := modelSums.input + input);
    modelSums := modelSums.(output := modelSums.output + output);
    modelSums := modelSums.(total := modelSums.total + total);
  }

  // The aggregation loop of main.
  method Aggregate(entries: seq<Entry>, f: Filters) returns (totalsByJob: map<string, Job<string>>)
    ensures totalsByJob == Totals(Lines(entries, f))
  {
    hide Add;
    totalsByJob := map[];
    var i := 0;
    while i < |entries|
      invariant 0 <= i <= |entries|
      invariant totalsByJob == Totals(Lines(entries[..i], f))
    {
      LinesStep(entries, f, i);
      hide Lines;
      var entry := entries[i];
      if Passes(entry, f) {
        TotalsLast(Lines(entries[..i], f), Line(entry.jobId, ModelName(entry), Contribution(entry)));
        totalsByJob := Record(totalsByJob, entry);
      }
      i := i + 1;
    }
    assert entries[..i] == entries;
  }

  lemma {:induction false} LinesStep(entries: seq<Entry>, f: Filters, i: nat)
    requires i < |entries|
    ensures var e, before := entries[i], Lines(entries[..i], f);
      Lines(entries[..i + 1], f) == if Passes(e, f) then before + [Line(e.jobId, ModelName(e),
        Contribution(e))] else before
  {
    hide ModelName;
    hide Contribution;
    assert entries[..i + 1][..i] == entries[..i];
  }

  lemma {:induction false} TotalsLast(lines: seq<Line<string>>, l: Line<string>)
    ensures Totals(lines + [l]) == Add(Totals(lines), l)
  {
  }

  // ---- The report of a log ----

  function Passing(entries: seq<Entry>, f: Filters): nat {
    if entries == [] then 0
    else Passing(entries[..|entries| - 1], f) + if Passes(entries[|entries| - 1], f) then 1 else 0
  }

  lemma {:induction false} OneRun(e: Entry)
    ensures Contribution(e).runs == 1
  {
  }

  lemma {:induction false} RunsPassing(entries: seq<Entry>, f: Filters)
    ensures Sum(Lines(entries, f)).runs == Passing(entries, f)
  {
    hide ModelName;
    hide Passes;
    hide Contribution;
    if entries == [] {
      assert Lines(entries, f) == [];
    } else {
      hide Lines;
      var n := |entries| - 1;
      var e := entries[n];
      RunsPassing(entries[..n], f);
      LinesStep(entries, f, n);
      assert entries[..n + 1] == entries;
      SumLast(Lines(entries[..n], f), Line(e.jobId, ModelName(e), Contribution(e)));
      OneRun(e);
    }
  }

  // For every log: each job's five totals are the sums over its models, and the runs of all jobs together are the
  // entries that pass the window and the filters.
  lemma {:induction false} ReportAddsUp(entries: seq<Entry>, f: Filters)
    ensures var totals := Totals(Lines(entries, f));
      && (forall id | id in totals :: totals[id].sums == SumOf(totals[id].models))
      && SumOf(JobSums(totals)).runs == Passing(entries, f)
  {
    var lines := Lines(entries, f);
    hide Lines;
    forall id | id in Totals(lines) ensures Totals(lines)[id].sums == SumOf(Totals(lines)[id].models) {
      ModelsAddUp(lines, id);
    }
    JobsAddUp(lines);
    RunsPassing(entries, f);
  }

  // ---- What the report says of a job, in the terms of the log ----

  // The whole tokens of a field that is a number, or what stands in for one that is not.
  predicate Reads(f: Field, otherwise: nat, tokens: nat) {
    match f
    case Number(x) => if x < 0.0 then tokens == 0 else tokens as real <= x < tokens as real + 1.0
    case _ => tokens == otherwise
  }

  // An entry adds one run; it is one without usage when no field says anything, and then it adds no tokens; otherwise
  // it adds its own input and output, and its own total or else their sum.
  lemma {:induction false} EntryAdds(e: Entry)
    ensures var t := Contribution(e);
      && t.runs == 1
      && t.missing == (if e.usage.Some? && (e.usage.value.total.Number? || e.usage.value.input.Number? ||
                                            e.usage.value.output.Number? || e.usage.value.output.Null?)
                       then 0 else 1)
      && (t.missing == 1 ==> t.input == t.output == t.total == 0)
      && (t.missing == 0 ==>
            && Reads(e.usage.value.input, 0, t.input) && Reads(e.usage.value.output, 0, t.output)
            && Reads(e.usage.value.total, t.input + t.output, t.total))
  {
  }

  // A model is reported under its trimmed name, and under "<unknown>" when that is blank or missing.
  lemma {:induction false} ModelNamed(e: Entry)
    ensures e.model.Some? && Trim(e.model.value) != "" ==> ModelName(e) == Trim(e.model.value)
    ensures e.model.None? || Trim(e.model.value) == "" ==> ModelName(e) == "<unknown>"
  {
    hide Trim;
  }

  // The entry is of the job, and of the model if one is given, in the window, and not filtered out.
  predicate Reported(e: Entry, f: Filters, id: string, model: Option<string>) {
    && e.jobId == id && f.from <= e.ts && e.ts <= f.to
    && (f.jobId == "" || f.jobId == id) && (f.model == "" || f.model == ModelName(e))
    && (model.None? || model.value == ModelName(e))
  }

  function Added(entries: seq<Entry>): Tally {
    if entries == [] then ZERO else Plus(Added(entries[..|entries| - 1]), Contribution(entries[|entries| - 1]))
  }

  lemma {:induction false} AddedLast(entries: seq<Entry>, e: Entry)
    ensures Added(entries + [e]) == Plus(Added(entries), Contribution(e))
  {
  }

  // The reported entries, in their order.
  function Own(entries: seq<Entry>, f: Filters, id: string, model: Option<string>): seq<Entry> {
    Kept(entries, e => Reported(e, f, id, model))
  }

  lemma {:induction false} OwnLast(entries: seq<Entry>, e: Entry, f: Filters, id: string, model: Option<string>)
    ensures Own(entries + [e], f, id, model) ==
            Own(entries, f, id, model) + if Reported(e, f, id, model) then [e] else []
  {
    hide Reported;
    KeptAppend(entries, [e], x => Reported(x, f, id, model));
  }

  lemma {:induction false} ReportedPasses(e: Entry, f: Filters, id: string, model: string)
    ensures Reported(e, f, id, None) <==> Passes(e, f) && e.jobId == id
    ensures Reported(e, f, id, Some(model)) <==> Passes(e, f) && e.jobId == id && ModelName(e) == model
  {
    hide ModelName;
  }

  // The lines of a job, or of a model of it, stand for the reported entries.
  ghost predicate StandsFor(lines: seq<Line<string>>, entries: seq<Entry>) {
    |lines| == |entries| && Sum(lines) == Added(entries)
  }

  lemma {:induction false} LinesOfJob(entries: seq<Entry>, f: Filters, id: string, model: string)
    ensures StandsFor(OfJob(Lines(entries, f), id), Own(entries, f, id, None))
    ensures StandsFor(OfModel(OfJob(Lines(entries, f), id), model), Own(entries, f, id, Some(model)))
  {
    if entries != [] {
      var n := |entries| - 1;
      var before, e := entries[..n], entries[n];
      LinesOfJob(before, f, id, model);
      LinesStep(entries, f, n);
      hide *;
      assert entries[..n + 1] == entries == before + [e];
      OwnLast(before, e, f, id, None);
      OwnLast(before, e, f, id, Some(model));
      ReportedPasses(e, f, id, model);
      var l, lines := Line(e.jobId, ModelName(e), Contribution(e)), Lines(before, f);
      LineOfJob(lines, l, id, model);
      OneMore(OfJob(lines, id), l, Own(before, f, id, None), e);
      OneMore(OfModel(OfJob(lines, id), model), l, Own(before, f, id, Some(model)), e);
    } else {
      assert Own(entries, f, id, None) == Own(entries, f, id, Some(model)) == [];
    }
  }

  lemma {:induction false} OneMore(lines: seq<Line<string>>, l: Line<string>, entries: seq<Entry>, e: Entry)
    requires StandsFor(lines, entries) && l.tally == Contribution(e)
    ensures StandsFor(lines + [l], entries + [e])
    ensures lines + [] == lines && entries + [] == entries
  {
    hide Contribution;
    SumLast(lines, l);
    AddedLast(entries, e);
  }

  lemma {:induction false} LineOfJob(lines: seq<Line<string>>, l: Line<string>, id: string, model: string)
    ensures var own, own' := OfJob(lines, id), OfJob(lines + [l], id);
      && own' == own + (if l.job == id then [l] else [])
      && OfModel(own', model) == OfModel(own, model) + (if l.job == id && l.model == model then [l] else [])
  {
    var own := OfJob(lines, id);
    assert OfJob(lines + [l], id) == own + (if l.job == id then [l] else []);
    OfModelLast(own, l, model);
    assert own + [] == own && OfModel(own, model) + [] == OfModel(own, model);
  }

  // A job is reported exactly when some entry of it is, with what those entries add; so is each of its models.
  lemma {:induction false} JobReported(entries: seq<Entry>, f: Filters, id: string, model: string)
    ensures var totals := Totals(Lines(entries, f));
      && (id in totals <==> Own(entries, f, id, None) != [])
      && JobAt(totals, id).sums == Added(Own(entries, f, id, None))
      && (model in JobAt(totals, id).models <==> Own(entries, f, id, Some(model)) != [])
      && TallyAt(JobAt(totals, id).models, model) == Added(Own(entries, f, id, Some(model)))
  {
    LinesOfJob(entries, f, id, model);
    hide Lines;
    hide Own;
    hide OfJob;
    hide OfModel;
    hide Sum;
    hide Added;
    TotalsExact(Lines(entries, f), id, model);
  }
}

/** Labelling open issues: fetching pages into work batches, and classifying each issue once. */
module LabelBatches {
  import opened Basics

  const WORK_BATCH_SIZE: nat := 500

  // ---- Batches ----

  datatype Batch<T> = Batch(index: nat, items: seq<T>, fetchedCount: nat)

  function Flatten<T>(parts: seq<seq<T>>): seq<T> {
    if parts == [] then [] else Flatten(parts[..|parts| - 1]) + parts[|parts| - 1]
  }

  // The items up to a limit, if there is one.
  function Taken<T>(items: seq<T>, limit: Option<nat>): seq<T> {
    if limit.None? || |items| <= limit.value then items else items[..limit.value]
  }

  function Smaller(a: nat, b: nat): nat { if a < b then a else b }

  // The i-th batch of the items.
  function BatchAt<T>(items: seq<T>, i: nat): Batch<T>
    requires WORK_BATCH_SIZE * i <= |items|
  {
    var to := Smaller(WORK_BATCH_SIZE * (i + 1), |items|);
    Batch(i + 1, items[WORK_BATCH_SIZE * i..to], to)
  }

  // Consecutive stretches of the items, each full but the last.
  ghost predicate Batched<T>(batches: seq<Batch<T>>, items: seq<T>) {
    && |batches| == (|items| + WORK_BATCH_SIZE - 1) / WORK_BATCH_SIZE
    && forall i | 0 <= i < |batches| :: batches[i] == BatchAt(items, i)
  }

  // The batches yielded and the items collected since are the items seen so far.
  ghost predicate Filling<T>(batches: seq<Batch<T>>, results: seq<T>, seen: seq<T>) {
    && |seen| == WORK_BATCH_SIZE * |batches| + |results|
    && results == seen[WORK_BATCH_SIZE * |batches|..]
    && forall i | 0 <= i < |batches| :: batches[i] == BatchAt(seen, i)
  }

  lemma {:induction false} FillOne<T>(batches: seq<Batch<T>>, results: seq<T>, seen: seq<T>, x: T)
    requires Filling(batches, results, seen)
    ensures Filling(batches, results + [x], seen + [x])
  {
  }

  lemma {:induction false} YieldOne<T>(batches: seq<Batch<T>>, results: seq<T>, seen: seq<T>)
    requires Filling(batches, results, seen) && 0 < |results| <= WORK_BATCH_SIZE
    ensures var all := batches + [Batch(|batches| + 1, results, |seen|)];
      Batched(all, seen) && (|results| == WORK_BATCH_SIZE ==> Filling(all, [], seen))
  {
  }

  lemma {:induction false} FlattenStep<T>(pages: seq<seq<T>>, p: nat)
    requires p < |pages|
    ensures Flatten(pages[..p + 1]) == Flatten(pages[..p]) + pages[p]
  {
    assert pages[..p + 1][..p] == pages[..p];
  }

  lemma {:induction false} FlattenPrefix<T>(pages: seq<seq<T>>, p: nat)
    requires p <= |pages|
    ensures Flatten(pages[..p]) <= Flatten(pages)
    decreases |pages| - p
  {
    if p == |pages| {
      assert pages[..p] == pages;
    } else {
      FlattenStep(pages, p);
      FlattenPrefix(pages, p + 1);
    }
  }

  lemma {:induction false} SeenIsTaken<T>(pages: seq<seq<T>>, p: nat, k: nat, limit: Option<nat>)
    requires p < |pages| && k <= |pages[p]|
    requires var seen := Flatten(pages[..p]) + pages[p][..k];
      (limit.Some? && |seen| == limit.value) ||
      ((limit.None? || |seen| < limit.value) && p + 1 == |pages| && k == |pages[p]|)
    ensures Flatten(pages[..p]) + pages[p][..k] == Taken(Flatten(pages), limit)
  {
    var seen := Flatten(pages[..p]) + pages[p][..k];
    FlattenStep(pages, p);
    FlattenPrefix(pages, p + 1);
    assert seen <= Flatten(pages[..p + 1]);
    if p + 1 == |pages| { assert pages[..p + 1] == pages; }
    assert pages[p][..|pages[p]|] == pages[p];
  }

  // fetchOpenLabelItemBatches: a page has a next one exactly when one follows it in the list.
  method FetchBatches<T>(pages: seq<seq<T>>, limit: Option<nat>) returns (batches: seq<Batch<T>>)
    requires pages != []
    ensures Batched(batches, Taken(Flatten(pages), limit))
  {
    var results: seq<T> := [];
    var fetchedCount, batchIndex, page := 0, 1, 0;
    batches := [];
    ghost var seen: seq<T> := [];
    var more := true;
    assert pages[..0] == [];
    while more && (limit.None? || fetchedCount < limit.value)
      invariant 0 <= page < |pages|
      invariant limit.Some? ==> fetchedCount <= limit.value
      invariant Filling(batches, results, seen) && |results| < WORK_BATCH_SIZE
      invariant fetchedCount == |seen| && batchIndex == |batches| + 1
      invariant more ==> seen == Flatten(pages[..page])
      invariant !more ==> seen == Taken(Flatten(pages), limit)
      decreases more, |pages| - page
    {
      var nodes := pages[page];
      var k := 0;
      while k < |nodes| && (limit.None? || fetchedCount < limit.value)
        invariant 0 <= k <= |nodes|
        invariant limit.Some? ==> fetchedCount <= limit.value
        invariant Filling(batches, results, seen) && |results| < WORK_BATCH_SIZE
        invariant fetchedCount == |seen| && batchIndex == |batches| + 1
        invariant seen == Flatten(pages[..page]) + nodes[..k]
      {
        FillOne(batches, results, seen, nodes[k]);
        results := results + [nodes[k]];
        seen := seen + [nodes[k]];
        fetchedCount := fetchedCount + 1;
        k := k + 1;
        if |results| >= WORK_BATCH_SIZE {
          YieldOne(batches, results, seen);
          batches := batches + [Batch(batchIndex, results, fetchedCount)];
          results := [];
          batchIndex := batchIndex + 1;
        }
      }
      FlattenStep(pages, page);
      if page + 1 == |pages| || k < |nodes| {
        SeenIsTaken(pages, page, k, limit);
        more := false;
      } else {
        page := page + 1;
      }
    }
    if more { LimitReached(pages, page, seen, limit); }
    if |results| > 0 {
      YieldOne(batches, results, seen);
      batches := batches + [Batch(batchIndex, results, fetchedCount)];
    }
  }

  lemma {:induction false} LimitReached<T>(pages: seq<seq<T>>, p: nat, seen: seq<T>, limit: Option<nat>)
    requires p < |pages| && seen == Flatten(pages[..p]) && limit.Some? && |seen| == limit.value
    ensures seen == Taken(Flatten(pages), limit)
  {
    FlattenPrefix(pages, p);
  }

  // The batches put end to end are the items; each holds 500 but the last, which is not empty; the numbers
  // run from 1, and the counts are running totals.
  lemma {:induction false} BatchesCover<T>(batches: seq<Batch<T>>, items: seq<T>)
    requires Batched(batches, items)
    ensures Flatten(seq(|batches|, i requires 0 <= i < |batches| => batches[i].items)) == items
    ensures forall i | 0 <= i < |batches| :: batches[i].index == i + 1
    ensures forall i | 0 <= i < |batches| :: 0 < |batches[i].items| <= 500
    ensures forall i | 0 <= i < |batches| - 1 :: |batches[i].items| == 500
    ensures forall i | 0 <= i < |batches| ::
      batches[i].fetchedCount == (if i == 0 then 0 else batches[i - 1].fetchedCount) + |batches[i].items|
  {
    var parts := seq(|batches|, i requires 0 <= i < |batches| => batches[i].items);
    assert parts[..|batches|] == parts;
    if batches != [] { CoverFirst(batches, items, parts, |batches|); }
  }

  lemma {:induction false} CoverFirst<T>(batches: seq<Batch<T>>, items: seq<T>, parts: seq<seq<T>>, n: nat)
    requires Batched(batches, items) && n <= |batches| == |parts|
    requires forall i | 0 <= i < |parts| :: parts[i] == batches[i].items
    ensures Flatten(parts[..n]) == items[..Smaller(WORK_BATCH_SIZE * n, |items|)]
  {
    if n > 0 {
      CoverFirst(batches, items, parts, n - 1);
      FlattenStep(parts, n - 1);
    }
  }

  // All items are taken without a limit, and with one the first ones up to it.
  lemma {:induction false} TakenExactly<T>(items: seq<T>, limit: nat)
    ensures Taken(items, None) == items
    ensures |Taken(items, Some(limit))| == (if limit < |items| then limit else |items|)
    ensures Taken(items, Some(limit)) <= items
  {
  }
}

/** Fetching open issues in work batches (scripts/label-open-issues.ts,
    `fetchOpenLabelItemBatches`): pages of any size are cut into batches of 500. */
module LabelBatches {
  import opened Basics

  const WORK_BATCH_SIZE := 500

  /** One answer of the API; `nodes` stands for the items after mapping. */
  datatype Page<T> = Page(nodes: seq<T>, hasNextPage: bool)

  datatype Batch<T> = Batch(batchIndex: nat, items: seq<T>, fetchedCount: nat)

  /** Only the last page says that there is no next one. */
  predicate IsListing<T>(pages: seq<Page<T>>) {
    pages != [] && forall i | 0 <= i < |pages| :: pages[i].hasNextPage == (i < |pages| - 1)
  }

  function AllNodes<T>(pages: seq<Page<T>>): seq<T> {
    if pages == [] then [] else AllNodes(pages[..|pages| - 1]) + pages[|pages| - 1].nodes
  }

  function AllItems<T>(batches: seq<Batch<T>>): seq<T> {
    if batches == [] then [] else AllItems(batches[..|batches| - 1]) + batches[|batches| - 1].items
  }

  /** `None` is no limit. */
  function AtMost<T>(limit: Option<nat>, items: seq<T>): seq<T> {
    if limit.Some? && limit.value < |items| then items[..limit.value] else items
  }

  predicate IsBelow(count: nat, limit: Option<nat>) {
    limit.Some? ==> count < limit.value
  }

  /** Full batches, numbered from 1, each with the count of items so far. */
  ghost predicate AreFull<T>(batches: seq<Batch<T>>) {
    forall i | 0 <= i < |batches| ::
      && |batches[i].items| == WORK_BATCH_SIZE && batches[i].batchIndex == i + 1
      && batches[i].fetchedCount == (i + 1) * WORK_BATCH_SIZE
  }

  lemma {:induction false} OneMoreBatch<T>(batches: seq<Batch<T>>, batch: Batch<T>)
    ensures AllItems(batches + [batch]) == AllItems(batches) + batch.items
  {
    assert (batches + [batch])[..|batches|] == batches;
  }

  lemma {:induction false} FullBatchesCount<T>(batches: seq<Batch<T>>)
    requires AreFull(batches)
    ensures |AllItems(batches)| == |batches| * WORK_BATCH_SIZE
    decreases |batches|
  {
    if batches != [] { FullBatchesCount(batches[..|batches| - 1]); }
  }

  lemma {:induction false} PagesGrow<T>(pages: seq<Page<T>>, n: nat)
    requires n <= |pages|
    ensures AllNodes(pages[..n]) <= AllNodes(pages)
    decreases |pages| - n
  {
    if n < |pages| {
      assert pages[..n + 1][..n] == pages[..n];
      PagesGrow(pages, n + 1);
    } else {
      assert pages[..n] == pages;
    }
  }

  lemma {:induction false} PrefixUpToLimit<T>(items: seq<T>, whole: seq<T>, limit: Option<nat>)
    requires items <= whole && (items == whole || limit == Some(|items|)) && (limit.Some? ==> |items| <= limit.value)
    ensures items == AtMost(limit, whole)
  {
  }

  /** The nodes of one page, one by one: `results` collects the unfinished batch. */
  method TakeNodes<T>(nodes: seq<T>, limit: Option<nat>, batches: seq<Batch<T>>, results: seq<T>)
    returns (more: seq<Batch<T>>, rest: seq<T>)
    requires AreFull(batches) && |results| < WORK_BATCH_SIZE
    requires limit.Some? ==> |AllItems(batches)| + |results| <= limit.value
    ensures AreFull(more) && |rest| < WORK_BATCH_SIZE
    ensures limit.Some? ==> |AllItems(more)| + |rest| <= limit.value
    ensures exists n: nat | n <= |nodes| ::
              && AllItems(more) + rest == AllItems(batches) + results + nodes[..n]
              && (n == |nodes| || !IsBelow(|AllItems(more)| + |rest|, limit))
  {
    more, rest := batches, results;
    var fetchedCount := |batches| * WORK_BATCH_SIZE + |results|;
    FullBatchesCount(batches);
    assert nodes[..0] == [] && AllItems(more) + rest == AllItems(batches) + results + nodes[..0];
    for n := 0 to |nodes|
      invariant AreFull(more) && |rest| < WORK_BATCH_SIZE
      invariant fetchedCount == |AllItems(more)| + |rest| == |more| * WORK_BATCH_SIZE + |rest|
      invariant limit.Some? ==> fetchedCount <= limit.value
      invariant AllItems(more) + rest == AllItems(batches) + results + nodes[..n]
    {
      if !IsBelow(fetchedCount, limit) {
        return;
      }
      ghost var before := AllItems(more) + rest;
      rest := rest + [nodes[n]];
      fetchedCount := fetchedCount + 1;
      assert AllItems(more) + rest == before + [nodes[n]] && nodes[..n + 1] == nodes[..n] + [nodes[n]];
      if |rest| >= WORK_BATCH_SIZE {
        OneMoreBatch(more, Batch(|more| + 1, rest, fetchedCount));
        assert AllItems(more) + rest + [] == AllItems(more) + rest;
        more, rest := more + [Batch(|more| + 1, rest, fetchedCount)], [];
        FullBatchesCount(more);
      }
    }
    assert nodes[..|nodes|] == nodes;
  }

  /** What was fetched so far of `nodes`: all of it, or as much as the limit allows. */
  ghost predicate Fetched<T>(batches: seq<Batch<T>>, results: seq<T>, nodes: seq<T>, limit: Option<nat>) {
    var items := AllItems(batches) + results;
    && AreFull(batches) && |results| < WORK_BATCH_SIZE
    && (limit.Some? ==> |items| <= limit.value)
    && items <= nodes && (items == nodes || !IsBelow(|items|, limit))
  }

  lemma {:induction false} FetchedMore<T>(batches: seq<Batch<T>>, results: seq<T>, nodes: seq<T>, limit: Option<nat>,
        page: seq<T>,
                                          more: seq<Batch<T>>, rest: seq<T>, n: nat)
    requires Fetched(batches, results, nodes, limit) && IsBelow(|AllItems(batches)| + |results|, limit)
    requires AreFull(more) && |rest| < WORK_BATCH_SIZE && (limit.Some? ==> |AllItems(more)| + |rest| <= limit.value)
    requires n <= |page| && AllItems(more) + rest == AllItems(batches) + results + page[..n]
    requires n == |page| || !IsBelow(|AllItems(more)| + |rest|, limit)
    ensures Fetched(more, rest, nodes + page, limit)
  {
    hide AllItems, AreFull;
    assert n == |page| ==> page[..n] == page;
    assert AllItems(batches) + results == nodes;
  }

  lemma {:induction false} OneMorePage<T>(pages: seq<Page<T>>, n: nat)
    requires n < |pages|
    ensures AllNodes(pages[..n + 1]) == AllNodes(pages[..n]) + pages[n].nodes
  {
    assert pages[..n + 1][..n] == pages[..n];
  }

  /** All pages were read, or the limit was reached before. */
  lemma {:induction false} FetchedAll<T>(batches: seq<Batch<T>>, results: seq<T>, pages: seq<Page<T>>, n: nat,
        limit: Option<nat>)
    requires n <= |pages| && Fetched(batches, results, AllNodes(pages[..n]), limit)
    requires n == |pages| || !IsBelow(|AllItems(batches)| + |results|, limit)
    ensures AllItems(batches) + results == AtMost(limit, AllNodes(pages))
  {
    PagesGrow(pages, n);
    assert pages[..|pages|] == pages;
    hide AllItems, AreFull, AllNodes;
    PrefixUpToLimit(AllItems(batches) + results, AllNodes(pages), limit);
  }

  lemma {:induction false} FetchedIsFull<T>(batches: seq<Batch<T>>, results: seq<T>, nodes: seq<T>, limit: Option<nat>)
    requires Fetched(batches, results, nodes, limit)
    ensures AreFull(batches) && |results| < WORK_BATCH_SIZE && |AllItems(batches)| == |batches| * WORK_BATCH_SIZE
    ensures limit.Some? ==> |AllItems(batches)| + |results| <= limit.value
  {
    FullBatchesCount(batches);
  }

  method TakePage<T>(pages: seq<Page<T>>, page: nat, limit: Option<nat>, batches: seq<Batch<T>>, results: seq<T>)
    returns (more: seq<Batch<T>>, rest: seq<T>)
    requires page < |pages| && Fetched(batches, results, AllNodes(pages[..page]), limit)
    requires IsBelow(|batches| * WORK_BATCH_SIZE + |results|, limit)
    ensures Fetched(more, rest, AllNodes(pages[..page + 1]), limit)
  {
    FetchedIsFull(batches, results, AllNodes(pages[..page]), limit);
    OneMorePage(pages, page);
    hide AllNodes, AllItems, Fetched, AreFull;
    var nodes := pages[page].nodes;
    more, rest := TakeNodes(nodes, limit, batches, results);
    ghost var n: nat :| n <= |nodes| && AllItems(more) + rest == AllItems(batches) + results + nodes[..n]
                        && (n == |nodes| || !IsBelow(|AllItems(more)| + |rest|, limit));
    FetchedMore(batches, results, AllNodes(pages[..page]), limit, nodes, more, rest, n);
  }

  /** The batches the generator yields, in order. */
  method FetchBatches<T>(pages: seq<Page<T>>, limit: Option<nat>) returns (batches: seq<Batch<T>>)
    requires IsListing(pages)
    ensures AllItems(batches) == AtMost(limit, AllNodes(pages))
    ensures AreYielded(batches)
  {
    batches := [];
    var results: seq<T> := [];
    var page := 0;
    assert pages[..0] == [] && AllNodes<T>([]) == [] && AllItems<T>([]) == [] && Fetched(batches, results, [], limit);
    hide AllNodes, AllItems, Fetched, AtMost, AreFull, AreYielded;
    while page < |pages| && IsBelow(|batches| * WORK_BATCH_SIZE + |results|, limit)
      invariant page <= |pages| && Fetched(batches, results, AllNodes(pages[..page]), limit)
    {
      batches, results := TakePage(pages, page, limit, batches, results);
      page := page + 1;
      if !pages[page - 1].hasNextPage {
        break;
      }
    }
    FetchedIsFull(batches, results, AllNodes(pages[..page]), limit);
    FetchedAll(batches, results, pages, page, limit);
    YieldRest(batches, results);
    if |results| > 0 {
      batches := batches + [Batch(|batches| + 1, results, |batches| * WORK_BATCH_SIZE + |results|)];
    }
  }

  /** All but the last batch have 500 items, none is empty, and each tells its number and
      how many items came up to it. */
  ghost predicate AreYielded<T>(batches: seq<Batch<T>>) {
    forall i | 0 <= i < |batches| ::
      && batches[i].batchIndex == i + 1
      && (if i < |batches| - 1 then |batches[i].items| == 500 else 0 < |batches[i].items| <= 500)
      && batches[i].fetchedCount == i * 500 + |batches[i].items|
  }

  lemma {:induction false} YieldRest<T>(batches: seq<Batch<T>>, results: seq<T>)
    requires AreFull(batches) && |results| < WORK_BATCH_SIZE
    ensures results == [] ==> AreYielded(batches) && AllItems(batches) + results == AllItems(batches)
    ensures results != [] ==>
              var last := Batch(|batches| + 1, results, |batches| * WORK_BATCH_SIZE + |results|);
              AreYielded(batches + [last]) && AllItems(batches + [last]) == AllItems(batches) + results
  {
    OneMoreBatch(batches, Batch(|batches| + 1, results, |batches| * WORK_BATCH_SIZE + |results|));
  }

  /** The running count is what all batches up to one hold together. */
  lemma {:induction false} FetchedCountIsSum<T>(batches: seq<Batch<T>>, n: nat)
    requires AreYielded(batches) && n < |batches|
    ensures batches[n].fetchedCount == |AllItems(batches[..n + 1])|
  {
    assert batches[..n + 1][..n] == batches[..n];
    if n > 0 {
      FetchedCountIsSum(batches, n - 1);
    }
  }
}

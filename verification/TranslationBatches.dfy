/** How pending strings are packed into prompts (scripts/control-ui-i18n.ts).

    The packer walks the strings once and closes the current batch when one more
    string would overflow the character budget or the item limit. The theorem of
    this module is that this single pass is optimal. */
module TranslationBatches {
  import opened Basics

  /** The SHA-256 cache key of a segment. Keys of the running configuration are
      injective in the segment and its text hash; every other string found in a
      translation memory file is `Foreign`. */
  datatype CacheKey = Segment(id: string, textHash: string) | Foreign(raw: string)

  datatype BatchItem = BatchItem(cacheKey: CacheKey, key: string, text: string, textHash: string)

  const MAX_BATCH_ITEMS: nat := 20

  function EstimateBatchChars(items: seq<BatchItem>): nat {
    if items == [] then 2
    else
      var last := items[|items| - 1];
      EstimateBatchChars(items[..|items| - 1]) + |last.key| + |last.text| + 8
  }

  /** The items written as one object: quoted texts without escapes, separators with blanks. */
  function Rendered(items: seq<BatchItem>): string {
    if items == [] then "{}"
    else
      var before, last := Rendered(items[..|items| - 1]), items[|items| - 1];
      before[..|before| - 1] + "\"" + last.key + "\": \"" + last.text + "\", }"
  }

  /** The estimate is the length of the items so written. */
  lemma {:induction false} EstimateIsRenderedLength(items: seq<BatchItem>)
    ensures EstimateBatchChars(items) == |Rendered(items)|
  {
    if items != [] {
      EstimateIsRenderedLength(items[..|items| - 1]);
    }
  }

  /** What the packer's running total holds once the items of a batch are in. */
  function RunningChars(batch: seq<BatchItem>): nat {
    if batch == [] then 2
    else RunningChars(batch[..|batch| - 1]) + EstimateBatchChars([batch[|batch| - 1]])
  }

  ghost predicate LegalBatch(batch: seq<BatchItem>, budget: real) {
    && 1 <= |batch| <= MAX_BATCH_ITEMS
    && (|batch| >= 2 ==> RunningChars(batch) as real <= budget)
  }

  /** A split of the items into consecutive legal batches. */
  ghost predicate IsPacking(batches: seq<seq<BatchItem>>, items: seq<BatchItem>, budget: real) {
    && Concat(batches) == items
    && (forall i | 0 <= i < |batches| :: LegalBatch(batches[i], budget))
  }

  ghost predicate Overflows(batch: seq<BatchItem>, next: seq<BatchItem>, budget: real) {
    next != [] && !LegalBatch(batch + [next[0]], budget)
  }

  /** No batch could have taken the first item of the batch after it. */
  ghost predicate IsFull(batches: seq<seq<BatchItem>>, budget: real) {
    forall i, j | 0 <= i < j < |batches| && j == i + 1 :: Overflows(batches[i], batches[j], budget)
  }

  /** The running total exceeds the estimate by two characters an item, so a batch
      of k >= 2 items is legal only if its estimate is at most budget - 2k. */
  lemma {:induction false} RunningCharsIsEstimatePlusTwoPerItem(batch: seq<BatchItem>)
    ensures RunningChars(batch) == EstimateBatchChars(batch) + 2 * |batch|
  {
    if batch != [] {
      var last := batch[|batch| - 1];
      assert [last][..0] == [];
      assert EstimateBatchChars([last]) == EstimateBatchChars([]) + |last.key| + |last.text| + 8;
      RunningCharsIsEstimatePlusTwoPerItem(batch[..|batch| - 1]);
    }
  }

  lemma {:induction false} LegalBatchEstimate(batch: seq<BatchItem>, budget: real)
    requires |batch| >= 2
    ensures LegalBatch(batch, budget) <==>
            |batch| <= 20 && EstimateBatchChars(batch) as real <= budget - (2 * |batch|) as real
  {
    RunningCharsIsEstimatePlusTwoPerItem(batch);
  }

  /** The two limits are hereditary: any run of consecutive items inside a legal
      batch is itself a legal batch. */
  lemma {:induction false} PrefixCharsGrow(batch: seq<BatchItem>, n: nat)
    requires n <= |batch|
    ensures RunningChars(batch[..n]) <= RunningChars(batch)
    decreases |batch|
  {
    if n < |batch| {
      PrefixCharsGrow(batch[..|batch| - 1], n);
      assert batch[..|batch| - 1][..n] == batch[..n];
    } else {
      assert batch[..n] == batch;
    }
  }

  lemma {:induction false} SuffixCharsGrow(batch: seq<BatchItem>, n: nat)
    requires n <= |batch|
    ensures RunningChars(batch[n..]) <= RunningChars(batch)
    decreases |batch|
  {
    if batch != [] && n < |batch| {
      SuffixCharsGrow(batch[..|batch| - 1], n);
      assert batch[n..][..|batch[n..]| - 1] == batch[..|batch| - 1][n..];
    } else {
      assert batch[n..] == [];
    }
  }

  lemma {:induction false} LegalInside(batch: seq<BatchItem>, from: nat, to: nat, budget: real)
    requires LegalBatch(batch, budget) && from < to <= |batch|
    ensures LegalBatch(batch[from..to], budget)
  {
    PrefixCharsGrow(batch, to);
    SuffixCharsGrow(batch[..to], from);
    assert batch[..to][from..] == batch[from..to];
  }

  /** The first batch of a packing of items[start..], and the packing of the rest. */
  lemma {:induction false} PeelFirstBatch(
      items: seq<BatchItem>, start: nat, batches: seq<seq<BatchItem>>, budget: real)
    requires start <= |items| && batches != []
    requires IsPacking(batches, items[start..], budget)
    ensures LegalBatch(batches[0], budget)
    ensures start + |batches[0]| <= |items|
    ensures batches[0] == items[start..start + |batches[0]|]
    ensures IsPacking(batches[1..], items[start + |batches[0]|..], budget)
    ensures IsFull(batches, budget) ==> IsFull(batches[1..], budget)
  {
    var rest := Concat(batches[1..]);
    assert items[start..] == batches[0] + rest;
    assert batches[0] == items[start..][..|batches[0]|];
    assert rest == items[start..][|batches[0]|..];
  }

  /** A run of items, and the item after it, inside one legal batch. */
  lemma {:induction false} RunInsideBatchIsLegal(
      items: seq<BatchItem>, start: nat, end: nat, otherStart: nat, otherEnd: nat, budget: real)
    requires otherStart <= start < end < otherEnd <= |items|
    requires LegalBatch(items[otherStart..otherEnd], budget)
    ensures LegalBatch(items[start..end] + [items[end]], budget)
  {
    LegalInside(items[otherStart..otherEnd], start - otherStart, end + 1 - otherStart, budget);
    SliceOfSlice(items, otherStart, otherEnd, start - otherStart, end + 1 - otherStart);
    assert items[start..end + 1] == items[start..end] + [items[end]];
  }

  /** Greedy stays ahead: if the full packing starts no earlier than the other
      one, it never needs more batches. */
  lemma {:induction false} FullPackingStaysAhead(
      items: seq<BatchItem>, start: nat, otherStart: nat,
      full: seq<seq<BatchItem>>, other: seq<seq<BatchItem>>, budget: real)
    requires otherStart <= start <= |items|
    requires IsPacking(full, items[start..], budget) && IsFull(full, budget)
    requires IsPacking(other, items[otherStart..], budget)
    ensures |full| <= |other|
    decreases |full|
  {
    hide LegalBatch, RunningChars;
    if full != [] {
      PeelFirstBatch(items, start, full, budget);
      PeelFirstBatch(items, otherStart, other, budget);
      var end, otherEnd := start + |full[0]|, otherStart + |other[0]|;
      if |full| >= 2 {
        PeelFirstBatch(items, end, full[1..], budget);
        assert Overflows(full[0], full[1], budget);
        if end < otherEnd {
          RunInsideBatchIsLegal(items, start, end, otherStart, otherEnd, budget);
          assert false;
        }
        FullPackingStaysAhead(items, end, otherEnd, full[1..], other[1..], budget);
      }
    }
  }

  /** The full packing is the only one: its two defining properties fix every cut. */
  lemma {:induction false} FullPackingIsUnique(
      items: seq<BatchItem>, start: nat, a: seq<seq<BatchItem>>, b: seq<seq<BatchItem>>, budget: real)
    requires start <= |items|
    requires IsPacking(a, items[start..], budget) && IsFull(a, budget)
    requires IsPacking(b, items[start..], budget) && IsFull(b, budget)
    ensures a == b
    decreases |a|
  {
    if a != [] && b != [] {
      FirstCutNoLater(items, start, a, b, budget);
      FirstCutNoLater(items, start, b, a, budget);
      PeelFirstBatch(items, start, a, budget);
      PeelFirstBatch(items, start, b, budget);
      FullPackingIsUnique(items, start + |a[0]|, a[1..], b[1..], budget);
      assert a == [a[0]] + a[1..] && b == [b[0]] + b[1..];
    } else {
      assert a != [] ==> LegalBatch(a[0], budget);
      assert b != [] ==> LegalBatch(b[0], budget);
    }
  }

  lemma {:induction false} FirstCutNoLater(
      items: seq<BatchItem>, start: nat, a: seq<seq<BatchItem>>, b: seq<seq<BatchItem>>, budget: real)
    requires start <= |items| && a != [] && b != []
    requires IsPacking(a, items[start..], budget) && IsFull(a, budget)
    requires IsPacking(b, items[start..], budget)
    ensures |b[0]| <= |a[0]|
  {
    PeelFirstBatch(items, start, a, budget);
    PeelFirstBatch(items, start, b, budget);
    var end := start + |a[0]|;
    if |a| >= 2 {
      hide Concat;
      PeelFirstBatch(items, end, a[1..], budget);
      assert Overflows(a[0], a[1], budget);
      if end < start + |b[0]| {
        RunInsideBatchIsLegal(items, start, end, start, start + |b[0]|, budget);
        assert false;
      }
    } else {
      assert |a[1..]| == 0;
      assert items[end..] == [];
    }
  }

  /** The packer's loop invariant: closed batches are legal and full, and the open
      batch is legal and was opened because the last closed one had no room. */
  ghost predicate PackedSoFar(
      batches: seq<seq<BatchItem>>, current: seq<BatchItem>, done: seq<BatchItem>, budget: real)
  {
    && IsFull(batches, budget)
    && (forall i | 0 <= i < |batches| :: LegalBatch(batches[i], budget))
    && Concat(batches) + current == done
    && (current == [] ==> batches == [])
    && (current != [] ==> LegalBatch(current, budget))
    && (current != [] && batches != [] ==> Overflows(batches[|batches| - 1], current, budget))
  }

  lemma {:induction false} CloseCurrent(
      batches: seq<seq<BatchItem>>, current: seq<BatchItem>, done: seq<BatchItem>, budget: real)
    requires PackedSoFar(batches, current, done, budget) && current != []
    ensures IsPacking(batches + [current], done, budget)
    ensures IsFull(batches + [current], budget)
  {
    ConcatAppend(batches, current);
  }

  lemma {:induction false} OpenNext(
      batches: seq<seq<BatchItem>>, current: seq<BatchItem>, done: seq<BatchItem>, item: BatchItem, budget: real)
    requires PackedSoFar(batches, current, done, budget) && current != []
    requires !LegalBatch(current + [item], budget)
    ensures PackedSoFar(batches + [current], [item], done + [item], budget)
  {
    CloseCurrent(batches, current, done, budget);
    assert LegalBatch([item], budget);
  }

  lemma {:induction false} ExtendCurrent(
      batches: seq<seq<BatchItem>>, current: seq<BatchItem>, done: seq<BatchItem>, item: BatchItem, budget: real)
    requires PackedSoFar(batches, current, done, budget)
    requires LegalBatch(current + [item], budget)
    ensures PackedSoFar(batches, current + [item], done + [item], budget)
  {
    if current != [] && batches != [] {
      PrefixLegality(batches[|batches| - 1], current, item, budget);
    }
    assert Concat(batches) + (current + [item]) == done + [item];
  }

  lemma {:induction false} PrefixLegality(
      last: seq<BatchItem>, current: seq<BatchItem>, item: BatchItem, budget: real)
    requires current != [] && Overflows(last, current, budget)
    ensures Overflows(last, current + [item], budget)
  {
    assert (current + [item])[0] == current[0];
  }

  /** The packer's two tests decide exactly whether the open batch may grow. */
  lemma {:induction false} TestsDecideLegality(current: seq<BatchItem>, item: BatchItem, budget: real)
    requires current == [] || LegalBatch(current, budget)
    ensures RunningChars(current + [item]) == RunningChars(current) + EstimateBatchChars([item])
    ensures LegalBatch(current + [item], budget) <==>
            && !(|current| > 0 && (RunningChars(current) + EstimateBatchChars([item])) as real > budget)
            && !(|current| >= MAX_BATCH_ITEMS)
  {
    assert (current + [item])[..|current|] == current;
  }

  lemma {:induction false} FullPackingIsOptimal(
      items: seq<BatchItem>, full: seq<seq<BatchItem>>, budget: real)
    requires IsPacking(full, items, budget) && IsFull(full, budget)
    ensures forall other | IsPacking(other, items, budget) :: |full| <= |other|
  {
    assert items[0..] == items;
    forall other | IsPacking(other, items, budget) ensures |full| <= |other| {
      FullPackingStaysAhead(items, 0, 0, full, other, budget);
    }
  }

  lemma {:induction false} PackingSizes(batches: seq<seq<BatchItem>>, items: seq<BatchItem>, budget: real)
    requires IsPacking(batches, items, budget)
    ensures forall i | 0 <= i < |batches| :: 1 <= |batches[i]| <= 20
  {
    assert forall i | 0 <= i < |batches| :: LegalBatch(batches[i], budget);
  }

  lemma {:induction false} NothingPacked(budget: real)
    ensures PackedSoFar([], [], [], budget) && RunningChars([]) == 2
  {
  }

  lemma {:induction false} OpenBatchIsLegal(batches: seq<seq<BatchItem>>, current: seq<BatchItem>,
        done: seq<BatchItem>, budget: real)
    requires PackedSoFar(batches, current, done, budget)
    ensures current == [] || LegalBatch(current, budget)
    ensures current == [] ==> IsPacking(batches, done, budget) && IsFull(batches, budget)
  {
  }

  lemma {:induction false} OneItem(item: BatchItem)
    ensures [] + [item] == [item] && RunningChars([item]) == 2 + EstimateBatchChars([item])
  {
    TestsDecideLegality([], item, 0.0);
    assert [] + [item] == [item] && RunningChars([]) == 2;
  }

  /** Puts one item into the open batch, after closing that batch if it must. */
  method PackItem(batches: seq<seq<BatchItem>>, current: seq<BatchItem>, currentChars: nat, item: BatchItem,
        budget: real,
                  ghost done: seq<BatchItem>)
    returns (nextBatches: seq<seq<BatchItem>>, nextCurrent: seq<BatchItem>, nextChars: nat)
    requires PackedSoFar(batches, current, done, budget) && currentChars == RunningChars(current)
    ensures PackedSoFar(nextBatches, nextCurrent, done + [item], budget) && nextChars == RunningChars(nextCurrent)
  {
    OpenBatchIsLegal(batches, current, done, budget);
    TestsDecideLegality(current, item, budget);
    OneItem(item);
    hide PackedSoFar, RunningChars, LegalBatch, EstimateBatchChars;
    var itemChars := EstimateBatchChars([item]);
    var wouldOverflow := |current| > 0 && (currentChars + itemChars) as real > budget;
    var reachedMaxItems := |current| >= MAX_BATCH_ITEMS;
    nextBatches, nextCurrent, nextChars := batches, current, currentChars;
    if wouldOverflow || reachedMaxItems {
      OpenNext(batches, current, done, item, budget);
      nextBatches := batches + [current];
      nextCurrent := [];
      nextChars := 2;
    } else {
      ExtendCurrent(batches, current, done, item, budget);
    }
    nextCurrent := nextCurrent + [item];
    nextChars := nextChars + itemChars;
  }

  /** One pass over the items. The first two postconditions determine the result
      (see FullPackingIsUnique); the third is what the packing is for. */
  method BuildTranslationBatches(items: seq<BatchItem>, budget: real) returns (batches: seq<seq<BatchItem>>)
    ensures IsPacking(batches, items, budget)
    ensures IsFull(batches, budget)
    ensures forall other | IsPacking(other, items, budget) :: |batches| <= |other|
    ensures forall i | 0 <= i < |batches| :: 1 <= |batches[i]| <= 20
  {
    hide PackedSoFar, RunningChars, LegalBatch, EstimateBatchChars, IsPacking, IsFull;
    batches := [];
    var current: seq<BatchItem> := [];
    var currentChars := 2;
    NothingPacked(budget);
    assert items[..0] == [];
    for n := 0 to |items|
      invariant PackedSoFar(batches, current, items[..n], budget)
      invariant currentChars == RunningChars(current)
    {
      assert items[..n + 1] == items[..n] + [items[n]];
      batches, current, currentChars := PackItem(batches, current, currentChars, items[n], budget, items[..n]);
    }
    assert items[..|items|] == items;
    OpenBatchIsLegal(batches, current, items, budget);
    if |current| > 0 {
      CloseCurrent(batches, current, items, budget);
      batches := batches + [current];
    }
    FullPackingIsOptimal(items, batches, budget);
    PackingSizes(batches, items, budget);
  }

  /** The running total is not the estimate: two strings whose batch is estimated
      at exactly the budget still travel in two prompts. */
  lemma {:induction false} EstimateWithinBudgetMaySplit()
    ensures exists items: seq<BatchItem>, budget: real ::
      |items| == 2 && EstimateBatchChars(items) as real <= budget && !LegalBatch(items, budget)
  {
    var item := BatchItem(Foreign(""), "", "", "");
    var items := [item, item];
    assert items[..1] == [item] && [item][..0] == [];
    assert EstimateBatchChars([item]) == 10;
    assert EstimateBatchChars(items) == 18;
    RunningCharsIsEstimatePlusTwoPerItem(items);
    assert EstimateBatchChars(items) as real <= 18.0 && !LegalBatch(items, 18.0);
  }
}

/** The shared-cursor worker pools: `mapWithConcurrency` (scripts/native-app-i18n.ts)
    and the file reader of scripts/check-temp-path-guardrails.ts. Workers claim the next
    index and wait for its outcome; they may be resumed in any order. */
module WorkerPool {
  import opened Basics

  /** What the awaited call makes of an index: a value, nothing to store (an unreadable
      file), or a rejection that ends the worker. */
  datatype Outcome<R> = Value(value: R) | Skip | Fail

  datatype Worker = Idle | Running(index: nat) | Finished | Crashed

  /** The shared state. `claimed` is history: the indices in the order of their claims. */
  datatype Pool<R> = Pool(nextIndex: nat, workers: seq<Worker>, results: seq<Option<R>>, claimed: seq<nat>)

  function WorkerCount(limit: int, count: nat): nat {
    if limit < 0 then 0 else if limit < count then limit else count
  }

  function StartPool<R>(count: nat, workers: nat): Pool<R> {
    Pool(0, seq(workers, _ => Idle), seq(count, _ => None), [])
  }

  predicate IsActive(worker: Worker) {
    worker.Idle? || worker.Running?
  }

  /** What an outcome leaves in its slot. */
  function Stored<R>(outcome: Outcome<R>): Option<R> {
    if outcome.Value? then Some(outcome.value) else None
  }

  /** One worker is resumed: it claims an index, or sees its call complete. */
  function Step<R>(pool: Pool<R>, outcomes: seq<Outcome<R>>, w: nat): (next: Pool<R>)
    requires w < |pool.workers| && |pool.results| == |outcomes|
    requires pool.workers[w].Running? ==> pool.workers[w].index < |outcomes|
    ensures |next.workers| == |pool.workers| && |next.results| == |pool.results|
  {
    match pool.workers[w]
    case Idle =>
      var index := pool.nextIndex;
      if index >= |outcomes| then pool.(nextIndex := index + 1, workers := pool.workers[w := Finished])
      else pool.(nextIndex := index + 1, workers := pool.workers[w := Running(index)],
          claimed := pool.claimed + [index])
    case Running(index) =>
      if outcomes[index].Fail? then pool.(workers := pool.workers[w := Crashed])
      else if outcomes[index].Skip? then pool.(workers := pool.workers[w := Idle])
      else pool.(workers := pool.workers[w := Idle], results := pool.results[index := Some(outcomes[index].value)])
    case _ => pool
  }

  predicate HasWorker(workers: seq<Worker>, worker: Worker) {
    exists w | 0 <= w < |workers| :: workers[w] == worker
  }

  predicate AnyFails<R>(outcomes: seq<Outcome<R>>) {
    exists i | 0 <= i < |outcomes| :: outcomes[i].Fail?
  }

  /** Indices are claimed in order, none twice; no two workers wait for the same one; a
      worker finishes only when all are claimed and crashes only for a rejection. */
  ghost predicate ClaimsOk<R>(pool: Pool<R>, outcomes: seq<Outcome<R>>) {
    && |pool.results| == |outcomes|
    && |pool.claimed| == (if pool.nextIndex < |outcomes| then pool.nextIndex else |outcomes|)
    && (forall i | 0 <= i < |pool.claimed| :: pool.claimed[i] == i)
    && (forall w | 0 <= w < |pool.workers| && pool.workers[w].Running? :: pool.workers[w].index < |pool.claimed|)
    && (forall v, w | 0 <= v < w < |pool.workers| && pool.workers[v].Running? && pool.workers[w].Running? ::
          pool.workers[v].index != pool.workers[w].index)
    && (forall w | 0 <= w < |pool.workers| && pool.workers[w].Finished? :: |pool.claimed| == |outcomes|)
    && (forall w | 0 <= w < |pool.workers| && pool.workers[w].Crashed? :: AnyFails(outcomes))
  }

  /** A slot is empty until the call for its index completed, and then holds what the
      call produced; a rejected call leaves a crashed worker. */
  ghost predicate SlotOk<R>(pool: Pool<R>, outcomes: seq<Outcome<R>>, i: nat)
    requires i < |outcomes| == |pool.results|
  {
    if i >= |pool.claimed| then pool.results[i].None?
    else if HasWorker(pool.workers, Running(i)) then pool.results[i].None?
    else pool.results[i] == Stored(outcomes[i]) && (outcomes[i].Fail? ==> HasWorker(pool.workers, Crashed))
  }

  ghost predicate Ok<R>(pool: Pool<R>, outcomes: seq<Outcome<R>>) {
    ClaimsOk(pool, outcomes) && forall i: nat | i < |outcomes| :: SlotOk(pool, outcomes, i)
  }

  lemma {:induction false} StartIsOk<R>(outcomes: seq<Outcome<R>>, workers: nat)
    ensures Ok(StartPool(|outcomes|, workers), outcomes)
  {
  }

  lemma {:induction false} StepKeepsClaims<R>(pool: Pool<R>, outcomes: seq<Outcome<R>>, w: nat)
    requires ClaimsOk(pool, outcomes) && w < |pool.workers|
    ensures ClaimsOk(Step(pool, outcomes, w), outcomes)
  {
  }

  /** Replacing one worker changes who waits only for what it waited for. */
  lemma {:induction false} ReplaceWorker(workers: seq<Worker>, w: nat, worker: Worker, other: Worker)
    requires w < |workers|
    ensures other != workers[w] && other != worker ==>
              (HasWorker(workers[w := worker], other) <==> HasWorker(workers, other))
    ensures HasWorker(workers[w := worker], worker) && HasWorker(workers, workers[w])
  {
    var next := workers[w := worker];
    assert next[w] == worker;
    if HasWorker(workers, other) && other != workers[w] {
      var v :| 0 <= v < |workers| && workers[v] == other;
      assert next[v] == other;
    }
    if HasWorker(next, other) && other != worker {
      var v :| 0 <= v < |workers| && next[v] == other;
      assert workers[v] == other;
    }
  }

  lemma {:induction false} StepKeepsSlot<R>(pool: Pool<R>, outcomes: seq<Outcome<R>>, w: nat, i: nat)
    requires ClaimsOk(pool, outcomes) && w < |pool.workers| && i < |outcomes| && SlotOk(pool, outcomes, i)
    ensures SlotOk(Step(pool, outcomes, w), outcomes, i)
  {
    var next := Step(pool, outcomes, w);
    ReplaceWorker(pool.workers, w, next.workers[w], Running(i));
    ReplaceWorker(pool.workers, w, next.workers[w], Crashed);
    assert next.workers == pool.workers[w := next.workers[w]];
    if pool.workers[w] == Running(i) {
      assert !HasWorker(next.workers, Running(i));
    }
  }

  lemma {:induction false} StepKeepsOk<R>(pool: Pool<R>, outcomes: seq<Outcome<R>>, w: nat)
    requires Ok(pool, outcomes) && w < |pool.workers|
    ensures Ok(Step(pool, outcomes, w), outcomes)
  {
    StepKeepsClaims(pool, outcomes, w);
    forall i: nat | i < |outcomes| ensures SlotOk(Step(pool, outcomes, w), outcomes, i) {
      StepKeepsSlot(pool, outcomes, w, i);
    }
  }

  // ------------------------------------------------------------------ termination

  function Weight(worker: Worker): nat {
    if worker.Running? then 2 else if worker.Idle? then 1 else 0
  }

  function TotalWeight(workers: seq<Worker>): nat {
    if workers == [] then 0 else TotalWeight(workers[..|workers| - 1]) + Weight(workers[|workers| - 1])
  }

  lemma {:induction false} ReplaceWeight(workers: seq<Worker>, w: nat, worker: Worker)
    requires w < |workers|
    ensures TotalWeight(workers[w := worker]) == TotalWeight(workers) - Weight(workers[w]) + Weight(worker)
    decreases |workers|
  {
    var n := |workers| - 1;
    if w < n {
      ReplaceWeight(workers[..n], w, worker);
      assert workers[w := worker][..n] == workers[..n][w := worker];
    } else {
      assert workers[w := worker][..n] == workers[..n];
    }
  }

  /** How many steps of active workers are left at most. */
  function StepsLeft<R>(pool: Pool<R>, count: nat): nat {
    (if pool.nextIndex < count then 2 * (count - pool.nextIndex) else 0) + TotalWeight(pool.workers)
  }

  /** However workers are scheduled, every resumption of an active one brings the end
      closer. */
  lemma {:induction false} ActiveStepsRunOut<R>(pool: Pool<R>, outcomes: seq<Outcome<R>>, w: nat)
    requires ClaimsOk(pool, outcomes) && w < |pool.workers| && IsActive(pool.workers[w])
    ensures StepsLeft(Step(pool, outcomes, w), |outcomes|) < StepsLeft(pool, |outcomes|)
  {
    var next := Step(pool, outcomes, w);
    ReplaceWeight(pool.workers, w, next.workers[w]);
    assert next.workers == pool.workers[w := next.workers[w]];
  }

  lemma {:induction false} StartingWeight<R>(count: nat, workers: nat)
    ensures StepsLeft(StartPool<R>(count, workers), count) == 2 * count + workers
  {
    IdleWeight(workers);
  }

  lemma {:induction false} IdleWeight(workers: nat)
    ensures TotalWeight(seq(workers, _ => Idle)) == workers
  {
    if workers > 0 {
      IdleWeight(workers - 1);
      assert seq(workers, _ => Idle)[..workers - 1] == seq(workers - 1, _ => Idle);
    }
  }

  // -------------------------------------------------------------------- the result

  ghost predicate IsDone<R>(pool: Pool<R>) {
    forall w | 0 <= w < |pool.workers| :: !IsActive(pool.workers[w])
  }

  /** When no worker is active any more, the slots hold the sequential map and no worker
      crashed, exactly if no call was rejected; for that there must be a worker. */
  lemma {:induction false} DonePoolIsTheMap<R>(pool: Pool<R>, outcomes: seq<Outcome<R>>)
    requires Ok(pool, outcomes) && IsDone(pool) && (pool.workers != [] || outcomes == [])
    ensures HasWorker(pool.workers, Crashed) <==> AnyFails(outcomes)
    ensures !AnyFails(outcomes) ==>
              |pool.claimed| == |outcomes| && forall i | 0 <= i < |outcomes| :: pool.results[i] == Stored(outcomes[i])
  {
    if HasWorker(pool.workers, Crashed) {
      var w :| 0 <= w < |pool.workers| && pool.workers[w] == Crashed;
    } else if outcomes != [] {
      assert pool.workers[0].Finished?;
      forall i: nat | i < |outcomes| ensures pool.results[i] == Stored(outcomes[i]) && !outcomes[i].Fail? {
        assert SlotOk(pool, outcomes, i);
        assert !HasWorker(pool.workers, Running(i));
      }
    }
  }

  /** Without a worker nothing is claimed and every slot stays empty. */
  lemma {:induction false} NoWorkerNoResult<R>(outcomes: seq<Outcome<R>>, limit: int)
    ensures WorkerCount(limit, |outcomes|) == 0 <==> limit < 1 || outcomes == []
    ensures WorkerCount(limit, |outcomes|) == 0 ==> IsDone(StartPool<R>(|outcomes|, WorkerCount(limit, |outcomes|)))
  {
  }

  // ---------------------------------------------------------------- every schedule

  /** A schedule names the worker that is resumed at each step. */
  ghost function Run<R>(pool: Pool<R>, outcomes: seq<Outcome<R>>, schedule: seq<nat>): (last: Pool<R>)
    requires Ok(pool, outcomes)
    ensures Ok(last, outcomes) && |last.workers| == |pool.workers|
    decreases |schedule|
  {
    if schedule == [] then pool
    else
      var before, w := Run(pool, outcomes, schedule[..|schedule| - 1]), schedule[|schedule| - 1];
      if w >= |before.workers| then before
      else
        StepKeepsOk(before, outcomes, w);
        Step(before, outcomes, w)
  }

  function InFlight(workers: seq<Worker>): nat {
    if workers == [] then 0
    else InFlight(workers[..|workers| - 1]) + if workers[|workers| - 1].Running? then 1 else 0
  }

  lemma {:induction false} InFlightAtMostWorkers(workers: seq<Worker>)
    ensures InFlight(workers) <= |workers|
    decreases |workers|
  {
    if workers != [] { InFlightAtMostWorkers(workers[..|workers| - 1]); }
  }

  /** In every schedule: no more calls than the limit are in flight, the indices are
      claimed once each and in order, and if all workers are through without a
      rejection then every index was claimed and holds what its call produced. */
  lemma {:induction false} EveryScheduleMaps<R>(outcomes: seq<Outcome<R>>, limit: int, schedule: seq<nat>)
    requires limit >= 1
    ensures Ok(StartPool<R>(|outcomes|, WorkerCount(limit, |outcomes|)), outcomes)
    ensures var pool := Run(StartPool(|outcomes|, WorkerCount(limit, |outcomes|)), outcomes, schedule);
            && InFlight(pool.workers) <= limit
            && |pool.claimed| <= |outcomes| && (forall i | 0 <= i < |pool.claimed| :: pool.claimed[i] == i)
            && (IsDone(pool) && !AnyFails(outcomes) ==>
                  |pool.claimed| == |outcomes| && forall i | 0 <= i < |outcomes| ::
                    pool.results[i] == Stored(outcomes[i]))
  {
    StartIsOk(outcomes, WorkerCount(limit, |outcomes|));
    var pool := Run(StartPool(|outcomes|, WorkerCount(limit, |outcomes|)), outcomes, schedule);
    InFlightAtMostWorkers(pool.workers);
    if IsDone(pool) {
      DonePoolIsTheMap(pool, outcomes);
    }
  }

  /** Every worker in turn, once. */
  function EachOnce(count: nat): (schedule: seq<nat>)
    ensures |schedule| == count
  {
    seq(count, i requires 0 <= i < count => i)
  }

  lemma {:induction false} WorkersClaim<R>(outcomes: seq<Outcome<R>>, workers: nat, count: nat)
    requires count <= workers <= |outcomes| && Ok(StartPool<R>(|outcomes|, workers), outcomes)
    ensures var pool := Run(StartPool(|outcomes|, workers), outcomes, EachOnce(count));
            && pool.nextIndex == count && |pool.workers| == workers
            && forall w | 0 <= w < workers :: pool.workers[w] == if w < count then Running(w) else Idle
  {
    if count > 0 {
      WorkersClaim(outcomes, workers, count - 1);
      assert EachOnce(count)[..count - 1] == EachOnce(count - 1);
    }
  }

  lemma {:induction false} AllInFlight(workers: seq<Worker>)
    requires forall w | 0 <= w < |workers| :: workers[w].Running?
    ensures InFlight(workers) == |workers|
    decreases |workers|
  {
    if workers != [] { AllInFlight(workers[..|workers| - 1]); }
  }

  /** The limit is used in full: some schedule has as many calls in flight at once as the
      limit and the number of values allow. */
  lemma {:induction false} LimitIsReached<R>(outcomes: seq<Outcome<R>>, limit: nat)
    ensures Ok(StartPool<R>(|outcomes|, WorkerCount(limit, |outcomes|)), outcomes)
    ensures exists schedule ::
              InFlight(Run(StartPool(|outcomes|, WorkerCount(limit, |outcomes|)), outcomes, schedule).workers)
              == if limit < |outcomes| then limit else |outcomes|
  {
    var workers := WorkerCount(limit, |outcomes|);
    StartIsOk(outcomes, workers);
    WorkersClaim(outcomes, workers, workers);
    AllInFlight(Run(StartPool(|outcomes|, workers), outcomes, EachOnce(workers)).workers);
  }

  function Present<R>(slots: seq<Option<R>>): seq<R> {
    if slots == [] then []
    else Present(slots[..|slots| - 1]) + if slots[|slots| - 1].Some? then [slots[|slots| - 1].value] else []
  }

  /** The sequential loop over the same outcomes. */
  function ValuesOf<R>(outcomes: seq<Outcome<R>>): seq<R> {
    if outcomes == [] then []
    else ValuesOf(outcomes[..|outcomes| - 1])
         + if outcomes[|outcomes| - 1].Value? then [outcomes[|outcomes| - 1].value] else []
  }

  lemma {:induction false} PresentAreValues<R>(slots: seq<Option<R>>, outcomes: seq<Outcome<R>>)
    requires |slots| == |outcomes| && forall i | 0 <= i < |slots| :: slots[i] == Stored(outcomes[i])
    ensures Present(slots) == ValuesOf(outcomes)
    decreases |slots|
  {
    if slots != [] {
      PresentAreValues(slots[..|slots| - 1], outcomes[..|outcomes| - 1]);
    }
  }

  // ------------------------------------------------------------- the pools themselves

  /** `mapWithConcurrency`: workers share the cursor and write their own slots. Which
      active worker is resumed next is left open. `None` is the rejected promise. */
  method MapWithConcurrency<R>(outcomes: seq<Outcome<R>>, limit: int) returns (mapped: Option<seq<Option<R>>>)
    ensures limit >= 1 ==> (mapped.None? <==> AnyFails(outcomes))
    ensures limit >= 1 && mapped.Some? ==>
              |mapped.value| == |outcomes| && forall i | 0 <= i < |outcomes| :: mapped.value[i] == Stored(outcomes[i])
    ensures limit < 1 ==> mapped == Some(seq(|outcomes|, _ => None))
  {
    var results := new Option<R>[|outcomes|](_ => None);
    var workerCount := WorkerCount(limit, |outcomes|);
    var workers: seq<Worker> := seq(workerCount, _ => Idle);
    var nextIndex: nat := 0;
    ghost var claimed: seq<nat> := [];
    StartIsOk(outcomes, workerCount);
    assert Pool(nextIndex, workers, results[..], claimed) == StartPool(|outcomes|, workerCount);
    while exists w | 0 <= w < |workers| :: IsActive(workers[w])
      invariant results.Length == |outcomes| && |workers| == workerCount
      invariant Ok(Pool(nextIndex, workers, results[..], claimed), outcomes)
      invariant workerCount == 0 ==> results[..] == seq(|outcomes|, _ => None)
      decreases StepsLeft(Pool(nextIndex, workers, results[..], claimed), |outcomes|)
    {
      var w: nat :| w < |workers| && IsActive(workers[w]);
      ghost var pool := Pool(nextIndex, workers, results[..], claimed);
      StepKeepsOk(pool, outcomes, w);
      ActiveStepsRunOut(pool, outcomes, w);
      match workers[w] {
        case Idle =>
          var index := nextIndex;
          nextIndex := nextIndex + 1;
          if index >= |outcomes| {
            workers := workers[w := Finished];
          } else {
            workers := workers[w := Running(index)];
            claimed := claimed + [index];
          }
        case Running(index) =>
          match outcomes[index] {
            case Fail => workers := workers[w := Crashed];
            case Skip => workers := workers[w := Idle];
            case Value(value) =>
              results[index] := Some(value);
              workers := workers[w := Idle];
          }
      }
      assert Pool(nextIndex, workers, results[..], claimed) == Step(pool, outcomes, w);
    }
    if workerCount > 0 || |outcomes| == 0 {
      DonePoolIsTheMap(Pool(nextIndex, workers, results[..], claimed), outcomes);
    }
    if exists w | 0 <= w < |workers| :: workers[w] == Crashed {
      return None;
    }
    return Some(results[..]);
  }

  const FILE_READ_CONCURRENCY := 24

  /** `readRuntimeSourceFiles`, whose pool starts one worker even for no files: an
      unreadable file is skipped, and the files that could be read come out in the order
      of their paths. */
  method ReadRuntimeSourceFiles<R>(outcomes: seq<Outcome<R>>) returns (files: seq<R>)
    requires !AnyFails(outcomes)
    ensures files == ValuesOf(outcomes)
  {
    var output := MapWithConcurrency(outcomes, FILE_READ_CONCURRENCY);
    PresentAreValues(output.value, outcomes);
    files := Present(output.value);
  }
}

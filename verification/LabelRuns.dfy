/** Labelling issues with checkpoints (scripts/label-open-issues.ts, `main`): runs may
    crash anywhere and start again from the state file, while other people add labels. */
module LabelRuns {
  import opened Basics

  const BUG_LABEL := "bug"
  const ENHANCEMENT_LABEL := "enhancement"
  const SUPPORT_LABEL := "r: support"
  const SKILL_LABEL := "r: skill"

  type Labels = set<string>

  /** An issue as it was fetched. */
  datatype Item = Item(number: nat, labels: Labels)

  /** The category is `bug` or else `enhancement`. */
  datatype Classification = Classification(isBug: bool, isSupport: bool, isSkillOnly: bool)

  function CategoryOf(c: Classification): string {
    if c.isBug then BUG_LABEL else ENHANCEMENT_LABEL
  }

  predicate HasCategory(labels: Labels) {
    BUG_LABEL in labels || ENHANCEMENT_LABEL in labels
  }

  function ToAdd(item: Item, c: Classification): Labels {
    (if HasCategory(item.labels) then {} else {CategoryOf(c)})
    + (if c.isSupport && SUPPORT_LABEL !in item.labels then {SUPPORT_LABEL} else {})
    + (if c.isSkillOnly && SKILL_LABEL !in item.labels then {SKILL_LABEL} else {})
  }

  /** A run in progress: the issues it counts as processed, those of the current batch
      still to do, whether the batch calls for a checkpoint, and, as history, whether it
      could read the state file, the issues it has worked on itself, and the labels of
      all issues when it started. */
  datatype Run = Run(dryRun: bool, issueState: set<nat>, pending: seq<Item>, dirty: bool,
                     readable: bool, worked: set<nat>, before: map<nat, Labels>)

  /** `labels` are the issues' labels, `saved` the state file; `added` and `processed`
      are history: what the tool added to each issue, and what it ever worked on. */
  datatype World = World(labels: map<nat, Labels>, saved: set<nat>, run: Option<Run>,
                         added: map<nat, Labels>, processed: set<nat>)

  function LabelsIn(labels: map<nat, Labels>, number: nat): Labels {
    if number in labels then labels[number] else {}
  }

  datatype Event =
    | Start(readable: bool, dryRun: bool)
    | NextBatch(items: seq<Item>)
    | Work(classification: Classification)
    | Checkpoint
    | Stop
    | OthersAdd(number: nat, name: string)

  /** The issues of a batch that were not processed yet. */
  function Pending(items: seq<Item>, issueState: set<nat>): seq<Item> {
    if items == [] then []
    else Pending(items[..|items| - 1], issueState)
         + if items[|items| - 1].number in issueState then [] else [items[|items| - 1]]
  }

  function WorkOn(world: World, item: Item, c: Classification): World
    requires world.run.Some? && world.run.value.pending != []
  {
    var run, n, toAdd := world.run.value, item.number, ToAdd(item, c);
    var next := world.(run := Some(run.(pending := run.pending[1..], issueState := run.issueState + {n},
                                         worked := run.worked + {n})));
    if run.dryRun then next
    else next.(labels := world.labels[n := LabelsIn(world.labels, n) + toAdd],
               added := world.added[n := LabelsIn(world.added, n) + toAdd],
               processed := world.processed + {n})
  }

  /** `Stop` is the end of a run or a crash: what was not saved is lost. */
  function Step(world: World, event: Event): World {
    match event
    case Start(readable, dryRun) =>
      if world.run.Some? then world
      else world.(run := Some(Run(dryRun, if readable then world.saved else {}, [], false, readable, {}, world.labels)))
    case NextBatch(items) =>
      if world.run.None? || world.run.value.pending != [] || world.run.value.dirty then world
      else
        var pending := Pending(items, world.run.value.issueState);
        world.(run := Some(world.run.value.(pending := pending, dirty := !world.run.value.dryRun && pending != [])))
    case Work(c) =>
      if world.run.None? || world.run.value.pending == [] then world
      else WorkOn(world, world.run.value.pending[0], c)
    case Checkpoint =>
      if world.run.None? || world.run.value.pending != [] || !world.run.value.dirty then world
      else world.(saved := world.run.value.issueState, run := Some(world.run.value.(dirty := false)))
    case Stop => world.(run := None)
    case OthersAdd(number, name) => world.(labels := world.labels[number := LabelsIn(world.labels, number) + {name}])
  }

  /** The labels of a fetched batch were read after the run started, so they include all
      labels of that time. */
  ghost predicate ShowsBefore(run: Run, items: seq<Item>) {
    forall i | 0 <= i < |items| :: LabelsIn(run.before, items[i].number) <= items[i].labels
  }

  /** No issue is listed twice without a category. */
  ghost predicate ListsOnce(items: seq<Item>) {
    forall i, j | 0 <= i < j < |items| && items[i].number == items[j].number ::
      HasCategory(items[i].labels) || HasCategory(items[j].labels)
  }

  /** What is assumed of a batch fetched by a run that is not dry. */
  ghost predicate IsFetched(world: World, event: Event) {
    event.NextBatch? && world.run.Some? && !world.run.value.dryRun ==>
      ShowsBefore(world.run.value, event.items) && ListsOnce(Pending(event.items, world.run.value.issueState))
  }

  function Execute(world: World, events: seq<Event>): World {
    if events == [] then world else Step(Execute(world, events[..|events| - 1]), events[|events| - 1])
  }

  ghost predicate AreFetched(world: World, events: seq<Event>)
    decreases |events|
  {
    events != [] ==>
      && AreFetched(world, events[..|events| - 1])
      && IsFetched(Execute(world, events[..|events| - 1]), events[|events| - 1])
  }

  // -------------------------------------------------------------- the invariant

  /** The tool has not added both categories. */
  ghost predicate OneCategory(world: World, n: nat) {
    !(BUG_LABEL in LabelsIn(world.added, n) && ENHANCEMENT_LABEL in LabelsIn(world.added, n))
  }

  /** What the tool added is on the issue, with at most one of the two categories, and
      every issue it added to it worked on. */
  ghost predicate AddedOk(world: World, n: nat) {
    && LabelsIn(world.added, n) <= LabelsIn(world.labels, n)
    && OneCategory(world, n)
    && (LabelsIn(world.added, n) != {} ==> n in world.processed)
  }

  /** In a run that is not dry: an issue the tool gave a category either had it when
      the run started, or is counted as processed. */
  ghost predicate SeenByRun(world: World, run: Run, n: nat) {
    HasCategory(LabelsIn(world.added, n)) ==> HasCategory(LabelsIn(run.before, n)) || n in run.issueState
  }

  /** A pending issue that was fetched without a category has not been given one, and is
      pending only once. */
  ghost predicate PendingOk(world: World, pending: seq<Item>) {
    && ListsOnce(pending)
    && forall i | 0 <= i < |pending| ::
         HasCategory(LabelsIn(world.added, pending[i].number)) ==> HasCategory(pending[i].labels)
  }

  ghost predicate RunOk(world: World, run: Run) {
    && PendingOk(world, run.pending)
    && (forall n: nat :: SeenByRun(world, run, n))
    && run.issueState <= world.processed
  }

  ghost predicate Ok(world: World) {
    && (forall n: nat :: AddedOk(world, n))
    && world.saved <= world.processed
    && (world.run.Some? ==> if world.run.value.dryRun then !world.run.value.dirty else RunOk(world, world.run.value))
  }

  lemma {:induction false} PendingIsFiltered(items: seq<Item>, issueState: set<nat>)
    ensures forall item :: item in Pending(items, issueState) <==> item in items && item.number !in issueState
    decreases |items|
  {
    if items != [] {
      var n := |items| - 1;
      PendingIsFiltered(items[..n], issueState);
      assert items == items[..n] + [items[n]];
    }
  }

  /** An issue the run has not processed shows in a fetched batch what it was given before. */
  lemma {:induction false} BatchIsOk(world: World, run: Run, items: seq<Item>)
    requires RunOk(world, run) && ShowsBefore(run, items) && ListsOnce(Pending(items, run.issueState))
    ensures PendingOk(world, Pending(items, run.issueState))
  {
    var pending := Pending(items, run.issueState);
    PendingIsFiltered(items, run.issueState);
    hide Pending, ListsOnce, PendingOk;
    forall i | 0 <= i < |pending|
      ensures HasCategory(LabelsIn(world.added, pending[i].number)) ==> HasCategory(pending[i].labels)
    {
      assert SeenByRun(world, run, pending[i].number);
      assert LabelsIn(run.before, pending[i].number) <= pending[i].labels;
    }
    PendingOkIf(world, pending);
  }

  lemma {:induction false} PendingOkIf(world: World, pending: seq<Item>)
    requires ListsOnce(pending)
    requires forall i | 0 <= i < |pending| ::
               HasCategory(LabelsIn(world.added, pending[i].number)) ==> HasCategory(pending[i].labels)
    ensures PendingOk(world, pending)
  {
  }

  lemma {:induction false} BatchKeepsOk(world: World, items: seq<Item>)
    requires Ok(world) && IsFetched(world, NextBatch(items))
    ensures Ok(Step(world, NextBatch(items)))
  {
    hide HasCategory, Pending, ListsOnce;
    var next := Step(world, NextBatch(items));
    forall n: nat ensures AddedOk(next, n) {
      assert AddedOk(world, n);
    }
    if world.run.Some? && !world.run.value.dryRun {
      BatchIsOk(world, world.run.value, items);
      hide PendingOk;
      forall n: nat ensures SeenByRun(next, next.run.value, n) {
        assert SeenByRun(world, world.run.value, n);
      }
    }
  }

  /** What one turn adds to the issues. */
  lemma {:induction false} WorkAdds(world: World, c: Classification, n: nat)
    requires world.run.Some? && world.run.value.pending != [] && !world.run.value.dryRun
    ensures var item, next := world.run.value.pending[0], Step(world, Work(c));
            && LabelsIn(next.added, n) == LabelsIn(world.added, n) + (if n == item.number then ToAdd(item, c) else {})
            && LabelsIn(next.labels, n) == LabelsIn(world.labels, n) + (if n == item.number then ToAdd(item, c) else {})
  {
  }

  lemma {:induction false} NamesDiffer()
    ensures BUG_LABEL != ENHANCEMENT_LABEL && BUG_LABEL != SUPPORT_LABEL && BUG_LABEL != SKILL_LABEL
    ensures ENHANCEMENT_LABEL != SUPPORT_LABEL && ENHANCEMENT_LABEL != SKILL_LABEL
  {
    assert |BUG_LABEL| == 3 && |ENHANCEMENT_LABEL| == 11 && |SUPPORT_LABEL| == 10 && |SKILL_LABEL| == 8;
  }

  /** A turn adds the category it was classified as exactly if the issue lacked one. */
  lemma {:induction false} ToAddCategory(item: Item, c: Classification)
    ensures BUG_LABEL in ToAdd(item, c) <==> !HasCategory(item.labels) && c.isBug
    ensures ENHANCEMENT_LABEL in ToAdd(item, c) <==> !HasCategory(item.labels) && !c.isBug
  {
    NamesDiffer();
  }

  lemma {:induction false} WorkKeepsPendingOk(world: World, c: Classification)
    requires world.run.Some? && world.run.value.pending != [] && !world.run.value.dryRun
    requires PendingOk(world, world.run.value.pending)
    ensures var next := Step(world, Work(c)); next.run.Some? && PendingOk(next, next.run.value.pending)
  {
    var pending, next := world.run.value.pending, Step(world, Work(c));
    assert next.run.value.pending == pending[1..];
    hide Step, ToAdd, HasCategory;
    forall i | 1 <= i < |pending|
      ensures HasCategory(LabelsIn(next.added, pending[i].number)) ==> HasCategory(pending[i].labels)
    {
      WorkAdds(world, c, pending[i].number);
      ToAddCategory(pending[0], c);
      CategoryOfSum(LabelsIn(world.added, pending[i].number), ToAdd(pending[0], c));
    }
  }

  lemma {:induction false} CategoryOfSum(a: Labels, b: Labels)
    ensures HasCategory(a + b) ==> HasCategory(a) || BUG_LABEL in b || ENHANCEMENT_LABEL in b
  {
  }

  lemma {:induction false} WorkKeepsAddedOk(world: World, c: Classification, n: nat)
    requires world.run.Some? && world.run.value.pending != [] && !world.run.value.dryRun
    requires AddedOk(world, n) && SeenByRun(world, world.run.value, n) && PendingOk(world, world.run.value.pending)
    ensures var next := Step(world, Work(c));
            next.run.Some? && AddedOk(next, n) && SeenByRun(next, next.run.value, n)
  {
    WorkAdds(world, c, n);
    ToAddCategory(world.run.value.pending[0], c);
    hide ToAdd;
  }

  lemma {:induction false} WorkKeepsOk(world: World, c: Classification)
    requires Ok(world)
    ensures Ok(Step(world, Work(c)))
  {
    if world.run.Some? && world.run.value.pending != [] {
      var run, next := world.run.value, Step(world, Work(c));
      assert next.run.Some? && next.run.value.dryRun == run.dryRun;
      if run.dryRun {
        forall n: nat ensures AddedOk(next, n) {
          assert AddedOk(world, n);
        }
      } else {
        WorkKeepsPendingOk(world, c);
        assert next.run.value.issueState <= next.processed && next.saved <= next.processed;
        hide Step, PendingOk;
        forall n: nat ensures AddedOk(next, n) && SeenByRun(next, next.run.value, n) {
          assert AddedOk(world, n) && SeenByRun(world, run, n);
          WorkKeepsAddedOk(world, c, n);
        }
      }
    }
  }

  lemma {:induction false} OtherStepsKeepOk(world: World, event: Event)
    requires Ok(world) && !event.NextBatch? && !event.Work?
    ensures Ok(Step(world, event))
  {
    hide HasCategory, ListsOnce;
    var next := Step(world, event);
    forall n: nat ensures AddedOk(next, n) {
      assert AddedOk(world, n);
    }
    if next.run.Some? && !next.run.value.dryRun {
      forall n: nat ensures SeenByRun(next, next.run.value, n) {
        assert AddedOk(world, n);
        if event.Start? && world.run.None? {
          AddedMeansSeen(world, n);
        } else {
          assert SeenByRun(world, world.run.value, n);
        }
      }
      assert PendingOk(next, next.run.value.pending) by {
        if event.Start? && world.run.None? {
          NothingPendingIsOk(next);
        } else {
          assert PendingOk(world, world.run.value.pending);
        }
      }
    }
  }

  lemma {:induction false} AddedMeansSeen(world: World, n: nat)
    requires AddedOk(world, n)
    ensures HasCategory(LabelsIn(world.added, n)) ==> HasCategory(LabelsIn(world.labels, n))
  {
  }

  lemma {:induction false} NothingPendingIsOk(world: World)
    ensures PendingOk(world, [])
  {
  }

  lemma {:induction false} StepKeepsOk(world: World, event: Event)
    requires Ok(world) && IsFetched(world, event)
    ensures Ok(Step(world, event))
  {
    if event.NextBatch? {
      BatchKeepsOk(world, event.items);
    } else if event.Work? {
      WorkKeepsOk(world, event.classification);
    } else {
      OtherStepsKeepOk(world, event);
    }
  }

  /** Before its first run the tool has added nothing; the state file may be missing. */
  ghost predicate IsFresh(world: World) {
    world.run.None? && world.saved == {} && world.added == map[]
  }

  lemma {:induction false} EveryExecutionIsOk(world: World, events: seq<Event>)
    requires IsFresh(world) && AreFetched(world, events)
    ensures Ok(Execute(world, events))
    decreases |events|
  {
    hide Step, IsFetched;
    if events != [] {
      EveryExecutionIsOk(world, events[..|events| - 1]);
      StepKeepsOk(Execute(world, events[..|events| - 1]), events[|events| - 1]);
    } else {
      forall n: nat ensures AddedOk(world, n) {}
    }
  }

  /** Over any runs, crashes and unreadable state files: the tool adds at most one of
      the two categories to an issue, and every saved issue was worked on. */
  lemma {:induction false} AtMostOneCategory(world: World, events: seq<Event>, n: nat)
    requires IsFresh(world) && AreFetched(world, events)
    ensures var last := Execute(world, events);
            && OneCategory(last, n)
            && (n in last.saved ==> n in last.processed)
  {
    EveryExecutionIsOk(world, events);
    assert AddedOk(Execute(world, events), n);
  }

  // ------------------------------------------- at most one category, and exactly when

  lemma {:induction false} WorkManyOk(world: World, classify: nat -> Classification, count: nat)
    requires Ok(world)
    ensures Ok(WorkMany(world, classify, count))
  {
    hide Ok, Step;
    if count > 0 {
      WorkManyOk(world, classify, count - 1);
      WorkKeepsOk(WorkMany(world, classify, count - 1), classify(count - 1));
    }
  }

  lemma {:induction false} WorkManyLeaves(world: World, classify: nat -> Classification, count: nat)
    requires world.run.Some? && !world.run.value.dryRun && count <= |world.run.value.pending|
    ensures var next := WorkMany(world, classify, count);
            next.run.Some? && !next.run.value.dryRun && next.run.value.pending == world.run.value.pending[count..]
  {
    if count > 0 {
      WorkManyLeaves(world, classify, count - 1);
      hide WorkMany, ToAdd;
      assert world.run.value.pending[count - 1..][1..] == world.run.value.pending[count..];
    }
  }

  lemma {:induction false} WorkManyOneMore(world: World, classify: nat -> Classification, count: nat)
    ensures WorkMany(world, classify, count + 1) == Step(WorkMany(world, classify, count), Work(classify(count)))
  {
  }

  lemma {:induction false} WorkManyKeepsAdded(world: World, classify: nat -> Classification, i: nat, count: nat, n: nat)
    requires world.run.Some? && !world.run.value.dryRun && i <= count <= |world.run.value.pending|
    ensures LabelsIn(WorkMany(world, classify, i).added, n) <= LabelsIn(WorkMany(world, classify, count).added, n)
    decreases count
  {
    hide WorkMany, ToAdd, Step, LabelsIn;
    if i < count {
      WorkManyKeepsAdded(world, classify, i, count - 1, n);
      WorkManyLeaves(world, classify, count - 1);
      WorkManyOneMore(world, classify, count - 1);
      WorkAdds(WorkMany(world, classify, count - 1), classify(count - 1), n);
    }
  }

  /** An issue pending without a category gets the category of its turn. */
  lemma {:induction false} TurnAdds(world: World, classify: nat -> Classification, i: nat)
    requires world.run.Some? && !world.run.value.dryRun && i < |world.run.value.pending|
    requires !HasCategory(world.run.value.pending[i].labels)
    ensures var item, last := world.run.value.pending[i], WorkMany(world, classify, |world.run.value.pending|);
            (if classify(i).isBug then BUG_LABEL else ENHANCEMENT_LABEL) in LabelsIn(last.added, item.number)
  {
    var item, at := world.run.value.pending[i], WorkMany(world, classify, i);
    WorkManyLeaves(world, classify, i);
    assert at.run.value.pending[0] == item;
    hide Step, ToAdd;
    WorkAdds(at, classify(i), item.number);
    ToAddCategory(item, classify(i));
    WorkManyOneMore(world, classify, i);
    WorkManyKeepsAdded(world, classify, i + 1, |world.run.value.pending|, item.number);
  }

  /** The next batch of a run that is not dry leaves every issue with at most one added
      category, however its issues are classified, exactly if none of those still to be
      worked on is listed twice without a category. */
  lemma {:induction false} AtMostOneCategoryIff(world: World, events: seq<Event>, items: seq<Item>)
    requires IsFresh(world) && AreFetched(world, events)
    requires var at := Execute(world, events);
             at.run.Some? && !at.run.value.dryRun && at.run.value.pending == [] && !at.run.value.dirty
             && ShowsBefore(at.run.value, items)
    ensures var begun := Step(Execute(world, events), NextBatch(items));
            (forall classify: nat -> Classification, n: nat ::
               OneCategory(WorkMany(begun, classify, |begun.run.value.pending|), n))
            <==> ListsOnce(begun.run.value.pending)
  {
    var at := Execute(world, events);
    var begun := Step(at, NextBatch(items));
    var pending := begun.run.value.pending;
    EveryExecutionIsOk(world, events);
    if ListsOnce(pending) {
      BatchKeepsOk(at, items);
      forall classify: nat -> Classification, n: nat ensures OneCategory(WorkMany(begun, classify, |pending|), n) {
        WorkManyOk(begun, classify, |pending|);
        assert AddedOk(WorkMany(begun, classify, |pending|), n);
      }
    } else {
      var i, j :| 0 <= i < j < |pending| && pending[i].number == pending[j].number
        && !HasCategory(pending[i].labels) && !HasCategory(pending[j].labels);
      var classify := k => Classification(k == i, false, false);
      TurnAdds(begun, classify, i);
      TurnAdds(begun, classify, j);
      assert !OneCategory(WorkMany(begun, classify, |pending|), pending[i].number);
    }
  }

  // ------------------------------------------------------------ what the file keeps

  /** A run counts as processed what it has worked on itself, and what the state file
      says if it could read it. */
  ghost predicate Remembers(world: World) {
    world.run.Some? ==>
      world.run.value.issueState == (if world.run.value.readable then world.saved else {}) + world.run.value.worked
  }

  lemma {:induction false} EveryExecutionRemembers(world: World, events: seq<Event>)
    requires world.run.None?
    ensures Remembers(Execute(world, events))
    decreases |events|
  {
    hide Step, Remembers;
    if events != [] {
      EveryExecutionRemembers(world, events[..|events| - 1]);
      StepRemembers(Execute(world, events[..|events| - 1]), events[|events| - 1]);
    } else {
      NoRunRemembers(world);
    }
  }

  lemma {:induction false} NoRunRemembers(world: World)
    ensures world.run.None? ==> Remembers(world)
  {
  }

  lemma {:induction false} StepRemembers(world: World, event: Event)
    requires Remembers(world)
    ensures Remembers(Step(world, event))
  {
    hide ToAdd, Pending;
  }

  /** The event writes the state file. */
  ghost predicate Saves(world: World, event: Event) {
    event.Checkpoint? && world.run.Some? && world.run.value.pending == [] && world.run.value.dirty
  }

  /** The event does not write the state file, or its run could read the file or has
      itself worked on every issue saved there. */
  ghost predicate KeepsSaved(world: World, event: Event) {
    Saves(world, event) ==> world.run.value.readable || world.saved <= world.run.value.worked
  }

  /** Over any executions: what an event drops from the state file is exactly what a run
      that could not read it has not worked on, when that run saves. */
  lemma {:induction false} LostFromSaved(world: World, events: seq<Event>, event: Event)
    requires world.run.None?
    ensures var at := Execute(world, events);
            && at.saved - Step(at, event).saved
               == (if Saves(at, event) && !at.run.value.readable then at.saved - at.run.value.worked else {})
            && (at.saved <= Step(at, event).saved <==> KeepsSaved(at, event))
  {
    EveryExecutionRemembers(world, events);
    hide Execute, Pending, ToAdd;
  }

  function Numbers(items: seq<Item>): set<nat> {
    set i | 0 <= i < |items| :: items[i].number
  }

  lemma {:induction false} WorkManyCounts(world: World, classify: nat -> Classification, count: nat)
    requires world.run.Some? && count <= |world.run.value.pending|
    ensures var run, next := world.run.value, WorkMany(world, classify, count);
            && next.saved == world.saved
            && next.run.Some? && next.run.value.dryRun == run.dryRun && next.run.value.dirty == run.dirty
            && next.run.value.pending == run.pending[count..]
            && next.run.value.issueState == run.issueState + Numbers(run.pending[..count])
  {
    hide ToAdd, Numbers;
    var pending := world.run.value.pending;
    if count == 0 {
      assert pending[0..] == pending;
      NoNumbers(pending);
    } else {
      hide WorkMany, LabelsIn;
      WorkManyCounts(world, classify, count - 1);
      WorkManyOneMore(world, classify, count - 1);
      assert pending[count - 1..][1..] == pending[count..];
      assert pending[..count] == pending[..count - 1] + [pending[count - 1]];
      NumbersOneMore(pending[..count - 1], pending[count - 1]);
    }
  }

  lemma {:induction false} NoNumbers(items: seq<Item>)
    ensures Numbers(items[..0]) == {}
  {
  }

  lemma {:induction false} NumbersOneMore(items: seq<Item>, item: Item)
    ensures Numbers(items + [item]) == Numbers(items) + {item.number}
  {
    forall n | n in Numbers(items) + {item.number} ensures n in Numbers(items + [item]) {
      if n in Numbers(items) {
        var i :| 0 <= i < |items| && items[i].number == n;
        assert (items + [item])[i].number == n;
      } else {
        assert (items + [item])[|items|].number == n;
      }
    }
  }

  /** A batch that is worked through is saved, together with what the run counted as
      processed before, unless the run is dry or the batch has no issue new to it. */
  lemma {:induction false} BatchIsSaved(
      world: World, events: seq<Event>, items: seq<Item>, classify: nat -> Classification)
    requires world.run.None?
    requires var at := Execute(world, events); at.run.Some? && at.run.value.pending == [] && !at.run.value.dirty
    ensures var at := Execute(world, events);
            var begun := Step(at, NextBatch(items));
            var known := (if at.run.value.readable then at.saved else {}) + at.run.value.worked;
            Step(WorkMany(begun, classify, |begun.run.value.pending|), Checkpoint).saved
            == if at.run.value.dryRun || Numbers(items) <= known then at.saved else known + Numbers(items)
  {
    var at := Execute(world, events);
    var begun := Step(at, NextBatch(items));
    var pending := begun.run.value.pending;
    EveryExecutionRemembers(world, events);
    WorkManyCounts(begun, classify, |pending|);
    assert pending[|pending|..] == [] && pending[..|pending|] == pending;
    PendingNumbers(items, at.run.value.issueState);
    hide Execute, WorkMany, Pending, Numbers;
  }

  lemma {:induction false} PendingNumbers(items: seq<Item>, issueState: set<nat>)
    ensures Numbers(Pending(items, issueState)) == Numbers(items) - issueState
    ensures Pending(items, issueState) == [] <==> Numbers(items) <= issueState
    decreases |items|
  {
    if items != [] {
      var n := |items| - 1;
      assert items == items[..n] + [items[n]];
      PendingNumbers(items[..n], issueState);
      NumbersOneMore(items[..n], items[n]);
      NumbersOneMore(Pending(items[..n], issueState), items[n]);
      assert Pending(items[..n], issueState) + [] == Pending(items[..n], issueState);
      hide Numbers;
    }
  }

  ghost predicate SavedGrows(world: World, events: seq<Event>) {
    forall j: nat, k: nat | j <= k <= |events| :: Execute(world, events[..j]).saved <= Execute(world, events[..k]).saved
  }

  /** What is saved only grows, all the way, exactly if every event keeps it. */
  lemma {:induction false} SavedGrowsIff(world: World, events: seq<Event>)
    requires world.run.None?
    ensures SavedGrows(world, events) <==> forall k: nat | k < |events| ::
              KeepsSaved(Execute(world, events[..k]), events[k])
  {
    forall k: nat | k < |events|
      ensures Execute(world, events[..k]).saved <= Execute(world, events[..k + 1]).saved
              <==> KeepsSaved(Execute(world, events[..k]), events[k])
    {
      LostFromSaved(world, events[..k], events[k]);
      ExecutePrefix(world, events, k);
    }
    hide Execute, Step, KeepsSaved;
    if forall k: nat | k < |events| :: KeepsSaved(Execute(world, events[..k]), events[k]) {
      forall j: nat, k: nat | j <= k <= |events|
        ensures Execute(world, events[..j]).saved <= Execute(world, events[..k]).saved
      {
        SavedGrowsFrom(world, events, j, k);
      }
    }
    if SavedGrows(world, events) {
      forall k: nat | k < |events| ensures KeepsSaved(Execute(world, events[..k]), events[k]) {
        assert Execute(world, events[..k]).saved <= Execute(world, events[..k + 1]).saved;
      }
    }
  }

  lemma {:induction false} SavedGrowsFrom(world: World, events: seq<Event>, j: nat, k: nat)
    requires j <= k <= |events|
    requires forall m: nat | m < |events| ::
               Execute(world, events[..m]).saved <= Execute(world, events[..m + 1]).saved
    ensures Execute(world, events[..j]).saved <= Execute(world, events[..k]).saved
    decreases k
  {
    if j < k {
      SavedGrowsFrom(world, events, j, k - 1);
    }
  }

  lemma {:induction false} ExecutePrefix(world: World, events: seq<Event>, k: nat)
    requires k < |events|
    ensures Execute(world, events[..k + 1]) == Step(Execute(world, events[..k]), events[k])
  {
    assert events[..k + 1][..k] == events[..k];
  }

  /** A run that cannot read the file may lose what earlier runs had saved. */
  lemma {:induction false} UnreadableStateLosesSaved()
    ensures exists events: seq<Event> ::
              Execute(World(map[], {1}, None, map[], {1}), events).saved == {2}
  {
    var item, c := Item(2, {}), Classification(true, false, false);
    var w0 := World(map[], {1}, None, map[], {1});
    var w1 := w0.(run := Some(Run(false, {}, [], false, false, {}, map[])));
    var w2 := w0.(run := Some(Run(false, {}, [item], true, false, {}, map[])));
    assert Step(w0, Start(false, false)) == w1;
    OnceInBatch(item, {});
    assert Step(w1, NextBatch([item])) == w2;
    var w3 := Step(w2, Work(c));
    assert w3.run.value.pending == [] && w3.run.value.issueState == {2};
    assert Step(w3, Checkpoint).saved == {2};
    hide Step, ToAdd;
    ExecuteOneMore(w0, [], Start(false, false));
    ExecuteOneMore(w0, [] + [Start(false, false)], NextBatch([item]));
    ExecuteOneMore(w0, [] + [Start(false, false)] + [NextBatch([item])], Work(c));
    ExecuteOneMore(w0, [] + [Start(false, false)] + [NextBatch([item])] + [Work(c)], Checkpoint);
  }

  lemma {:induction false} OnceInBatch(item: Item, issueState: set<nat>)
    requires item.number !in issueState
    ensures Pending([item], issueState) == [item]
  {
    assert [item][..0] == [];
    assert Pending([], issueState) == [];
  }

  /** A dry run changes neither labels nor the state file. */
  lemma {:induction false} DryRunChangesNothing(world: World, event: Event)
    requires world.run.Some? && world.run.value.dryRun && !world.run.value.dirty
    requires !event.OthersAdd?
    ensures var next := Step(world, event);
            && next.labels == world.labels && next.saved == world.saved && next.added == world.added
            && (next.run.Some? ==> next.run.value.dryRun && !next.run.value.dirty)
  {
  }

  /** A run skips exactly the issues it has worked on itself, and those saved in the
      state file if it could read it. */
  lemma {:induction false} SavedIsSkipped(world: World, events: seq<Event>, items: seq<Item>, item: Item)
    requires world.run.None? && item in items
    requires var at := Execute(world, events); at.run.Some? && at.run.value.pending == [] && !at.run.value.dirty
    ensures var at := Execute(world, events);
            item in Step(at, NextBatch(items)).run.value.pending
            <==> item.number !in at.run.value.worked && (at.run.value.readable ==> item.number !in at.saved)
  {
    EveryExecutionRemembers(world, events);
    PendingIsFiltered(items, Execute(world, events).run.value.issueState);
    hide Execute, Pending;
  }

  /** After its turn an issue has the support and skill labels if it was so classified,
      and the category it was classified as if it was fetched with neither; else it has
      what it had. No other issue has changed, and nothing is added that was already
      there when the issue was fetched. */
  lemma {:induction false} WorkedIssueIsLabelled(world: World, c: Classification)
    requires world.run.Some? && world.run.value.pending != [] && !world.run.value.dryRun
    requires var item := world.run.value.pending[0]; item.labels <= LabelsIn(world.labels, item.number)
    ensures var item, next := world.run.value.pending[0], Step(world, Work(c));
            var labels := LabelsIn(next.labels, item.number);
            && (forall name :: name in labels <==>
                  || name in LabelsIn(world.labels, item.number)
                  || (name == "r: support" && c.isSupport)
                  || (name == "r: skill" && c.isSkillOnly)
                  || (name == (if c.isBug then "bug" else "enhancement")
                      && "bug" !in item.labels && "enhancement" !in item.labels))
            && ("bug" in labels || "enhancement" in labels)
            && (labels - LabelsIn(world.labels, item.number)) !! item.labels
            && (forall n: nat | n != item.number :: LabelsIn(next.labels, n) == LabelsIn(world.labels, n))
            && item.number in next.run.value.issueState
  {
    var item := world.run.value.pending[0];
    assert CategoryOf(c) == (if c.isBug then BUG_LABEL else ENHANCEMENT_LABEL);
    assert ToAdd(item, c) !! item.labels;
    NamesDiffer();
  }

  lemma {:induction false} ExecuteOneMore(world: World, events: seq<Event>, event: Event)
    ensures Execute(world, events + [event]) == Step(Execute(world, events), event)
  {
    assert (events + [event])[..|events|] == events;
  }

  /** An issue listed twice in one batch may be given both categories, as both entries
      were fetched before either was worked on. */
  lemma {:induction false} DuplicateGetsBothCategories()
    ensures exists events: seq<Event> ::
              var last := Execute(World(map[], {}, None, map[], {}), events);
              !OneCategory(last, 7)
  {
    var item, bug, enhancement := Item(7, {}), Classification(true, false, false), Classification(false, false, false);
    var w0 := World(map[], {}, None, map[], {});
    var w1 := w0.(run := Some(Run(false, {}, [], false, true, {}, map[])));
    assert Step(w0, Start(true, false)) == w1;
    TwiceInBatch(item);
    var w2 := w0.(run := Some(Run(false, {}, [item, item], true, true, {}, map[])));
    assert Step(w1, NextBatch([item, item])) == w2;
    var w3, w4 := Step(w2, Work(bug)), Step(Step(w2, Work(bug)), Work(enhancement));
    assert w3.run.value.pending == [item] && LabelsIn(w3.added, 7) == {BUG_LABEL};
    assert LabelsIn(w4.added, 7) == {BUG_LABEL, ENHANCEMENT_LABEL};
    hide Step, ToAdd;
    ExecuteOneMore(w0, [], Start(true, false));
    ExecuteOneMore(w0, [] + [Start(true, false)], NextBatch([item, item]));
    ExecuteOneMore(w0, [] + [Start(true, false)] + [NextBatch([item, item])], Work(bug));
    ExecuteOneMore(w0, [] + [Start(true, false)] + [NextBatch([item, item])] + [Work(bug)], Work(enhancement));
  }

  lemma {:induction false} TwiceInBatch(item: Item)
    ensures Pending([item, item], {}) == [item, item]
  {
    assert [item, item][..1] == [item];
    OnceInBatch(item, {});
  }

  // ------------------------------------------------------------------ the program

  lemma {:induction false} PendingOneMore(items: seq<Item>, n: nat, issueState: set<nat>)
    requires n < |items|
    ensures Pending(items[..n + 1], issueState)
         == Pending(items[..n], issueState) + if items[n].number in issueState then [] else [items[n]]
  {
    assert items[..n + 1][..n] == items[..n];
  }

  /** `count` issues worked on one after the other. */
  function WorkMany(world: World, classify: nat -> Classification, count: nat): World {
    if count == 0 then world else Step(WorkMany(world, classify, count - 1), Work(classify(count - 1)))
  }

  /** The tool between two batches, and the world it changes. */
  class Labeler {
    var labels: map<nat, Labels>
    var saved: set<nat>
    var running: bool
    var dryRun: bool
    var issueState: set<nat>
    ghost var readable: bool
    ghost var worked: set<nat>
    ghost var before: map<nat, Labels>
    ghost var added: map<nat, Labels>
    ghost var processed: set<nat>

    /** The world when `pending` is still to be worked on. */
    ghost function Amid(pending: seq<Item>, dirty: bool): World
      reads this
    {
      var run := if running then Some(Run(dryRun, issueState, pending, dirty, readable, worked, before)) else None;
      World(labels, saved, run, added, processed)
    }

    ghost function Now(): World
      reads this
    {
      Amid([], false)
    }

    constructor (labels: map<nat, Labels>)
      ensures Now() == World(labels, {}, None, map[], {})
    {
      this.labels := labels;
      saved, running, dryRun, issueState := {}, false, false, {};
      readable, worked, before, added, processed := false, {}, map[], map[], {};
    }

    method Begin(readable: bool, dryRun: bool)
      requires !running
      modifies this
      ensures running && Now() == Step(old(Now()), Start(readable, dryRun))
    {
      running := true;
      this.dryRun := dryRun;
      if readable {
        issueState := saved;
      } else {
        issueState := {};
      }
      this.readable, worked, before := readable, {}, labels;
    }

    method ChooseLabels(item: Item, c: Classification) returns (toAdd: Labels)
      ensures toAdd == ToAdd(item, c)
    {
      toAdd := {};
      if BUG_LABEL !in item.labels && ENHANCEMENT_LABEL !in item.labels {
        toAdd := toAdd + {CategoryOf(c)};
      }
      if c.isSupport && SUPPORT_LABEL !in item.labels {
        toAdd := toAdd + {SUPPORT_LABEL};
      }
      if c.isSkillOnly && SKILL_LABEL !in item.labels {
        toAdd := toAdd + {SKILL_LABEL};
      }
    }

    /** One issue: classify, add the labels that are missing, count it as processed. */
    method WorkOnIssue(ghost pending: seq<Item>, ghost dirty: bool, issue: Item, c: Classification)
      requires running && pending != [] && issue == pending[0]
      modifies this
      ensures running && saved == old(saved) && dryRun == old(dryRun)
      ensures Amid(pending[1..], dirty) == Step(old(Amid(pending, dirty)), Work(c))
    {
      var toAdd := ChooseLabels(issue, c);
      if !dryRun {
        labels := labels[issue.number := LabelsIn(labels, issue.number) + toAdd];
        added := added[issue.number := LabelsIn(added, issue.number) + toAdd];
        processed := processed + {issue.number};
      }
      issueState := issueState + {issue.number};
      worked := worked + {issue.number};
    }

    method SelectPending(items: seq<Item>) returns (pending: seq<Item>)
      ensures pending == Pending(items, issueState)
    {
      pending := [];
      for i := 0 to |items|
        invariant pending == Pending(items[..i], issueState)
      {
        PendingOneMore(items, i, issueState);
        if items[i].number !in issueState {
          pending := pending + [items[i]];
        }
      }
      assert items[..|items|] == items;
    }

    /** One batch: the issues not processed yet, one by one, then the checkpoint. The
        tool may crash after any of them, and before the checkpoint. */
    method WorkBatch(items: seq<Item>, classify: nat -> Classification, crashAfter: Option<nat>)
      returns (crashed: bool, ghost count: nat)
      requires running
      modifies this
      ensures crashed ==> Now() == Step(WorkMany(Step(old(Now()), NextBatch(items)), classify, count), Stop)
      ensures !crashed ==> Now() == Step(WorkMany(Step(old(Now()), NextBatch(items)), classify, count), Checkpoint)
      ensures !crashed ==> count == |Pending(items, old(issueState))| && running
    {
      hide ToAdd;
      var pending := SelectPending(items);
      hide Pending;
      var dirty := !dryRun && |pending| > 0;
      ghost var begun := Step(old(Now()), NextBatch(items));
      assert pending[0..] == pending;
      assert Amid(pending[0..], dirty) == begun;
      count := 0;
      assert WorkMany(begun, classify, 0) == begun;
      hide Step, WorkMany;
      for i := 0 to |pending|
        invariant count == i && running && dirty == (!dryRun && |pending| > 0)
        invariant Amid(pending[i..], dirty) == WorkMany(begun, classify, i)
      {
        if crashAfter == Some(i) {
          CrashStops(Amid(pending[i..], dirty));
          running := false;
          return true, count;
        }
        assert pending[i..][1..] == pending[i + 1..];
        WorkManyOneMore(begun, classify, i);
        WorkOnIssue(pending[i..], dirty, pending[i], classify(i));
        count := count + 1;
      }
      assert pending[|pending|..] == [];
      if crashAfter == Some(|pending|) {
        CrashStops(Amid([], dirty));
        running := false;
        return true, count;
      }
      Finish(dirty);
      return false, count;
    }

    method Finish(dirty: bool)
      requires running && (dirty ==> !dryRun)
      modifies this`saved
      ensures Now() == Step(old(Amid([], dirty)), Checkpoint)
    {
      if dirty {
        saved := issueState;
      }
    }
  }

  lemma {:induction false} CrashStops(world: World)
    ensures Step(world, Stop) == world.(run := None)
  {
  }
}

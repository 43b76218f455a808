/** Child processes and parent signals (scripts/control-ui-i18n.ts, `runProcess`).

    Any number of runs share one registry. A run may time out, close, fail, or be
    told to stop by a signal to the parent; the parent re-raises that signal on
    itself once every registered run has dealt with its process group. Every event
    runs to completion, so a state machine over events covers all interleavings. */
module ProcessRelay {
  import opened Basics

  datatype Signal = SIGINT | SIGTERM | SIGHUP

  /** What the kill-grace timer of a run will do when it fires. */
  datatype KillTimer = Unarmed | AfterTimeout | AfterSignal(signal: Signal)

  datatype Outcome = ChildError | TimedOutError | Exited

  /** What has happened to the child and its process group: whether it closed or failed,
      and whether its group was seen dead or sent SIGKILL. */
  datatype History = History(closeSeen: bool, errorSeen: bool, groupDead: bool, killSent: bool)

  /** One call of `runProcess`. The pending parent signal and the signal recorded in the
      registry are one field, being always written together. */
  datatype Run = Run(
    mainTimer: bool, killTimer: KillTimer, waitingForKillGrace: bool,
    timedOut: bool, settled: bool, closedWhileAlive: bool,
    listening: bool, registered: bool, signal: Option<Signal>, done: bool,
    outcomes: seq<Outcome>, history: History)

  const STARTED := Run(true, Unarmed, false, false, false, false, true, true, None, false, [],
                       History(false, false, false, false))

  /** How the parent ends: by the signal it sends itself, or by one that no run hears. */
  datatype Ending = Reraised(signal: Signal) | Unheard(signal: Signal)

  /** All runs in order of their start, whether one started while another had a signal
      pending, and how the parent ended, if it did; nothing happens after that. */
  datatype State = State(runs: seq<Run>, startedLate: bool, ended: Option<Ending>)

  const INITIAL := State([], false, None)

  /** `alive` (`groups`, per run) is what the check of a process group answers,
      should it be made. */
  datatype Event =
    | Start
    | ParentSignal(signal: Signal, groups: seq<bool>)
    | Close(id: nat, alive: bool)
    | Error(id: nat)
    | Timeout(id: nat)
    | KillGrace(id: nat)

  // ------------------------------------------------------------- one run's part

  /** What an event makes of its run, and the signal it asks the parent to re-raise. */
  datatype Effect = Effect(run: Run, reraise: Option<Signal>)

  function Settle(run: Run, outcome: Outcome): Run {
    if run.settled then run
    else run.(settled := true, mainTimer := false, listening := false,
              killTimer := if run.signal.None? then Unarmed else run.killTimer,
              registered := run.registered && run.signal.Some?,
              outcomes := run.outcomes + [outcome])
  }

  function FinishClose(run: Run): Run {
    Settle(run, if run.timedOut then TimedOutError else Exited)
  }

  /** A run that was told to stop is done at once if its group is already gone. */
  function AwaitGroup(run: Run, signal: Signal, alive: bool): Effect {
    if alive then Effect(run.(waitingForKillGrace := true, killTimer := AfterSignal(signal)), None)
    else Effect(run.(done := true, history := run.history.(groupDead := true)), Some(signal))
  }

  function OnSignal(run: Run, signal: Signal, alive: bool): Effect {
    if !run.listening then Effect(run, None)
    else AwaitGroup(run.(signal := Some(signal), listening := false), signal, alive)
  }

  /** The child of a run that was told to stop has closed. */
  function CloseTold(run: Run, alive: bool): Effect {
    if alive then Effect(run.(closedWhileAlive := true), None)
    else Effect(run.(killTimer := Unarmed, done := true, history := run.history.(groupDead := true)), run.signal)
  }

  function OnClose(run: Run, alive: bool): Effect {
    var seen := run.(history := run.history.(closeSeen := true));
    if run.history.closeSeen then Effect(run, None)
    else if run.signal.Some? then CloseTold(seen, alive)
    else if run.waitingForKillGrace && alive then Effect(seen.(closedWhileAlive := true), None)
    else Effect(FinishClose(seen), None)
  }

  function OnError(run: Run): Effect {
    var failed := run.(history := run.history.(errorSeen := true));
    Effect(if run.history.errorSeen then run else Settle(failed, ChildError), None)
  }

  function OnTimeout(run: Run): Effect {
    var late := run.(mainTimer := false, timedOut := true);
    Effect(if !run.mainTimer then run
           else if run.waitingForKillGrace then late
           else late.(waitingForKillGrace := true, killTimer := AfterTimeout), None)
  }

  function OnKillGrace(run: Run): Effect {
    var fired := run.(waitingForKillGrace := false, killTimer := Unarmed, history := run.history.(killSent := true));
    match run.killTimer
    case Unarmed => Effect(run, None)
    case AfterTimeout => Effect(if run.closedWhileAlive then FinishClose(fired) else fired, None)
    case AfterSignal(signal) => Effect(fired.(done := true), Some(signal))
  }

  // ---------------------------------------------------------- the shared registry

  /** The test before re-raising: every registered run has a signal and is done. */
  predicate AllDone(runs: seq<Run>) {
    forall i | 0 <= i < |runs| :: runs[i].registered ==> runs[i].signal.Some? && runs[i].done
  }

  /** A registered run with a signal pending. */
  predicate SomePending(runs: seq<Run>) {
    exists i | 0 <= i < |runs| :: runs[i].registered && runs[i].signal.Some?
  }

  /** A handler has run; if it asks for the re-raise and all runs are done, the parent
      sends itself the signal, which ends it, for then no run listens (`EndOk`). */
  function Apply(state: State, id: nat, effect: Effect): (next: State)
    requires id < |state.runs|
    ensures |next.runs| == |state.runs|
  {
    if state.ended.Some? then state
    else
      var runs := state.runs[id := effect.run];
      State(runs, state.startedLate,
            if effect.reraise.Some? && AllDone(runs) then Some(Reraised(effect.reraise.value)) else None)
  }

  predicate IsAlive(groups: seq<bool>, id: nat) {
    id < |groups| && groups[id]
  }

  predicate NobodyListens(runs: seq<Run>) {
    forall i | 0 <= i < |runs| :: !runs[i].listening
  }

  /** A parent signal reaches the listening runs one after the other. */
  function Deliver(state: State, signal: Signal, groups: seq<bool>, count: nat): (next: State)
    requires count <= |state.runs|
    ensures |next.runs| == |state.runs|
    ensures state.ended.None? && next.ended.Some? ==> next.ended.value.Reraised?
  {
    if count == 0 then state
    else
      var before := Deliver(state, signal, groups, count - 1);
      Apply(before, count - 1, OnSignal(before.runs[count - 1], signal, IsAlive(groups, count - 1)))
  }

  /** What an event other than a start or a signal makes of its run. */
  function EffectOf(run: Run, event: Event): Effect
    requires !event.Start? && !event.ParentSignal?
  {
    match event
    case Close(_, alive) => OnClose(run, alive)
    case Error(_) => OnError(run)
    case Timeout(_) => OnTimeout(run)
    case KillGrace(_) => OnKillGrace(run)
  }

  /** A signal that finds no listener is not caught: its default action ends the parent. */
  function Step(state: State, event: Event): State {
    if state.ended.Some? then state
    else
      match event
      case Start => State(state.runs + [STARTED], state.startedLate || SomePending(state.runs), None)
      case ParentSignal(signal, groups) =>
        if NobodyListens(state.runs) then state.(ended := Some(Unheard(signal)))
        else Deliver(state, signal, groups, |state.runs|)
      case _ =>
        if event.id < |state.runs| then Apply(state, event.id, EffectOf(state.runs[event.id], event)) else state
  }

  function Execute(state: State, events: seq<Event>): State {
    if events == [] then state else Step(Execute(state, events[..|events| - 1]), events[|events| - 1])
  }

  // -------------------------------------------------------------- the invariant

  /** The promise settles at most once; a run is done only for a signal and a reason;
      while a signal waits, the timer that will finish the run is armed. */
  ghost predicate RunOk(run: Run) {
    && |run.outcomes| == (if run.settled then 1 else 0)
    && (run.done ==> run.signal.Some? && (run.history.groupDead || run.history.killSent))
    && (run.registered <==> run.signal.Some? || !run.settled)
    && (run.listening <==> run.signal.None? && !run.settled)
    && (run.signal.Some? && !run.done ==> run.killTimer.AfterSignal?)
    && (run.killTimer.AfterSignal? ==> run.waitingForKillGrace && run.signal == Some(run.killTimer.signal))
  }

  /** Without a signal, a settled run leaves no timer behind, and a run whose child
      closed has settled unless the armed kill timer is still to settle it. */
  ghost predicate Finishes(run: Run) {
    run.signal.None? ==>
      if run.settled then !run.mainTimer && run.killTimer.Unarmed?
      else && (run.waitingForKillGrace <==> run.killTimer.AfterTimeout?)
           && (run.history.closeSeen ==> run.waitingForKillGrace && run.closedWhileAlive)
  }

  /** The promise tells what happened: it fails with the child's error, or once the
      child closed, as timed out exactly if the timeout had fired. A run that timed out
      has its kill timer armed or its group sent SIGKILL, unless a signal took over. */
  ghost predicate Reports(run: Run) {
    && (run.mainTimer ==> !run.timedOut) && (!run.mainTimer && !run.settled ==> run.timedOut)
    && (run.outcomes != [] ==>
          && !run.mainTimer
          && match run.outcomes[0]
             case ChildError => run.history.errorSeen
             case TimedOutError => run.history.closeSeen && run.timedOut
             case Exited => run.history.closeSeen && !run.timedOut)
    && (run.timedOut && !run.settled && run.signal.None? ==> run.killTimer.AfterTimeout? || run.history.killSent)
    && (run.closedWhileAlive ==> run.history.closeSeen)
  }

  /** Where the parent ends no run listens any more. At a re-raise every registered run
      has its signal and its group was seen dead or sent SIGKILL, every other run had
      settled before any signal reached it, and some run recorded the signal. */
  ghost predicate EndOk(state: State) {
    match state.ended
    case None => true
    case Some(Unheard(_)) => NobodyListens(state.runs)
    case Some(Reraised(signal)) =>
      && NobodyListens(state.runs)
      && (forall i | 0 <= i < |state.runs| ::
            var run := state.runs[i];
            if run.registered then run.signal.Some? && run.done && (run.history.groupDead || run.history.killSent)
            else run.settled && run.signal.None?)
      && exists i | 0 <= i < |state.runs| :: state.runs[i].registered && state.runs[i].signal == Some(signal)
  }

  ghost predicate AllOk(runs: seq<Run>) {
    forall i | 0 <= i < |runs| :: RunOk(runs[i]) && Finishes(runs[i]) && Reports(runs[i])
  }

  ghost predicate Safe(state: State) {
    AllOk(state.runs) && EndOk(state)
  }

  /** All registered runs that recorded a signal recorded the same. */
  ghost predicate Agree(runs: seq<Run>) {
    forall i, j | 0 <= i < |runs| && 0 <= j < |runs|
      && runs[i].registered && runs[i].signal.Some? && runs[j].registered && runs[j].signal.Some? ::
      runs[i].signal == runs[j].signal
  }

  /** Unless a run started late, a pending signal has reached every registered run, and
      has ended the parent as soon as all of them are done. */
  ghost predicate Relayed(state: State) {
    !state.startedLate ==>
      && Agree(state.runs)
      && (SomePending(state.runs) ==>
            && (forall i | 0 <= i < |state.runs| :: state.runs[i].registered ==> state.runs[i].signal.Some?)
            && (AllDone(state.runs) ==> state.ended.Some?))
  }

  lemma {:induction false} SettleKeepsRunOk(run: Run, outcome: Outcome)
    requires RunOk(run)
    ensures RunOk(Settle(run, outcome))
  {
  }

  lemma {:induction false} SignalKeepsRunOk(run: Run, signal: Signal, alive: bool)
    requires RunOk(run)
    ensures RunOk(OnSignal(run, signal, alive).run)
  {
  }

  lemma {:induction false} CloseKeepsRunOk(run: Run, alive: bool)
    requires RunOk(run)
    ensures RunOk(OnClose(run, alive).run)
  {
    if run.history.closeSeen || run.signal.Some? || (run.waitingForKillGrace && alive) {
      hide Settle, FinishClose;
    } else {
      hide Settle;
      var seen := run.(history := run.history.(closeSeen := true));
      SettleKeepsRunOk(seen, if run.timedOut then TimedOutError else Exited);
    }
  }

  lemma {:induction false} KillGraceKeepsRunOk(run: Run)
    requires RunOk(run)
    ensures RunOk(OnKillGrace(run).run)
  {
    if run.killTimer.AfterTimeout? {
      var killed := run.history.(killSent := true);
      SettleKeepsRunOk(run.(waitingForKillGrace := false, killTimer := Unarmed, history := killed),
                       if run.timedOut then TimedOutError else Exited);
    }
  }

  lemma {:induction false} ErrorAndTimeoutKeepRunOk(run: Run)
    requires RunOk(run)
    ensures RunOk(OnError(run).run) && RunOk(OnTimeout(run).run)
  {
    SettleKeepsRunOk(run.(history := run.history.(errorSeen := true)), ChildError);
  }

  lemma {:induction false} SignalAndTimeoutKeepFinishes(run: Run, signal: Signal, alive: bool)
    requires Finishes(run)
    ensures Finishes(OnSignal(run, signal, alive).run) && Finishes(OnTimeout(run).run)
  {
  }

  lemma {:induction false} ErrorKeepsFinishes(run: Run)
    requires Finishes(run)
    ensures Finishes(OnError(run).run)
  {
  }

  lemma {:induction false} KillGraceKeepsFinishes(run: Run)
    requires Finishes(run)
    ensures Finishes(OnKillGrace(run).run)
  {
  }

  lemma {:induction false} CloseKeepsFinishes(run: Run, alive: bool)
    requires Finishes(run)
    ensures Finishes(OnClose(run, alive).run)
  {
  }

  lemma {:induction false} SignalAndTimeoutKeepReports(run: Run, signal: Signal, alive: bool)
    requires RunOk(run) && Finishes(run) && Reports(run)
    ensures Reports(OnSignal(run, signal, alive).run) && Reports(OnTimeout(run).run)
  {
  }

  lemma {:induction false} CloseKeepsReports(run: Run, alive: bool)
    requires RunOk(run) && Finishes(run) && Reports(run)
    ensures Reports(OnClose(run, alive).run)
  {
  }

  lemma {:induction false} ErrorKeepsReports(run: Run)
    requires RunOk(run) && Finishes(run) && Reports(run)
    ensures Reports(OnError(run).run)
  {
  }

  lemma {:induction false} KillGraceKeepsReports(run: Run)
    requires RunOk(run) && Finishes(run) && Reports(run)
    ensures Reports(OnKillGrace(run).run)
  {
  }

  /** A run for which the re-raise is asked is registered, done, and recorded the signal. */
  ghost predicate AsksForOwn(effect: Effect) {
    effect.reraise.Some? ==> effect.run.registered && effect.run.done && effect.run.signal == effect.reraise
  }

  lemma {:induction false} EffectsAskForOwn(run: Run, signal: Signal, alive: bool)
    requires RunOk(run)
    ensures AsksForOwn(OnSignal(run, signal, alive)) && AsksForOwn(OnClose(run, alive)) && AsksForOwn(OnKillGrace(run))
  {
  }

  /** Once all runs are done, none listens. */
  lemma {:induction false} DoneMeansDeaf(runs: seq<Run>)
    requires AllOk(runs) && AllDone(runs)
    ensures NobodyListens(runs)
  {
    forall i | 0 <= i < |runs| ensures !runs[i].listening {
      assert RunOk(runs[i]);
    }
  }

  lemma {:induction false} ApplyKeepsSafe(state: State, id: nat, effect: Effect)
    requires Safe(state) && id < |state.runs| && AsksForOwn(effect)
    requires RunOk(effect.run) && Finishes(effect.run) && Reports(effect.run)
    ensures Safe(Apply(state, id, effect))
  {
    if state.ended.None? {
      hide Finishes, Reports;
      var next := Apply(state, id, effect);
      assert AllOk(next.runs);
      if next.ended.Some? {
        DoneMeansDeaf(next.runs);
        assert next.runs[id] == effect.run;
        forall i | 0 <= i < |next.runs| && !next.runs[i].registered
          ensures next.runs[i].settled && next.runs[i].signal.None?
        {
          assert RunOk(next.runs[i]);
        }
        forall i | 0 <= i < |next.runs| && next.runs[i].registered
          ensures next.runs[i].history.groupDead || next.runs[i].history.killSent
        {
          assert RunOk(next.runs[i]);
        }
      }
    }
  }

  lemma {:induction false} DeliverKeepsSafe(state: State, signal: Signal, groups: seq<bool>, count: nat)
    requires Safe(state) && count <= |state.runs|
    ensures Safe(Deliver(state, signal, groups, count))
  {
    hide RunOk, Finishes, Reports, OnSignal, EndOk, AllDone, AsksForOwn;
    if count > 0 {
      DeliverKeepsSafe(state, signal, groups, count - 1);
      var before := Deliver(state, signal, groups, count - 1);
      var run, alive := before.runs[count - 1], IsAlive(groups, count - 1);
      SignalKeepsRunOk(run, signal, alive);
      SignalAndTimeoutKeepFinishes(run, signal, alive);
      SignalAndTimeoutKeepReports(run, signal, alive);
      EffectsAskForOwn(run, signal, alive);
      ApplyKeepsSafe(before, count - 1, OnSignal(run, signal, alive));
    }
  }

  lemma {:induction false} EffectKeepsOk(run: Run, event: Event)
    requires RunOk(run) && Finishes(run) && Reports(run) && !event.Start? && !event.ParentSignal?
    ensures var effect := EffectOf(run, event);
            RunOk(effect.run) && Finishes(effect.run) && Reports(effect.run) && AsksForOwn(effect)
  {
    hide RunOk, Finishes, Reports, OnClose, OnKillGrace;
    match event
    case Close(_, alive) =>
      CloseKeepsRunOk(run, alive);
      CloseKeepsFinishes(run, alive);
      CloseKeepsReports(run, alive);
      EffectsAskForOwn(run, SIGINT, alive);
    case Error(_) =>
      ErrorAndTimeoutKeepRunOk(run);
      ErrorKeepsFinishes(run);
      ErrorKeepsReports(run);
    case Timeout(_) =>
      ErrorAndTimeoutKeepRunOk(run);
      SignalAndTimeoutKeepFinishes(run, SIGINT, false);
      SignalAndTimeoutKeepReports(run, SIGINT, false);
    case KillGrace(_) =>
      KillGraceKeepsRunOk(run);
      KillGraceKeepsFinishes(run);
      KillGraceKeepsReports(run);
      EffectsAskForOwn(run, SIGINT, false);
  }

  lemma {:induction false} StepKeepsSafe(state: State, event: Event)
    requires Safe(state)
    ensures Safe(Step(state, event))
  {
    assert RunOk(STARTED) && Finishes(STARTED) && Reports(STARTED);
    hide EffectOf, RunOk, Finishes, Reports, AsksForOwn, Apply, Deliver;
    if state.ended.None? {
      if event.ParentSignal? {
        DeliverKeepsSafe(state, event.signal, event.groups, |state.runs|);
      } else if !event.Start? && event.id < |state.runs| {
        EffectKeepsOk(state.runs[event.id], event);
        ApplyKeepsSafe(state, event.id, EffectOf(state.runs[event.id], event));
      }
    }
  }

  // ------------------------------------------------------- relaying the signal

  /** An event other than a signal leaves the run's signal alone, keeps a run with a
      signal registered, and asks for the re-raise if it makes the run done. */
  ghost predicate Quiet(run: Run, effect: Effect) {
    && effect.run.signal == run.signal
    && (effect.run.registered ==> run.registered)
    && (run.signal.Some? ==> effect.run.registered == run.registered)
    && (run.done ==> effect.run.done)
    && (effect.run.done && !run.done ==> effect.reraise.Some?)
    && (effect.reraise.Some? ==> run.signal.Some?)
  }

  lemma {:induction false} OtherEventsAreQuiet(run: Run, event: Event)
    requires RunOk(run) && !event.Start? && !event.ParentSignal?
    ensures Quiet(run, EffectOf(run, event))
  {
    hide Quiet, OnClose, OnKillGrace, OnError, OnTimeout;
    match event
    case Close(_, alive) => CloseIsQuiet(run, alive);
    case Error(_) => ErrorAndTimeoutAreQuiet(run);
    case Timeout(_) => ErrorAndTimeoutAreQuiet(run);
    case KillGrace(_) => KillGraceIsQuiet(run);
  }

  lemma {:induction false} CloseIsQuiet(run: Run, alive: bool)
    requires RunOk(run)
    ensures Quiet(run, OnClose(run, alive))
  {
  }

  lemma {:induction false} KillGraceIsQuiet(run: Run)
    requires RunOk(run)
    ensures Quiet(run, OnKillGrace(run))
  {
  }

  lemma {:induction false} ErrorAndTimeoutAreQuiet(run: Run)
    requires RunOk(run)
    ensures Quiet(run, OnError(run)) && Quiet(run, OnTimeout(run))
  {
  }

  /** The last run that was not done is the one that has just become so. */
  lemma {:induction false} LastOneDone(runs: seq<Run>, id: nat, effect: Effect)
    requires id < |runs| && Quiet(runs[id], effect) && !AllDone(runs) && AllDone(runs[id := effect.run])
    ensures runs[id].registered && !(runs[id].signal.Some? && runs[id].done)
    ensures runs[id].signal.Some? ==> effect.reraise.Some?
  {
    var next := runs[id := effect.run];
    assert forall k | 0 <= k < |runs| && k != id :: next[k] == runs[k];
    var j :| 0 <= j < |runs| && runs[j].registered && !(runs[j].signal.Some? && runs[j].done);
    assert next[id] == effect.run;
  }

  lemma {:induction false} QuietKeepsPending(runs: seq<Run>, id: nat, effect: Effect)
    requires id < |runs| && Quiet(runs[id], effect)
    ensures SomePending(runs[id := effect.run]) <==> SomePending(runs)
    ensures AllDone(runs) ==> AllDone(runs[id := effect.run])
  {
    var next := runs[id := effect.run];
    if SomePending(runs) {
      var i :| 0 <= i < |runs| && runs[i].registered && runs[i].signal.Some?;
      assert next[i].registered && next[i].signal.Some?;
    }
    if SomePending(next) {
      var i :| 0 <= i < |runs| && next[i].registered && next[i].signal.Some?;
      assert runs[i].registered && runs[i].signal.Some?;
    }
  }

  lemma {:induction false} QuietKeepsAgreement(runs: seq<Run>, id: nat, effect: Effect)
    requires id < |runs| && Quiet(runs[id], effect)
    ensures Agree(runs) ==> Agree(runs[id := effect.run])
    ensures var next := runs[id := effect.run];
            (forall i | 0 <= i < |runs| :: runs[i].registered ==> runs[i].signal.Some?) ==>
              forall i | 0 <= i < |next| :: next[i].registered ==> next[i].signal.Some?
  {
  }

  lemma {:induction false} QuietKeepsRelayed(state: State, id: nat, effect: Effect)
    requires Relayed(state) && id < |state.runs| && Quiet(state.runs[id], effect)
    ensures Relayed(Apply(state, id, effect))
  {
    if state.ended.None? && !state.startedLate {
      QuietKeepsPending(state.runs, id, effect);
      QuietKeepsAgreement(state.runs, id, effect);
      if SomePending(state.runs) && AllDone(state.runs[id := effect.run]) {
        LastOneDone(state.runs, id, effect);
      }
    }
  }

  /** Delivering a signal touches each listening run once and no other. */
  lemma {:induction false} DeliverTouches(state: State, signal: Signal, groups: seq<bool>, count: nat, i: nat)
    requires Safe(state) && count <= |state.runs| && i < |state.runs|
    ensures Deliver(state, signal, groups, count).runs[i]
         == if i < count then OnSignal(state.runs[i], signal, IsAlive(groups, i)).run else state.runs[i]
    ensures Deliver(state, signal, groups, count).startedLate == state.startedLate
  {
    hide Safe, AllDone, OnSignal, IsAlive;
    if count > 0 {
      DeliverTouches(state, signal, groups, count - 1, i);
      DeliverTouches(state, signal, groups, count - 1, count - 1);
      DeliverKeepsSafe(state, signal, groups, count - 1);
      hide Deliver;
      var before := Deliver(state, signal, groups, count - 1);
      DeafToSignal(before, count - 1, signal, IsAlive(groups, count - 1));
      DeliverOneMore(state, signal, groups, count);
    }
  }

  lemma {:induction false} DeliverOneMore(state: State, signal: Signal, groups: seq<bool>, count: nat)
    requires 0 < count <= |state.runs|
    ensures var before := Deliver(state, signal, groups, count - 1);
            Deliver(state, signal, groups, count)
            == Apply(before, count - 1, OnSignal(before.runs[count - 1], signal, IsAlive(groups, count - 1)))
  {
  }

  /** Where the parent has ended, a handler would find its run deaf. */
  lemma {:induction false} DeafToSignal(state: State, id: nat, signal: Signal, alive: bool)
    requires Safe(state) && id < |state.runs|
    ensures state.ended.Some? ==> OnSignal(state.runs[id], signal, alive) == Effect(state.runs[id], None)
  {
  }

  /** The last listening run to be reached re-raises if that leaves all runs done. */
  lemma {:induction false} LastHandlerReraises(state: State, signal: Signal, groups: seq<bool>, count: nat)
    requires Safe(state) && count <= |state.runs|
    requires forall i | 0 <= i < |state.runs| && state.runs[i].listening :: i < count
    requires exists i | 0 <= i < count :: state.runs[i].listening
    requires AllDone(Deliver(state, signal, groups, count).runs)
    ensures Deliver(state, signal, groups, count).ended.Some?
  {
    var last := count - 1;
    var before := Deliver(state, signal, groups, last);
    DeliverTouches(state, signal, groups, last, last);
    DeliverOneMore(state, signal, groups, count);
    hide Safe, AllOk, EndOk, Deliver;
    if state.runs[last].listening {
      assert state.runs[last].listening ==> before.runs[last] == state.runs[last];
      assert before.ended.None? ==>
          Deliver(state, signal, groups, count).runs[last]
          == OnSignal(state.runs[last], signal, IsAlive(groups, last)).run;
      ListeningIsRegistered(state, last);
    } else {
      assert OnSignal(before.runs[last], signal, IsAlive(groups, last)) == Effect(before.runs[last], None);
      assert before.runs[last := before.runs[last]] == before.runs;
      LastHandlerReraises(state, signal, groups, last);
    }
  }

  lemma {:induction false} ListeningIsRegistered(state: State, i: nat)
    requires Safe(state) && i < |state.runs|
    ensures state.runs[i].listening ==> state.runs[i].registered && state.runs[i].signal.None?
    ensures state.runs[i].registered && state.runs[i].signal.None? ==> state.runs[i].listening
    ensures state.runs[i].signal.Some? ==> state.runs[i].registered
  {
    assert RunOk(state.runs[i]);
  }

  /** Without late runs, a second signal finds nobody listening. */
  lemma {:induction false} SecondSignalIsUnheard(state: State)
    requires Safe(state) && Relayed(state) && !state.startedLate && SomePending(state.runs)
    ensures NobodyListens(state.runs)
  {
    forall i | 0 <= i < |state.runs| ensures !state.runs[i].listening {
      ListeningIsRegistered(state, i);
    }
  }

  /** A heard signal is recorded by every listening run; if that leaves all runs done,
      it is re-raised at once. */
  lemma {:induction false} SignalIsRecorded(state: State, signal: Signal, groups: seq<bool>)
    requires Safe(state) && state.ended.None? && !NobodyListens(state.runs)
    ensures var next := Deliver(state, signal, groups, |state.runs|);
            && next.startedLate == state.startedLate
            && (forall i | 0 <= i < |state.runs| ::
                  if state.runs[i].listening then next.runs[i].registered && next.runs[i].signal == Some(signal)
                  else next.runs[i] == state.runs[i])
            && (AllDone(next.runs) ==> next.ended.Some?)
  {
    var count := |state.runs|;
    var next := Deliver(state, signal, groups, count);
    var k :| 0 <= k < count && state.runs[k].listening;
    DeliverTouches(state, signal, groups, count, k);
    forall i | 0 <= i < count
      ensures if state.runs[i].listening then next.runs[i].registered && next.runs[i].signal == Some(signal)
              else next.runs[i] == state.runs[i]
    {
      DeliverTouches(state, signal, groups, count, i);
      ListeningIsRegistered(state, i);
    }
    if AllDone(next.runs) {
      LastHandlerReraises(state, signal, groups, count);
    }
  }

  lemma {:induction false} SignalKeepsRelayed(state: State, signal: Signal, groups: seq<bool>)
    requires Safe(state) && Relayed(state) && state.ended.None? && !NobodyListens(state.runs)
    ensures Relayed(Deliver(state, signal, groups, |state.runs|))
  {
    SignalIsRecorded(state, signal, groups);
    var next := Deliver(state, signal, groups, |state.runs|);
    hide Deliver, AllDone;
    if !state.startedLate {
      if SomePending(state.runs) {
        SecondSignalIsUnheard(state);
        assert false;
      }
      hide Safe, Relayed;
      forall i | 0 <= i < |state.runs| && next.runs[i].registered ensures next.runs[i].signal == Some(signal) {
        ListeningIsRegistered(state, i);
        assert !(state.runs[i].registered && state.runs[i].signal.Some?);
      }
      AgreeOn(next, signal);
    }
  }

  lemma {:induction false} AgreeOn(state: State, signal: Signal)
    requires forall i | 0 <= i < |state.runs| && state.runs[i].registered :: state.runs[i].signal == Some(signal)
    requires AllDone(state.runs) ==> state.ended.Some?
    ensures Relayed(state)
  {
  }

  lemma {:induction false} StepKeepsRelayed(state: State, event: Event)
    requires Safe(state) && Relayed(state)
    ensures Relayed(Step(state, event))
  {
    if state.ended.None? {
      if event.Start? {
        StartKeepsRelayed(state);
      } else if event.ParentSignal? {
        if !NobodyListens(state.runs) {
          SignalKeepsRelayed(state, event.signal, event.groups);
        }
      } else if event.id < |state.runs| {
        assert RunOk(state.runs[event.id]);
        hide Safe, Relayed, EffectOf, Apply, Quiet;
        OtherEventsAreQuiet(state.runs[event.id], event);
        QuietKeepsRelayed(state, event.id, EffectOf(state.runs[event.id], event));
      }
    }
  }

  lemma {:induction false} StartKeepsRelayed(state: State)
    requires Relayed(state) && state.ended.None?
    ensures Relayed(Step(state, Start))
  {
    var runs := state.runs + [STARTED];
    if SomePending(runs) {
      var i :| 0 <= i < |runs| && runs[i].registered && runs[i].signal.Some?;
      assert state.runs[i].registered && state.runs[i].signal.Some?;
    }
  }

  /** Over every run of the program: promises settle at most once and tell what
      happened, the registry and the timers agree with each run's state, the parent ends
      only where nobody listens, every re-raise was justified when it was made, and none
      is forgotten unless a run started late. */
  lemma {:induction false} EveryExecutionIsSafe(events: seq<Event>)
    ensures Safe(Execute(INITIAL, events)) && Relayed(Execute(INITIAL, events))
  {
    hide Step;
    if events != [] {
      EveryExecutionIsSafe(events[..|events| - 1]);
      hide Safe, Relayed;
      StepKeepsSafe(Execute(INITIAL, events[..|events| - 1]), events[|events| - 1]);
      StepKeepsRelayed(Execute(INITIAL, events[..|events| - 1]), events[|events| - 1]);
    }
  }

  // --------------------------------------------------- which signal is re-raised

  /** A signal is heard while some run has recorded another one. */
  ghost predicate Mixes(state: State, event: Event) {
    && state.ended.None? && event.ParentSignal? && !NobodyListens(state.runs)
    && exists i | 0 <= i < |state.runs| :: state.runs[i].signal.Some? && state.runs[i].signal != Some(event.signal)
  }

  lemma {:induction false} StepAgreesIff(state: State, event: Event)
    requires Safe(state)
    ensures Agree(Step(state, event).runs) <==> Agree(state.runs) && !Mixes(state, event)
  {
    if state.ended.None? {
      if event.Start? {
        StartAgrees(state.runs);
      } else if event.ParentSignal? {
        if !NobodyListens(state.runs) {
          SignalAgreesIff(state, event.signal, event.groups);
        }
      } else if event.id < |state.runs| {
        assert RunOk(state.runs[event.id]);
        hide Safe, EffectOf, Quiet, Agree, AllDone;
        OtherEventsAreQuiet(state.runs[event.id], event);
        QuietAgreesIff(state.runs, event.id, EffectOf(state.runs[event.id], event));
      }
    }
  }

  lemma {:induction false} StartAgrees(runs: seq<Run>)
    ensures Agree(runs + [STARTED]) <==> Agree(runs)
  {
    var more := runs + [STARTED];
    assert forall i | 0 <= i < |runs| :: more[i] == runs[i];
  }

  lemma {:induction false} QuietAgreesIff(runs: seq<Run>, id: nat, effect: Effect)
    requires id < |runs| && Quiet(runs[id], effect)
    ensures Agree(runs[id := effect.run]) <==> Agree(runs)
  {
    var next := runs[id := effect.run];
    forall i | 0 <= i < |runs|
      ensures next[i].signal == runs[i].signal && (runs[i].signal.Some? ==> next[i].registered == runs[i].registered)
    {
    }
  }

  lemma {:induction false} SignalAgreesIff(state: State, signal: Signal, groups: seq<bool>)
    requires Safe(state) && state.ended.None? && !NobodyListens(state.runs)
    ensures Agree(Deliver(state, signal, groups, |state.runs|).runs) <==>
              Agree(state.runs) && !Mixes(state, ParentSignal(signal, groups))
  {
    SignalIsRecorded(state, signal, groups);
    var next := Deliver(state, signal, groups, |state.runs|);
    var k :| 0 <= k < |state.runs| && state.runs[k].listening;
    hide Deliver, Safe, AllDone;
    forall i | 0 <= i < |state.runs|
      ensures if state.runs[i].listening then state.runs[i].signal.None? && next.runs[i].signal == Some(signal)
              else next.runs[i] == state.runs[i]
      ensures next.runs[i].signal.Some? ==> next.runs[i].registered
    {
      ListeningIsRegistered(state, i);
    }
    assert next.runs[k].registered && next.runs[k].signal == Some(signal);
  }

  ghost predicate MixesAt(events: seq<Event>, k: nat)
    requires k < |events|
  {
    Mixes(Execute(INITIAL, events[..k]), events[k])
  }

  /** Over whole executions: the recorded signals agree exactly if no signal was ever
      heard while another one was recorded. */
  lemma {:induction false} AgreeIff(events: seq<Event>)
    ensures Agree(Execute(INITIAL, events).runs) <==> forall k: nat | k < |events| :: !MixesAt(events, k)
  {
    hide Safe, Relayed, Agree, Mixes, Step;
    if events != [] {
      var n := |events| - 1;
      var before := events[..n];
      AgreeIff(before);
      EveryExecutionIsSafe(before);
      StepAgreesIff(Execute(INITIAL, before), events[n]);
      forall k: nat | k < n ensures MixesAt(events, k) <==> MixesAt(before, k) {
        assert before[..k] == events[..k];
      }
      assert MixesAt(events, n) <==> Mixes(Execute(INITIAL, before), events[n]);
      hide MixesAt;
    } else {
      NothingAgrees();
    }
  }

  lemma {:induction false} NothingAgrees()
    ensures Agree(Execute(INITIAL, []).runs)
  {
  }

  /** The signal the parent sends itself is the one that every run registered then has
      recorded exactly if no signal was heard while another one was recorded; so it is
      unless a run started late. */
  lemma {:induction false} ReraisesWhatWasRecorded(events: seq<Event>)
    ensures var last := Execute(INITIAL, events);
            last.ended.Some? && last.ended.value.Reraised? ==>
              && (!last.startedLate ==> Agree(last.runs))
              && ((forall i | 0 <= i < |last.runs| && last.runs[i].registered ::
                     last.runs[i].signal == Some(last.ended.value.signal)) <==>
                  forall k: nat | k < |events| :: !MixesAt(events, k))
  {
    EveryExecutionIsSafe(events);
    AgreeIff(events);
    var last := Execute(INITIAL, events);
    hide MixesAt;
    if last.ended.Some? && last.ended.value.Reraised? {
      ReraisedAgreesIff(last);
    }
  }

  lemma {:induction false} ReraisedAgreesIff(state: State)
    requires EndOk(state) && state.ended.Some? && state.ended.value.Reraised?
    ensures (forall i | 0 <= i < |state.runs| && state.runs[i].registered ::
               state.runs[i].signal == Some(state.ended.value.signal)) <==> Agree(state.runs)
  {
  }

  // ------------------------------------------------------------------ progress

  /** The registered runs whose signal is pending and whose group is not dealt with. */
  function NotDone(runs: seq<Run>): set<nat> {
    set i: nat | i < |runs| && runs[i].registered && runs[i].signal.Some? && !runs[i].done
  }

  /** Once a signal is pending, no event brings back a run that was done, and firing a
      run's armed kill timer makes it done: the number of runs not done decreases. */
  lemma {:induction false} NotDoneShrinks(state: State, event: Event)
    requires Safe(state) && SomePending(state.runs) && state.ended.None? && !event.Start? && !event.ParentSignal?
    ensures var next := Step(state, event);
            && next.startedLate == state.startedLate && SomePending(next.runs)
            && NotDone(next.runs) <= NotDone(state.runs)
            && (event.KillGrace? ==> event.id !in NotDone(next.runs))
            && (event.KillGrace? && event.id in NotDone(state.runs) ==> |NotDone(next.runs)| < |NotDone(state.runs)|)
  {
    if event.id < |state.runs| {
      var run := state.runs[event.id];
      assert RunOk(run);
      hide Safe, RunOk, Quiet, AllDone;
      OtherEventsAreQuiet(run, event);
      KillGraceFinishes(run);
      hide OnKillGrace, OnClose, OnError, OnTimeout;
      QuietEffectShrinks(state, event.id, EffectOf(run, event));
    }
  }

  lemma {:induction false} QuietEffectShrinks(state: State, id: nat, effect: Effect)
    requires SomePending(state.runs) && state.ended.None? && id < |state.runs| && Quiet(state.runs[id], effect)
    ensures var next := Apply(state, id, effect);
            && next.startedLate == state.startedLate && SomePending(next.runs)
            && NotDone(next.runs) <= NotDone(state.runs)
            && ((state.runs[id].signal.Some? ==> effect.run.done) ==>
                  && id !in NotDone(next.runs)
                  && (id in NotDone(state.runs) ==> |NotDone(next.runs)| < |NotDone(state.runs)|))
  {
    hide AllDone;
    var next := Apply(state, id, effect);
    var i :| 0 <= i < |state.runs| && state.runs[i].registered && state.runs[i].signal.Some?;
    assert next.runs[i].registered && next.runs[i].signal.Some?;
    if id in NotDone(state.runs) && effect.run.done {
      assert NotDone(next.runs) <= NotDone(state.runs) - {id};
      SubsetIsNoLarger(NotDone(next.runs), NotDone(state.runs) - {id});
    }
  }

  lemma {:induction false} KillGraceFinishes(run: Run)
    requires RunOk(run)
    ensures run.signal.Some? ==> OnKillGrace(run).run.done
  {
  }

  /** A relay in progress: a signal is pending and no run started late. */
  ghost predicate Relaying(state: State) {
    Safe(state) && Relayed(state) && !state.startedLate && SomePending(state.runs)
  }

  /** If neither a run starts nor another signal comes, then whatever else happens, and
      in whatever order, the parent has re-raised the signal by the time the kill timer
      of every run that was not done has fired. */
  lemma {:induction false} KillTimersReachReraise(state: State, events: seq<Event>)
    requires Relaying(state) && (state.ended.Some? ==> state.ended.value.Reraised?)
    requires forall i | 0 <= i < |events| :: !events[i].Start? && !events[i].ParentSignal?
    requires forall id | id in NotDone(state.runs) :: KillGrace(id) in events
    ensures var last := Execute(state, events);
            && Relaying(last) && last.ended.Some? && last.ended.value.Reraised?
            && forall i | 0 <= i < |last.runs| && last.runs[i].registered ::
                 last.runs[i].signal == Some(last.ended.value.signal)
  {
    NotDoneAfter(state, events);
    var last := Execute(state, events);
    if last.ended.None? {
      assert NotDone(last.runs) == {};
      forall i: nat | i < |last.runs| && last.runs[i].registered ensures last.runs[i].done {
        assert i !in NotDone(last.runs);
      }
      assert AllDone(last.runs);
    }
  }

  lemma {:induction false} NotDoneAfter(state: State, events: seq<Event>)
    requires Relaying(state) && (state.ended.Some? ==> state.ended.value.Reraised?)
    requires forall i | 0 <= i < |events| :: !events[i].Start? && !events[i].ParentSignal?
    ensures var last := Execute(state, events);
            && Relaying(last) && (last.ended.Some? ==> last.ended.value.Reraised?)
            && (last.ended.None? ==>
                  NotDone(last.runs) <= set id | id in NotDone(state.runs) && KillGrace(id) !in events)
  {
    if events != [] {
      var before, event := events[..|events| - 1], events[|events| - 1];
      assert events == before + [event];
      NotDoneAfter(state, before);
      var middle := Execute(state, before);
      StepKeepsSafe(middle, event);
      StepKeepsRelayed(middle, event);
      if middle.ended.None? {
        NotDoneShrinks(middle, event);
        hide Safe, Relayed, SomePending, AllDone, EffectOf;
        if Step(middle, event).ended.None? {
          forall id | id in NotDone(Step(middle, event).runs) ensures KillGrace(id) !in events {
            assert id in NotDone(middle.runs);
          }
        }
      }
    }
  }

  // -------------------------------------------- what the flags of a run stand for

  /** Something that may have happened to a run. */
  datatype Happening = Closed | Failed | TimedOut | Told | GroupSeenDead | KillSent | DealtWith

  /** The flag of a run that stands for it. */
  predicate Flag(run: Run, what: Happening) {
    match what
    case Closed => run.history.closeSeen
    case Failed => run.history.errorSeen
    case TimedOut => run.timedOut
    case Told => run.signal.Some?
    case GroupSeenDead => run.history.groupDead
    case KillSent => run.history.killSent
    case DealtWith => run.done
  }

  /** An event that makes it happen to run `id`: what the group check answered counts when
      the run is told to stop, and at the first close of a run that was; timers count
      while they are armed. */
  predicate Happens(state: State, event: Event, id: nat, what: Happening) {
    && state.ended.None? && id < |state.runs|
    && var run := state.runs[id];
       match what
       case Closed => event.Close? && event.id == id
       case Failed => event == Error(id)
       case TimedOut => event == Timeout(id) && run.mainTimer
       case Told => event.ParentSignal? && run.listening
       case GroupSeenDead => FindsGroupDead(run, event, id)
       case KillSent => event == KillGrace(id) && run.killTimer != Unarmed
       case DealtWith => FindsGroupDead(run, event, id) || (event == KillGrace(id) && run.killTimer.AfterSignal?)
  }

  predicate FindsGroupDead(run: Run, event: Event, id: nat) {
    || (event.ParentSignal? && run.listening && !IsAlive(event.groups, id))
    || (event == Close(id, false) && run.signal.Some? && !run.history.closeSeen)
  }

  lemma {:induction false} SettleKeepsFlags(run: Run, outcome: Outcome, what: Happening)
    ensures Flag(Settle(run, outcome), what) <==> Flag(run, what)
  {
  }

  lemma {:induction false} EffectFlags(state: State, event: Event, id: nat, what: Happening)
    requires state.ended.None? && id < |state.runs| && !event.Start? && !event.ParentSignal? && event.id == id
    ensures Flag(EffectOf(state.runs[id], event).run, what) <==>
              Flag(state.runs[id], what) || Happens(state, event, id, what)
  {
    var run := state.runs[id];
    hide Flag, OnClose, OnError, OnTimeout, OnKillGrace;
    match event
    case Close(_, alive) => CloseFlags(run, alive, what);
    case Error(_) => ErrorFlags(run, what);
    case Timeout(_) => TimeoutFlags(run, what);
    case KillGrace(_) => KillGraceFlags(run, what);
  }

  lemma {:induction false} CloseFlags(run: Run, alive: bool, what: Happening)
    ensures Flag(OnClose(run, alive).run, what) <==>
              Flag(run, what) || what.Closed?
              || ((what.GroupSeenDead? || what.DealtWith?) && !alive && run.signal.Some? && !run.history.closeSeen)
  {
    var seen := run.(history := run.history.(closeSeen := true));
    CloseSeenFlags(run, what);
    CloseToldFlags(seen, alive, what);
    HistoryFlags(run);
    SettleKeepsFlags(seen, if run.timedOut then TimedOutError else Exited, what);
    ClosedAliveFlags(seen, what);
    hide Settle, Flag, CloseTold;
  }

  lemma {:induction false} CloseSeenFlags(run: Run, what: Happening)
    ensures Flag(run.(history := run.history.(closeSeen := true)), what) <==> Flag(run, what) || what.Closed?
  {
  }

  lemma {:induction false} ClosedAliveFlags(run: Run, what: Happening)
    ensures Flag(run.(closedWhileAlive := true), what) <==> Flag(run, what)
  {
  }

  lemma {:induction false} CloseToldFlags(run: Run, alive: bool, what: Happening)
    ensures Flag(CloseTold(run, alive).run, what) <==>
              Flag(run, what) || ((what.GroupSeenDead? || what.DealtWith?) && !alive)
  {
  }

  lemma {:induction false} FailedFlags(run: Run, what: Happening)
    ensures Flag(run.(history := run.history.(errorSeen := true)), what) <==> Flag(run, what) || what.Failed?
  {
  }

  lemma {:induction false} KilledFlags(run: Run, what: Happening)
    ensures var killed := run.history.(killSent := true);
            Flag(run.(waitingForKillGrace := false, killTimer := Unarmed, history := killed), what) <==>
              Flag(run, what) || what.KillSent?
  {
  }

  lemma {:induction false} DoneFlags(run: Run, what: Happening)
    ensures Flag(run.(done := true), what) <==> Flag(run, what) || what.DealtWith?
  {
  }

  lemma {:induction false} ErrorFlags(run: Run, what: Happening)
    ensures Flag(OnError(run).run, what) <==> Flag(run, what) || what.Failed?
  {
    FailedFlags(run, what);
    SettleKeepsFlags(run.(history := run.history.(errorSeen := true)), ChildError, what);
    hide Settle, Flag;
    HistoryFlags(run);
  }

  lemma {:induction false} HistoryFlags(run: Run)
    ensures Flag(run, Failed) <==> run.history.errorSeen
    ensures Flag(run, Closed) <==> run.history.closeSeen
  {
  }

  lemma {:induction false} TimeoutFlags(run: Run, what: Happening)
    ensures Flag(OnTimeout(run).run, what) <==> Flag(run, what) || (what.TimedOut? && run.mainTimer)
  {
  }

  lemma {:induction false} KillGraceFlags(run: Run, what: Happening)
    ensures Flag(OnKillGrace(run).run, what) <==>
              Flag(run, what) || (what.KillSent? && run.killTimer != Unarmed)
              || (what.DealtWith? && run.killTimer.AfterSignal?)
  {
    var killed := run.(waitingForKillGrace := false, killTimer := Unarmed,
                       history := run.history.(killSent := true));
    KilledFlags(run, what);
    DoneFlags(killed, what);
    SettleKeepsFlags(killed, if run.timedOut then TimedOutError else Exited, what);
    hide Settle, Flag;
  }

  lemma {:induction false} SignalFlags(run: Run, signal: Signal, groups: seq<bool>, id: nat, what: Happening)
    ensures Flag(OnSignal(run, signal, IsAlive(groups, id)).run, what) <==>
              Flag(run, what)
              || (run.listening && (what.Told? || ((what.GroupSeenDead? || what.DealtWith?) && !IsAlive(groups, id))))
  {
    hide IsAlive;
  }

  lemma {:induction false} StepFlags(state: State, event: Event, id: nat, what: Happening)
    requires Safe(state) && id < |state.runs|
    ensures id < |Step(state, event).runs|
    ensures Flag(Step(state, event).runs[id], what) <==>
              Flag(state.runs[id], what) || Happens(state, event, id, what)
  {
    hide Safe, EffectOf, AllDone, OnSignal, Flag;
    if state.ended.None? {
      if event.ParentSignal? {
        SignalFlags(state.runs[id], event.signal, event.groups, id, what);
        DeliverTouches(state, event.signal, event.groups, |state.runs|, id);
        hide Deliver;
      } else if !event.Start? && event.id == id {
        EffectFlags(state, event, id, what);
      }
    }
  }

  ghost predicate HappensAt(events: seq<Event>, k: nat, id: nat, what: Happening)
    requires k < |events|
  {
    Happens(Execute(INITIAL, events[..k]), events[k], id, what)
  }

  /** Over all executions: a flag of a run is set exactly if an event has brought about
      what it stands for. */
  lemma {:induction false} FlagsAreTrue(events: seq<Event>, id: nat, what: Happening)
    ensures var last := Execute(INITIAL, events);
            if id < |last.runs|
            then Flag(last.runs[id], what) <==> exists k: nat | k < |events| :: HappensAt(events, k, id, what)
            else forall k: nat | k < |events| :: !HappensAt(events, k, id, what)
  {
    hide Safe, Relayed, Step, Flag, Happens;
    if events != [] {
      var n := |events| - 1;
      var before, at := events[..n], Execute(INITIAL, events[..n]);
      FlagsAreTrue(before, id, what);
      EveryExecutionIsSafe(before);
      if id < |at.runs| {
        StepFlags(at, events[n], id, what);
      } else {
        NewRunHasNoFlag(at, events[n], id, what);
      }
      forall k: nat | k < n ensures HappensAt(events, k, id, what) <==> HappensAt(before, k, id, what) {
        assert before[..k] == events[..k];
      }
      assert HappensAt(events, n, id, what) <==> Happens(at, events[n], id, what);
      hide HappensAt;
    }
  }

  lemma {:induction false} NewRunHasNoFlag(state: State, event: Event, id: nat, what: Happening)
    requires |state.runs| <= id
    ensures !Happens(state, event, id, what)
    ensures id < |Step(state, event).runs| ==> !Flag(Step(state, event).runs[id], what)
  {
    hide Deliver, EffectOf, AllDone;
  }

  /** At a re-raise, every registered run has been told to stop, and some event has since
      found its group dead, or its kill timer, armed for the signal, has fired. */
  lemma {:induction false} ReraiseIsJustified(events: seq<Event>, id: nat)
    ensures var last := Execute(INITIAL, events);
            last.ended.Some? && last.ended.value.Reraised? && id < |last.runs| && last.runs[id].registered ==>
              && (exists k: nat | k < |events| :: HappensAt(events, k, id, Told))
              && (exists k: nat | k < |events| :: HappensAt(events, k, id, DealtWith))
  {
    EveryExecutionIsSafe(events);
    FlagsAreTrue(events, id, Told);
    FlagsAreTrue(events, id, DealtWith);
    hide HappensAt, Execute;
  }

  /** The first close of a run that was told to stop and is not dealt with: it is done at
      once exactly if its group is gone; otherwise its kill timer stays armed. */
  lemma {:induction false} FirstCloseOfToldRun(events: seq<Event>, id: nat, alive: bool)
    requires Execute(INITIAL, events).ended.None? && id < |Execute(INITIAL, events).runs|
    requires exists k: nat | k < |events| :: HappensAt(events, k, id, Told)
    requires forall k: nat | k < |events| :: !HappensAt(events, k, id, Closed) && !HappensAt(events, k, id, DealtWith)
    ensures var run := Step(Execute(INITIAL, events), Close(id, alive)).runs[id];
            && (run.done <==> !alive)
            && (alive ==> run.killTimer.AfterSignal? && run.signal == Some(run.killTimer.signal))
  {
    EveryExecutionIsSafe(events);
    FlagsAreTrue(events, id, Told);
    FlagsAreTrue(events, id, Closed);
    FlagsAreTrue(events, id, DealtWith);
    assert RunOk(Execute(INITIAL, events).runs[id]);
    hide Safe, Relayed, HappensAt, Execute, AllDone;
  }

  /** The first close of a run that was not told to stop and has not settled: it settles
      at once unless its kill grace is running and its group is alive; then the kill timer
      settles it, after SIGKILL. It settles as timed out exactly if its timeout has fired. */
  lemma {:induction false} FirstCloseOfFreeRun(events: seq<Event>, id: nat, alive: bool)
    requires var at := Execute(INITIAL, events);
             at.ended.None? && id < |at.runs| && !at.runs[id].settled
    requires forall k: nat | k < |events| :: !HappensAt(events, k, id, Told) && !HappensAt(events, k, id, Closed)
    ensures var at := Execute(INITIAL, events);
            var closed := Step(at, Close(id, alive));
            var run, later := closed.runs[id], Step(closed, KillGrace(id)).runs[id];
            var outcome := if exists k: nat | k < |events| :: HappensAt(events, k, id, TimedOut)
                           then TimedOutError else Exited;
            if at.runs[id].killTimer == Unarmed || !alive then run.outcomes == [outcome] && run.killTimer == Unarmed
            else !run.settled && run.killTimer == AfterTimeout
                 && later.outcomes == [outcome] && later.history.killSent
  {
    EveryExecutionIsSafe(events);
    FlagsAreTrue(events, id, Told);
    FlagsAreTrue(events, id, Closed);
    FlagsAreTrue(events, id, TimedOut);
    var run := Execute(INITIAL, events).runs[id];
    assert RunOk(run) && Finishes(run) && Reports(run);
    hide Safe, Relayed, HappensAt, Execute, AllDone;
    FreeRunCloses(run, alive);
    hide RunOk, Finishes, Reports, OnClose, OnKillGrace, Settle;
    assert EffectOf(run, Close(id, alive)) == OnClose(run, alive);
  }

  lemma {:induction false} FreeRunCloses(run: Run, alive: bool)
    requires RunOk(run) && Finishes(run) && run.signal.None? && !run.settled && !run.history.closeSeen
    ensures var closed := OnClose(run, alive);
            var outcome := if run.timedOut then TimedOutError else Exited;
            && closed.reraise.None?
            && if run.killTimer == Unarmed || !alive
               then closed.run.outcomes == [outcome] && closed.run.killTimer == Unarmed
               else && !closed.run.settled && closed.run.killTimer == AfterTimeout
                    && OnKillGrace(closed.run).run.outcomes == [outcome] && OnKillGrace(closed.run).run.history.killSent
  {
  }

  // ------------------------------------------- where the parent leaves runs undone

  /** The parent ends with a run undone exactly if a signal comes that no run hears
      while some run is not done; at a re-raise none is left. */
  lemma {:induction false} StepEndsUndoneIff(state: State, event: Event)
    requires Safe(state) && state.ended.None?
    ensures var next := Step(state, event);
            (next.ended.Some? && NotDone(next.runs) != {}) <==>
            (event.ParentSignal? && NobodyListens(state.runs) && NotDone(state.runs) != {})
  {
    StepKeepsSafe(state, event);
    var next := Step(state, event);
    if next.ended.Some? && next.ended.value.Reraised? {
      assert NotDone(next.runs) == {};
      assert !(event.ParentSignal? && NobodyListens(state.runs));
    }
  }

  /** At the k-th event a signal arrives that no run hears, before some run is done. */
  ghost predicate EndsUndoneAt(events: seq<Event>, k: nat)
    requires k < |events|
  {
    var at := Execute(INITIAL, events[..k]);
    at.ended.None? && events[k].ParentSignal? && NobodyListens(at.runs) && NotDone(at.runs) != {}
  }

  /** Over whole executions: the parent has ended with a run undone exactly if some
      signal arrived unheard before that run was done. */
  lemma {:induction false} EndsUndoneIff(events: seq<Event>)
    ensures var last := Execute(INITIAL, events);
            (last.ended.Some? && NotDone(last.runs) != {}) <==> exists k: nat | k < |events| :: EndsUndoneAt(events, k)
  {
    hide Safe, Relayed, NobodyListens, NotDone, AllDone;
    if events != [] {
      var n := |events| - 1;
      var before, at := events[..n], Execute(INITIAL, events[..n]);
      EndsUndoneIff(before);
      EveryExecutionIsSafe(before);
      forall k: nat | k < n ensures EndsUndoneAt(events, k) <==> EndsUndoneAt(before, k) {
        assert before[..k] == events[..k];
      }
      if at.ended.None? {
        StepEndsUndoneIff(at, events[n]);
      }
      hide Step;
      assert EndsUndoneAt(events, n) <==>
          at.ended.None? && events[n].ParentSignal? && NobodyListens(at.runs) && NotDone(at.runs) != {};
      if at.ended.Some? {
        assert Step(at, events[n]) == at;
      }
    }
  }

  // -------------------------------------------- where a signal is not passed on

  /** While a signal is pending, the event that leaves all runs done re-raises it exactly
      if its own run has recorded a signal. */
  lemma {:induction false} ReraisedIffRecorded(state: State, event: Event)
    requires Safe(state) && state.ended.None? && SomePending(state.runs) && !AllDone(state.runs)
    requires !event.Start? && !event.ParentSignal? && event.id < |state.runs| && AllDone(Step(state, event).runs)
    ensures Step(state, event).ended.Some? <==> state.runs[event.id].signal.Some?
  {
    var run := state.runs[event.id];
    assert RunOk(run);
    hide Safe, RunOk, EffectOf, Quiet;
    OtherEventsAreQuiet(run, event);
    LastOneDone(state.runs, event.id, EffectOf(run, event));
    AsksIfRecorded(run, EffectOf(run, event));
  }

  lemma {:induction false} AsksIfRecorded(run: Run, effect: Effect)
    requires Quiet(run, effect)
    ensures effect.reraise.Some? ==> run.signal.Some?
  {
  }

  /** All runs are done, the signal is pending, and the parent goes on. */
  ghost predicate Swallowed(state: State) {
    state.ended.None? && SomePending(state.runs) && AllDone(state.runs)
  }

  /** The last run that is not done ends without having recorded a signal. */
  ghost predicate Swallows(state: State, event: Event) {
    && state.ended.None? && SomePending(state.runs) && !AllDone(state.runs)
    && !event.Start? && !event.ParentSignal? && event.id < |state.runs|
    && state.runs[event.id].signal.None? && AllDone(Step(state, event).runs)
  }

  /** No run starts, no signal comes, and no handler asks for the re-raise. */
  ghost predicate AsksNothing(state: State, event: Event) {
    && !event.Start? && !event.ParentSignal?
    && (event.id < |state.runs| ==> EffectOf(state.runs[event.id], event).reraise.None?)
  }

  lemma {:induction false} StepSwallowsIff(state: State, event: Event)
    requires Safe(state)
    ensures Swallowed(Step(state, event)) <==> (Swallowed(state) && AsksNothing(state, event)) || Swallows(state, event)
  {
    if state.ended.None? {
      if event.Start? {
        StartIsNotDone(state);
      } else if event.ParentSignal? {
        if !NobodyListens(state.runs) {
          SignalIsRecorded(state, event.signal, event.groups);
        }
      } else if event.id < |state.runs| {
        var run := state.runs[event.id];
        assert RunOk(run);
        hide Safe, RunOk, EffectOf, Quiet;
        OtherEventsAreQuiet(run, event);
        QuietKeepsPending(state.runs, event.id, EffectOf(run, event));
        if SomePending(state.runs) && !AllDone(state.runs) && AllDone(Step(state, event).runs) {
          ReraisedIffRecorded(state, event);
        }
      }
    }
  }

  lemma {:induction false} StartIsNotDone(state: State)
    requires state.ended.None?
    ensures !AllDone(Step(state, Start).runs)
  {
    assert Step(state, Start).runs[|state.runs|] == STARTED;
  }

  ghost predicate SwallowedSince(events: seq<Event>, k: nat)
    requires k < |events|
  {
    && Swallows(Execute(INITIAL, events[..k]), events[k])
    && forall j | k < j < |events| :: AsksNothing(Execute(INITIAL, events[..j]), events[j])
  }

  /** Over whole executions: a signal is swallowed exactly if at some point the last run
      that was not done ended without having recorded one, and since then no run has
      started, no signal has come and no handler has asked for the re-raise. */
  lemma {:induction false} SwallowedIff(events: seq<Event>)
    ensures Swallowed(Execute(INITIAL, events)) <==> exists k: nat | k < |events| :: SwallowedSince(events, k)
  {
    hide Safe, Relayed, Swallowed, Swallows, AsksNothing, Step;
    if events == [] {
      NothingSwallowed();
    } else {
      var n := |events| - 1;
      var before, at := events[..n], Execute(INITIAL, events[..n]);
      SwallowedIff(before);
      EveryExecutionIsSafe(before);
      StepSwallowsIff(at, events[n]);
      forall k: nat | k < n
        ensures SwallowedSince(events, k) <==> SwallowedSince(before, k) && AsksNothing(at, events[n])
      {
        SwallowedLonger(events, k);
      }
      assert SwallowedSince(events, n) <==> Swallows(at, events[n]);
      hide SwallowedSince;
    }
  }

  lemma {:induction false} NothingSwallowed()
    ensures !Swallowed(Execute(INITIAL, []))
  {
  }

  lemma {:induction false} SwallowedLonger(events: seq<Event>, k: nat)
    requires k + 1 < |events|
    ensures var n := |events| - 1;
            SwallowedSince(events, k) <==>
              SwallowedSince(events[..n], k) && AsksNothing(Execute(INITIAL, events[..n]), events[n])
  {
    hide Swallows, AsksNothing, Execute;
    var n := |events| - 1;
    forall j | 0 <= j < n ensures events[..n][..j] == events[..j] {}
  }

  // -------------------------------------------------------------------- witnesses

  lemma {:induction false} ExecuteOneMore(state: State, events: seq<Event>, event: Event)
    ensures Execute(state, events + [event]) == Step(Execute(state, events), event)
  {
    assert (events + [event])[..|events|] == events;
  }

  /** One run, started and told to stop while its group is alive. */
  lemma {:induction false} OneRunTold(signal: Signal) returns (events: seq<Event>, run: Run)
    ensures run == OnSignal(STARTED, signal, true).run && run.registered && run.signal == Some(signal) && !run.done
    ensures Execute(INITIAL, events) == State([run], false, None)
  {
    run := OnSignal(STARTED, signal, true).run;
    events := [Start, ParentSignal(signal, [true])];
    var state := State([STARTED], false, None);
    assert Step(INITIAL, Start) == state;
    assert state.runs[0].listening;
    assert Deliver(state, signal, [true], 0) == state;
    assert Deliver(state, signal, [true], 1) == Apply(state, 0, OnSignal(STARTED, signal, true));
    assert Step(state, ParentSignal(signal, [true])) == State([run], false, None);
    hide Step, Execute;
    assert [] + [Start] == [Start] && [Start] + [ParentSignal(signal, [true])] == events;
    ExecuteStart();
    ExecuteOneMore(INITIAL, [], Start);
    ExecuteOneMore(INITIAL, [Start], ParentSignal(signal, [true]));
  }

  lemma {:induction false} ExecuteStart()
    ensures Execute(INITIAL, []) == INITIAL
  {
  }

  /** A second signal during the kill grace ends the parent at once: the run's group was
      alive, is not sent SIGKILL, and the signal is not re-raised. */
  lemma {:induction false} SecondSignalAbandonsRuns(signal: Signal, again: Signal)
    ensures exists events: seq<Event> ::
              var last := Execute(INITIAL, events);
              && last.ended == Some(Unheard(again)) && 0 in NotDone(last.runs)
              && last.runs[0].signal == Some(signal)
              && !last.runs[0].history.killSent && !last.runs[0].history.groupDead
  {
    var events, run := OneRunTold(signal);
    ExecuteOneMore(INITIAL, events, ParentSignal(again, []));
    assert Step(State([run], false, None), ParentSignal(again, [])) == State([run], false, Some(Unheard(again)));
  }

  /** The same run next to one that starts late. */
  lemma {:induction false} OneRunLate(signal: Signal) returns (events: seq<Event>, first: Run)
    ensures first == OnSignal(STARTED, signal, true).run
    ensures Execute(INITIAL, events) == State([first, STARTED], true, None)
  {
    var before;
    before, first := OneRunTold(signal);
    events := before + [Start];
    ExecuteOneMore(INITIAL, before, Start);
    assert [first][0].registered && [first][0].signal.Some?;
    assert [first] + [STARTED] == [first, STARTED];
  }

  lemma {:induction false} FirstRunKilled(first: Run, late: Run, signal: Signal)
    requires first == OnSignal(STARTED, signal, true).run && late.registered && !late.done
    ensures Step(State([first, late], true, None), KillGrace(0)) == State([OnKillGrace(first).run, late], true, None)
  {
    var runs := [first, late];
    assert runs[0 := OnKillGrace(first).run] == [OnKillGrace(first).run, late];
    assert !AllDone([OnKillGrace(first).run, late]) by { assert [OnKillGrace(first).run, late][1] == late; }
  }

  /** A run that starts while a signal is pending and then ends by itself lets every
      registered run be done without the signal being re-raised. */
  lemma {:induction false} LateRunSwallowsSignal()
    ensures exists events: seq<Event> :: Swallowed(Execute(INITIAL, events))
  {
    var events, first := OneRunLate(SIGTERM);
    var killed, closed := OnKillGrace(first).run, OnClose(STARTED, false).run;
    FirstRunKilled(first, STARTED, SIGTERM);
    assert [killed, STARTED][1 := closed] == [killed, closed];
    assert Step(State([killed, STARTED], true, None), Close(1, false)) == State([killed, closed], true, None);
    assert Swallowed(State([killed, closed], true, None)) by {
      assert [killed, closed][0].registered && [killed, closed][0].signal.Some?;
    }
    hide Step, Execute, Swallowed;
    ExecuteOneMore(INITIAL, events, KillGrace(0));
    ExecuteOneMore(INITIAL, events + [KillGrace(0)], Close(1, false));
  }

  /** A run that starts late may also record another signal than the first run, and the
      parent then re-raises that one. */
  lemma {:induction false} LateRunChangesSignal()
    ensures exists events: seq<Event> ::
              var last := Execute(INITIAL, events);
              && last.ended == Some(Reraised(SIGTERM)) && |last.runs| == 2
              && last.runs[0].registered && last.runs[0].signal == Some(SIGINT)
  {
    var events, first := OneRunLate(SIGINT);
    var late, killed := OnSignal(STARTED, SIGTERM, false).run, OnKillGrace(first).run;
    FirstRunKilled(first, STARTED, SIGINT);
    LateRunHears(killed);
    hide Step, Execute;
    ExecuteOneMore(INITIAL, events, KillGrace(0));
    ExecuteOneMore(INITIAL, events + [KillGrace(0)], ParentSignal(SIGTERM, []));
  }

  lemma {:induction false} LateRunHears(first: Run)
    requires !first.listening && first.registered && first.signal.Some? && first.done
    ensures Step(State([first, STARTED], true, None), ParentSignal(SIGTERM, []))
         == State([first, OnSignal(STARTED, SIGTERM, false).run], true, Some(Reraised(SIGTERM)))
  {
    var state := State([first, STARTED], true, None);
    var late := OnSignal(STARTED, SIGTERM, false).run;
    assert state.runs[1].listening;
    assert Deliver(state, SIGTERM, [], 0) == state;
    assert [first, STARTED][0 := first] == [first, STARTED] && [first, STARTED][1 := late] == [first, late];
    assert Deliver(state, SIGTERM, [], 1) == state;
    assert Deliver(state, SIGTERM, [], 2) == Apply(state, 1, OnSignal(STARTED, SIGTERM, false));
  }
}

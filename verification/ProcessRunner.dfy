/** `runProcess` as the event handlers it installs (scripts/control-ui-i18n.ts):
    each call keeps its own variables, and all calls share one registry that is
    searched before a parent signal is re-raised. Every handler is proved to take
    exactly the step of the state machine in `ProcessRelay`. */
module ProcessRunner {
  import opened Basics
  import opened P = ProcessRelay

  /** The variables one call of `runProcess` closes over. */
  class ChildRun {
    var mainTimer: bool
    var killTimer: KillTimer
    var waitingForKillGrace: bool
    var timedOut: bool
    var settled: bool
    var closedWhileAlive: bool
    var closeSeen: bool
    var errorSeen: bool
    var listening: bool
    var registered: bool
    var signal: Option<Signal>
    var done: bool
    var outcomes: seq<Outcome>
    ghost var groupDead: bool
    ghost var killSent: bool

    ghost function View(): Run
      reads this
    {
      Run(mainTimer, killTimer, waitingForKillGrace, timedOut, settled, closedWhileAlive,
          listening, registered, signal, done, outcomes, History(closeSeen, errorSeen, groupDead, killSent))
    }

    constructor ()
      ensures View() == STARTED
    {
      mainTimer, killTimer, waitingForKillGrace, timedOut, settled := true, Unarmed, false, false, false;
      closedWhileAlive, closeSeen, errorSeen := false, false, false;
      listening, registered, signal, done, outcomes := true, true, None, false, [];
      groupDead, killSent := false, false;
    }

    method StopTimers()
      modifies this`mainTimer, this`killTimer
      ensures !mainTimer && killTimer == if signal.None? then Unarmed else old(killTimer)
    {
      mainTimer := false;
      if signal.None? && killTimer != Unarmed {
        killTimer := Unarmed;
      }
    }

    method Unregister()
      modifies this`registered, this`listening
      ensures !listening && registered == (old(registered) && signal.Some?)
    {
      if signal.None? {
        registered := false;
      }
      listening := false;
    }

    /** The child's promise is settled by the first caller; later ones do nothing. */
    method Settle(outcome: Outcome)
      modifies this
      ensures View() == P.Settle(old(View()), outcome)
    {
      if settled {
        return;
      }
      settled := true;
      StopTimers();
      Unregister();
      outcomes := outcomes + [outcome];
    }

    method FinishClose()
      modifies this
      ensures View() == P.FinishClose(old(View()))
    {
      if timedOut {
        Settle(TimedOutError);
      } else {
        Settle(Exited);
      }
    }

    /** Each handler below also returns the signal, if any, for which it calls
        `maybeReraiseRunProcessParentSignal`. */
    method AwaitGroup(parentSignal: Signal, alive: bool) returns (reraise: Option<Signal>)
      modifies this
      ensures Effect(View(), reraise) == P.AwaitGroup(old(View()), parentSignal, alive)
    {
      if !alive {
        groupDead := true;
        done := true;
        return Some(parentSignal);
      }
      waitingForKillGrace := true;
      killTimer := AfterSignal(parentSignal);
      return None;
    }

    method CloseTold(alive: bool) returns (reraise: Option<Signal>)
      requires signal.Some?
      modifies this
      ensures Effect(View(), reraise) == P.CloseTold(old(View()), alive)
    {
      if alive {
        closedWhileAlive := true;
        return None;
      }
      killTimer := Unarmed;
      groupDead := true;
      done := true;
      return signal;
    }

    method OnSignal(parentSignal: Signal, alive: bool) returns (reraise: Option<Signal>)
      modifies this
      ensures Effect(View(), reraise) == P.OnSignal(old(View()), parentSignal, alive)
    {
      if !listening {
        return None;
      }
      signal := Some(parentSignal);
      listening := false;
      reraise := AwaitGroup(parentSignal, alive);
    }

    method OnClose(alive: bool) returns (reraise: Option<Signal>)
      modifies this
      ensures Effect(View(), reraise) == P.OnClose(old(View()), alive)
    {
      if closeSeen {
        return None;
      }
      closeSeen := true;
      if signal.Some? {
        reraise := CloseTold(alive);
        return;
      }
      if waitingForKillGrace && alive {
        closedWhileAlive := true;
        return None;
      }
      FinishClose();
      return None;
    }

    method OnError()
      modifies this
      ensures Effect(View(), None) == P.OnError(old(View()))
    {
      if !errorSeen {
        errorSeen := true;
        Settle(ChildError);
      }
    }

    method ScheduleKill()
      modifies this`waitingForKillGrace, this`killTimer
      ensures waitingForKillGrace && killTimer == if old(waitingForKillGrace) then old(killTimer) else AfterTimeout
    {
      if waitingForKillGrace {
        return;
      }
      waitingForKillGrace := true;
      killTimer := AfterTimeout;
    }

    method OnTimeout()
      modifies this
      ensures Effect(View(), None) == P.OnTimeout(old(View()))
    {
      if mainTimer {
        mainTimer := false;
        timedOut := true;
        ScheduleKill();
      }
    }

    method OnKillGrace() returns (reraise: Option<Signal>)
      modifies this
      ensures Effect(View(), reraise) == P.OnKillGrace(old(View()))
    {
      var armed := killTimer;
      if armed == Unarmed {
        return None;
      }
      waitingForKillGrace := false;
      killTimer := Unarmed;
      killSent := true;
      if armed.AfterSignal? {
        done := true;
        return Some(armed.signal);
      }
      if closedWhileAlive {
        FinishClose();
      }
      return None;
    }
  }

  ghost function ViewsOf(runs: seq<ChildRun>): (views: seq<Run>)
    reads runs
    ensures |views| == |runs|
    ensures forall i | 0 <= i < |runs| :: views[i] == runs[i].View()
  {
    seq(|runs|, i requires 0 <= i < |runs| reads runs => runs[i].View())
  }

  /** The parent process: all calls of `runProcess` so far, those still registered
      being the ones with `registered` set. `ended` says how the process ended, and no
      handler is called any more once it has. */
  class ParentProcess {
    var runs: seq<ChildRun>
    ghost var startedLate: bool
    var ended: Option<Ending>

    ghost predicate Valid()
      reads this
    {
      forall i, j | 0 <= i < j < |runs| :: runs[i] != runs[j]
    }

    ghost function Views(): (views: seq<Run>)
      reads this`runs, runs
    {
      ViewsOf(runs)
    }

    ghost function Now(): State
      reads this, runs
    {
      State(Views(), startedLate, ended)
    }

    constructor ()
      ensures Valid() && fresh(this) && Now() == INITIAL
    {
      runs, startedLate, ended := [], false, None;
    }

    /** Re-raises the signal unless some registered run has not recorded it or is
        not done. */
    method MaybeReraise(signal: Signal)
      requires ended.None?
      modifies this`ended
      ensures ended == if AllDone(Views()) then Some(Reraised(signal)) else None
    {
      for i := 0 to |runs|
        invariant ended.None?
        invariant forall j | 0 <= j < i :: runs[j].registered ==> runs[j].signal.Some? && runs[j].done
      {
        if runs[i].registered && (runs[i].signal.None? || !runs[i].done) {
          assert !AllDone(Views()) by { assert Views()[i] == runs[i].View(); }
          return;
        }
      }
      ended := Some(Reraised(signal));
    }

    /** A handler of run `id` ends by asking for the re-raise, if it does. */
    method Conclude(ghost before: State, id: nat, ghost effect: Effect, reraise: Option<Signal>)
      requires Valid() && id < |runs| == |before.runs| && reraise == effect.reraise && before.ended.None?
      requires Now() == State(before.runs[id := effect.run], before.startedLate, None)
      modifies this`ended
      ensures Now() == Apply(before, id, effect)
    {
      if reraise.Some? {
        MaybeReraise(reraise.value);
      }
    }

    method Start() returns (run: ChildRun)
      requires Valid() && ended.None?
      modifies this
      ensures Valid() && fresh(run) && runs == old(runs) + [run]
      ensures Now() == Step(old(Now()), Event.Start)
    {
      run := new ChildRun();
      startedLate := startedLate || SomePending(Views());
      runs := runs + [run];
      assert Views() == old(Views()) + [STARTED];
    }

    method HandleSignal(id: nat, signal: Signal, alive: bool)
      requires Valid() && id < |runs| && ended.None?
      modifies this`ended, runs
      ensures Now() == Apply(old(Now()), id, P.OnSignal(old(Now()).runs[id], signal, alive))
    {
      hide AllDone;
      var reraise := runs[id].OnSignal(signal, alive);
      assert Views() == old(Views())[id := runs[id].View()];
      Conclude(old(Now()), id, P.OnSignal(old(Now()).runs[id], signal, alive), reraise);
    }

    /** Whether some run has a handler installed. */
    method SomeoneListens() returns (found: bool)
      ensures found <==> !NobodyListens(Views())
    {
      for i := 0 to |runs|
        invariant forall j | 0 <= j < i :: !runs[j].listening
      {
        if runs[i].listening {
          assert Views()[i].listening;
          return true;
        }
      }
      return false;
    }

    /** Without a handler the signal takes its default action and ends the process;
        otherwise the runs' handlers are called in the order in which they were
        installed, until one re-raises the signal. */
    method OnParentSignal(signal: Signal, groups: seq<bool>)
      requires Valid() && ended.None?
      modifies this`ended, runs
      ensures Now() == Step(old(Now()), ParentSignal(signal, groups))
    {
      hide Apply, P.OnSignal, ViewsOf, NobodyListens;
      var found := SomeoneListens();
      if found {
        assert Deliver(Now(), signal, groups, 0) == Now();
        for i := 0 to |runs|
          invariant Now() == Deliver(old(Now()), signal, groups, i)
        {
          ApplyAfterEnd(Now(), i, P.OnSignal(Now().runs[i], signal, IsAlive(groups, i)));
          if ended.None? {
            HandleSignal(i, signal, IsAlive(groups, i));
          }
        }
      } else {
        ended := Some(Unheard(signal));
      }
    }

    method OnClose(id: nat, alive: bool)
      requires Valid() && id < |runs| && ended.None?
      modifies this`ended, runs
      ensures Now() == Step(old(Now()), Close(id, alive))
    {
      hide AllDone;
      var reraise := runs[id].OnClose(alive);
      assert Views() == old(Views())[id := runs[id].View()];
      Conclude(old(Now()), id, P.OnClose(old(Now()).runs[id], alive), reraise);
    }

    method OnError(id: nat)
      requires Valid() && id < |runs| && ended.None?
      modifies runs
      ensures Now() == Step(old(Now()), Error(id))
    {
      hide AllDone, SomePending, NobodyListens, P.OnError;
      runs[id].OnError();
      assert Views() == old(Views())[id := runs[id].View()];
    }

    method OnTimeout(id: nat)
      requires Valid() && id < |runs| && ended.None?
      modifies runs
      ensures Now() == Step(old(Now()), Timeout(id))
    {
      hide AllDone, SomePending, NobodyListens, P.OnTimeout;
      runs[id].OnTimeout();
      assert Views() == old(Views())[id := runs[id].View()];
    }

    method OnKillGrace(id: nat)
      requires Valid() && id < |runs| && ended.None?
      modifies this`ended, runs
      ensures Now() == Step(old(Now()), KillGrace(id))
    {
      hide AllDone;
      var reraise := runs[id].OnKillGrace();
      assert Views() == old(Views())[id := runs[id].View()];
      Conclude(old(Now()), id, P.OnKillGrace(old(Now()).runs[id]), reraise);
    }
  }

  lemma ApplyAfterEnd(state: State, id: nat, effect: Effect)
    requires id < |state.runs|
    ensures state.ended.Some? ==> Apply(state, id, effect) == state
  {
  }
}

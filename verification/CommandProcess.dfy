/** `runCommandInvocation` and the signal forwarder as the callbacks they install
    (scripts/openclaw-cross-os-release-checks.ts). Each callback is proved to take
    exactly the step of the state machine in `CommandRunner`. */
module CommandProcess {
  import opened Basics
  import opened R = CommandRunner

  /** The variables one call of `runCommandInvocation` closes over. */
  class ChildCommand {
    const check: bool
    var timer: bool
    var killWait: bool
    var heartbeat: bool
    var timedOut: bool
    var settled: bool
    var closed: bool
    var log: Log
    var outcomes: seq<Outcome>
    ghost var sent: seq<Sent>

    ghost function View(): Command
      reads this
    {
      Command(check, timer, killWait, heartbeat, timedOut, settled, closed, log, outcomes, sent)
    }

    constructor (check: bool, timeout: bool, heartbeat: bool)
      ensures View() == Started(Start(check, timeout, heartbeat))
    {
      this.check := check;
      timer, killWait, this.heartbeat := timeout, false, heartbeat;
      timedOut, settled, closed, log, outcomes, sent := false, false, false, Open, [], [];
    }

    /** `killChildTree` */
    method Kill(signal: Sent)
      modifies this`sent
      ensures View() == Send(old(View()), signal)
    {
      sent := sent + [signal];
    }

    method ClearTimers()
      modifies this`timer, this`killWait, this`heartbeat
      ensures !timer && !killWait && !heartbeat
    {
      timer, killWait, heartbeat := false, false, false;
    }

    method Finalize(callback: Callback)
      modifies this
      ensures View() == R.Finalize(old(View()), callback)
    {
      if settled {
        return;
      }
      settled := true;
      ClearTimers();
      log := Ending(callback);
    }

    method OnTimeout()
      modifies this
      ensures View() == TimeoutCommand(old(View()))
    {
      if timer {
        timer := false;
        timedOut := true;
        Kill(SIGKILL);
        killWait := true;
      }
    }

    method OnKillWait()
      modifies this
      ensures View() == KillWaitCommand(old(View()))
    {
      if killWait {
        killWait := false;
        Finalize(RejectStuck);
      }
    }

    /** The log stream finished or failed. Returns whether the command now asks for the
        exit of the process. */
    method OnLogEnd(failed: bool) returns (exit: bool)
      modifies this
      ensures View() == LogEndCommand(old(View()), failed)
      ensures exit == (old(log) == Ending(ExitForwardedSignal) && !failed)
    {
      if !log.Ending? {
        return false;
      }
      var callback := log.callback;
      log := Ended;
      if failed {
        outcomes := outcomes + [LogWriteFailed];
      } else if callback == RejectStuck {
        outcomes := outcomes + [NotTerminated];
      } else if callback == RejectError {
        outcomes := outcomes + [ChildError];
      } else if callback.Report? {
        ReportExit(callback.exitCode);
      } else {
        return true;
      }
      return false;
    }

    method ReportExit(exitCode: int)
      modifies this`outcomes
      ensures outcomes == old(outcomes) + [if timedOut then TimedOut
                                           else if check && exitCode != 0 then BadExit(exitCode)
                                           else Resolved(exitCode)]
    {
      if timedOut {
        outcomes := outcomes + [TimedOut];
      } else if check && exitCode != 0 {
        outcomes := outcomes + [BadExit(exitCode)];
      } else {
        outcomes := outcomes + [Resolved(exitCode)];
      }
    }
  }

  ghost function ViewsOf(commands: seq<ChildCommand>): (views: seq<Command>)
    reads commands
    ensures |views| == |commands|
    ensures forall i | 0 <= i < |commands| :: views[i] == commands[i].View()
  {
    seq(|commands|, i requires 0 <= i < |commands| reads commands => commands[i].View())
  }

  /** The module-level state of the script. */
  class ReleaseChecks {
    var commands: seq<ChildCommand>
    var killers: set<nat>
    var forwarded: Option<nat>
    var forceKill: Option<set<nat>>
    var exit: Option<Exit>

    ghost predicate Valid()
      reads this
    {
      forall i, j | 0 <= i < j < |commands| :: commands[i] != commands[j]
    }

    ghost function Now(): World
      reads this, commands
    {
      World(ViewsOf(commands), killers, forwarded, forceKill, exit)
    }

    constructor ()
      ensures Valid() && Now() == INITIAL
    {
      commands, killers, forwarded, forceKill, exit := [], {}, None, None, None;
    }

    /** Calls the killers of `ids`, in the order of registration. */
    method KillAll(ids: set<nat>, signal: Sent)
      requires Valid()
      modifies commands
      ensures ViewsOf(commands) == SendAll(old(ViewsOf(commands)), ids, signal)
    {
      for i := 0 to |commands|
        invariant forall j | 0 <= j < |commands| ::
                    commands[j].View() == if j < i && j in ids then Send(old(commands[j].View()), signal)
                                          else old(commands[j].View())
      {
        if i in ids {
          commands[i].Kill(signal);
        }
      }
    }

    method Run(check: bool, timeout: bool, heartbeat: bool)
      requires Valid() && exit.None?
      modifies this
      ensures Valid() && Now() == Step(old(Now()), Start(check, timeout, heartbeat))
    {
      var command := new ChildCommand(check, timeout, heartbeat);
      killers := killers + {|commands|};
      commands := commands + [command];
      assert ViewsOf(commands) == old(ViewsOf(commands)) + [command.View()];
    }

    method OnSignal(signal: Signal)
      requires Valid() && exit.None?
      modifies this, commands
      ensures commands == old(commands) && Now() == Step(old(Now()), Interrupt(signal))
    {
      hide SendAll, ViewsOf, SignalExitCode;
      if forwarded.None? {
        forwarded := Some(SignalExitCode(signal));
      }
      if killers == {} {
        exit := Some(Exit(forwarded.value, false));
        return;
      }
      var activeKillers := killers;
      KillAll(activeKillers, Forwarded(signal));
      if forceKill.None? {
        forceKill := Some(activeKillers);
      }
    }

    method OnForceKillTimer()
      requires Valid() && exit.None?
      modifies this, commands
      ensures commands == old(commands) && Now() == Step(old(Now()), ForceKillTimer)
    {
      if forceKill.Some? && forwarded.Some? {
        KillAll(forceKill.value, SIGKILL);
        forceKill := None;
        exit := Some(Exit(forwarded.value, true));
      }
    }

    method ExitForwardedSignalWhenChildTreesDone()
      modifies this`forceKill, this`exit
      ensures Now() == ExitWhenDone(old(Now()))
    {
      if forwarded.None? || killers != {} {
        return;
      }
      if forceKill.Some? {
        forceKill := None;
      }
      exit := Some(Exit(forwarded.value, false));
    }

    method OnTimeout(id: nat)
      requires Valid() && exit.None? && id < |commands|
      modifies commands
      ensures Now() == Step(old(Now()), Timeout(id))
    {
      commands[id].OnTimeout();
      assert ViewsOf(commands) == old(ViewsOf(commands))[id := commands[id].View()];
    }

    method OnKillWait(id: nat)
      requires Valid() && exit.None? && id < |commands|
      modifies commands
      ensures Now() == Step(old(Now()), KillWait(id))
    {
      commands[id].OnKillWait();
      assert ViewsOf(commands) == old(ViewsOf(commands))[id := commands[id].View()];
    }

    method OnError(id: nat)
      requires Valid() && exit.None? && id < |commands|
      modifies this, commands
      ensures commands == old(commands) && Now() == Step(old(Now()), Error(id))
    {
      if forwarded.Some? {
        commands[id].Kill(SIGKILL);
      }
      killers := killers - {id};
      commands[id].Finalize(RejectError);
      assert ViewsOf(commands) == old(ViewsOf(commands))[id := commands[id].View()];
    }

    method OnClose(id: nat, exitCode: Option<int>)
      requires Valid() && exit.None? && id < |commands|
      modifies this, commands
      ensures commands == old(commands) && Now() == Step(old(Now()), Close(id, exitCode))
    {
      var command := commands[id];
      if command.closed {
        return;
      }
      command.closed := true;
      if forwarded.Some? {
        command.Kill(SIGKILL);
        killers := killers - {id};
        command.Finalize(ExitForwardedSignal);
      } else {
        killers := killers - {id};
        command.Finalize(Report(if exitCode.Some? then exitCode.value else 1));
      }
      assert ViewsOf(commands) == old(ViewsOf(commands))[id := commands[id].View()];
    }

    method OnLogEnd(id: nat, failed: bool)
      requires Valid() && exit.None? && id < |commands|
      modifies this, commands
      ensures commands == old(commands) && Now() == Step(old(Now()), LogEnd(id, failed))
    {
      var exits := commands[id].OnLogEnd(failed);
      assert ViewsOf(commands) == old(ViewsOf(commands))[id := commands[id].View()];
      if exits {
        ExitForwardedSignalWhenChildTreesDone();
      }
    }
  }
}

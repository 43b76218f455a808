/** Commands and forwarded signals (scripts/openclaw-cross-os-release-checks.ts).

    Every running command registers a killer for its process tree in one registry. A
    signal to the process is passed on to the registered trees and fixes the exit
    code; the process exits when the registry has emptied or a force-kill timer
    fires. Each command also waits for its own timers and for its log stream. Events
    run to completion, so sequences of events are all the interleavings there are. */
module CommandRunner {
  import opened Basics

  datatype Signal = SIGHUP | SIGINT | SIGTERM

  /** What a process tree was sent: a signal passed on, or SIGKILL. */
  datatype Sent = Forwarded(signal: Signal) | SIGKILL

  function SignalExitCode(signal: Signal): nat {
    match signal
    case SIGHUP => 129
    case SIGINT => 130
    case SIGTERM => 143
  }

  /** What a command does once its log stream has ended. */
  datatype Callback =
    | RejectStuck
    | RejectError
    | Report(exitCode: int)
    | ExitForwardedSignal

  datatype Outcome =
    | LogWriteFailed
    | NotTerminated
    | ChildError
    | TimedOut
    | BadExit(exitCode: int)
    | Resolved(exitCode: int)

  datatype Log = Open | Ending(callback: Callback) | Ended

  /** One call of `runCommandInvocation`. `sent` is the history of signals sent to its
      tree; `check` is the option to reject on a non-zero exit code. */
  datatype Command = Command(
    check: bool, timer: bool, killWait: bool, heartbeat: bool,
    timedOut: bool, settled: bool, closed: bool, log: Log,
    outcomes: seq<Outcome>, sent: seq<Sent>)

  datatype Exit = Exit(code: nat, forced: bool)

  /** `killers` is the registry, `forwarded` the exit code to use and `forceKill` the
      trees the armed force-kill timer will kill. */
  datatype World = World(
    commands: seq<Command>, killers: set<nat>, forwarded: Option<nat>,
    forceKill: Option<set<nat>>, exit: Option<Exit>)

  const INITIAL := World([], {}, None, None, None)

  datatype Event =
    | Start(check: bool, timeout: bool, heartbeat: bool)
    | Interrupt(signal: Signal)
    | ForceKillTimer
    | Timeout(id: nat)
    | KillWait(id: nat)
    | Close(id: nat, exitCode: Option<int>)
    | Error(id: nat)
    | LogEnd(id: nat, failed: bool)

  // --------------------------------------------------------------- one command

  function Started(event: Event): Command
    requires event.Start?
  {
    Command(event.check, event.timeout, false, event.heartbeat, false, false, false, Open, [], [])
  }

  function Send(command: Command, signal: Sent): Command {
    command.(sent := command.sent + [signal])
  }

  function Finalize(command: Command, callback: Callback): Command {
    if command.settled then command
    else command.(settled := true, timer := false, killWait := false, heartbeat := false, log := Ending(callback))
  }

  function TimeoutCommand(command: Command): Command {
    if command.timer then Send(command.(timer := false, timedOut := true, killWait := true), SIGKILL) else command
  }

  function KillWaitCommand(command: Command): Command {
    if command.killWait then Finalize(command.(killWait := false), RejectStuck) else command
  }

  /** An error or the close of the child kills its group first if a signal is being forwarded. */
  function KillIf(command: Command, forwarding: bool): Command {
    if forwarding then Send(command, SIGKILL) else command
  }

  function ErrorCommand(command: Command, forwarding: bool): Command {
    Finalize(KillIf(command, forwarding), RejectError)
  }

  function CloseCommand(command: Command, forwarding: bool, exitCode: Option<int>): Command {
    Finalize(KillIf(command.(closed := true), forwarding),
             if forwarding then ExitForwardedSignal else Report(if exitCode.Some? then exitCode.value else 1))
  }

  /** What the command's promise is settled with, if anything. */
  function OutcomeOf(command: Command, failed: bool): Option<Outcome>
    requires command.log.Ending?
  {
    if failed then Some(LogWriteFailed)
    else match command.log.callback
      case RejectStuck => Some(NotTerminated)
      case RejectError => Some(ChildError)
      case ExitForwardedSignal => None
      case Report(exitCode) =>
        Some(if command.timedOut then TimedOut
             else if command.check && exitCode != 0 then BadExit(exitCode)
             else Resolved(exitCode))
  }

  function LogEndCommand(command: Command, failed: bool): Command {
    if !command.log.Ending? then command
    else
      var outcome := OutcomeOf(command, failed);
      command.(log := Ended, outcomes := if outcome.Some? then command.outcomes + [outcome.value] else command.outcomes)
  }

  // ---------------------------------------------------------- the whole process

  function SendAll(commands: seq<Command>, ids: set<nat>, signal: Sent): (sent: seq<Command>)
    ensures |sent| == |commands|
    ensures forall i | 0 <= i < |sent| :: sent[i] == if i in ids then Send(commands[i], signal) else commands[i]
  {
    seq(|commands|, i requires 0 <= i < |commands| => if i in ids then Send(commands[i], signal) else commands[i])
  }

  function InterruptWorld(world: World, signal: Signal): World {
    var code := if world.forwarded.Some? then world.forwarded.value else SignalExitCode(signal);
    if world.killers == {} then
      world.(forwarded := Some(code), exit := Some(Exit(code, false)))
    else
      world.(commands := SendAll(world.commands, world.killers, Forwarded(signal)),
             forwarded := Some(code),
             forceKill := if world.forceKill.Some? then world.forceKill else Some(world.killers))
  }

  function ForceKillWorld(world: World): World {
    if world.forceKill.None? || world.forwarded.None? then world
    else world.(commands := SendAll(world.commands, world.forceKill.value, SIGKILL), forceKill := None,
                exit := Some(Exit(world.forwarded.value, true)))
  }

  /** `exitForwardedSignalWhenChildTreesDone` */
  function ExitWhenDone(world: World): World {
    if world.forwarded.None? || world.killers != {} then world
    else world.(forceKill := None, exit := Some(Exit(world.forwarded.value, false)))
  }

  function Update(world: World, id: nat, command: Command): World
    requires id < |world.commands|
  {
    world.(commands := world.commands[id := command])
  }

  function CommandStep(world: World, event: Event): World
    requires event.Timeout? || event.KillWait? || event.Close? || event.Error? || event.LogEnd?
    requires event.id < |world.commands|
  {
    var command := world.commands[event.id];
    var forwarding := world.forwarded.Some?;
    match event
    case Timeout(id) => Update(world, id, TimeoutCommand(command))
    case KillWait(id) => Update(world, id, KillWaitCommand(command))
    case Error(id) => Update(world, id, ErrorCommand(command, forwarding)).(killers := world.killers - {id})
    case Close(id, exitCode) =>
      if command.closed then world
      else Update(world, id, CloseCommand(command, forwarding, exitCode)).(killers := world.killers - {id})
    case LogEnd(id, failed) =>
      var next := Update(world, id, LogEndCommand(command, failed));
      if command.log == Ending(ExitForwardedSignal) && !failed then ExitWhenDone(next) else next
  }

  /** Nothing happens once the process has exited. */
  function Step(world: World, event: Event): World {
    if world.exit.Some? then world
    else match event
      case Start(_, _, _) =>
        var id := |world.commands|;
        world.(commands := world.commands + [Started(event)], killers := world.killers + {id})
      case Interrupt(signal) => InterruptWorld(world, signal)
      case ForceKillTimer => ForceKillWorld(world)
      case _ => if event.id < |world.commands| then CommandStep(world, event) else world
  }

  function Execute(world: World, events: seq<Event>): World {
    if events == [] then world else Step(Execute(world, events[..|events| - 1]), events[|events| - 1])
  }

  // -------------------------------------------------------------- the invariant

  /** The promise settles at most once, only after the log stream has ended and with
      all three timers disarmed; it is left open only for a forwarded signal. */
  ghost predicate CommandOk(command: Command, forwarding: bool) {
    && |command.outcomes| <= 1
    && (command.outcomes != [] ==> command.log.Ended?)
    && (command.settled <==> !command.log.Open?)
    && (command.settled ==> !command.timer && !command.killWait && !command.heartbeat)
    && (command.closed ==> command.settled)
    && (command.timedOut && !command.settled ==> command.killWait)
    && (command.log == Ending(ExitForwardedSignal) ==> forwarding && command.closed)
    && (command.log.Ended? && command.outcomes == [] ==> forwarding)
    && (command.log.Ending? && command.log.callback.Report? ==> command.closed)
    && (command.log == Ending(RejectStuck) ==> command.timedOut)
    && (command.killWait ==> command.timedOut)
    && (command.timedOut ==> SIGKILL in command.sent)
    && (command.outcomes != [] ==> OutcomeOk(command, command.outcomes[0]))
  }

  /** A promise resolves only for a child that closed in time, and with a zero exit
      code if the caller checks it; it fails as stuck only after a timeout. */
  predicate OutcomeOk(command: Command, outcome: Outcome) {
    match outcome
    case Resolved(exitCode) => command.closed && !command.timedOut && (command.check ==> exitCode == 0)
    case BadExit(exitCode) => command.closed && !command.timedOut && command.check && exitCode != 0
    case TimedOut => command.closed && command.timedOut
    case NotTerminated => command.timedOut
    case _ => true
  }

  predicate LastSentIsKill(command: Command) {
    command.sent != [] && command.sent[|command.sent| - 1] == SIGKILL
  }

  /** Only its timeout has sent the command's tree SIGKILL, if anything has. */
  predicate KilledByTimeoutOnly(command: Command) {
    SIGKILL in command.sent ==> command.timedOut
  }

  ghost predicate Ok(world: World) {
    && (forall i | 0 <= i < |world.commands| :: CommandOk(world.commands[i], world.forwarded.Some?))
    && (forall id | id in world.killers :: id < |world.commands|)
    && (world.exit.None? ==> (world.forwarded.Some? <==> world.forceKill.Some?))
    && (world.exit.Some? ==> world.forwarded == Some(world.exit.value.code))
    && (world.exit.Some? && !world.exit.value.forced ==> world.killers == {})
  }

  /** What holds after a first signal that found `trees` registered and `started`
      commands started: the exit code is fixed, the force-kill timer stays armed until
      the exit, and no tree that was registered then or later is let go without
      SIGKILL, nor any of `trees` at the exit. While another tree is registered, it is
      sent SIGKILL only by its command's timeout. */
  ghost predicate Pursues(world: World, signal: Signal, trees: set<nat>, started: nat) {
    && world.forwarded == Some(SignalExitCode(signal))
    && started <= |world.commands|
    && (forall id | id in trees :: id < started)
    && (world.exit.None? ==> world.forceKill == Some(trees))
    && (forall id: nat | id < |world.commands| && (id in trees || started <= id) && id !in world.killers ::
          LastSentIsKill(world.commands[id]))
    && (world.exit.Some? ==> forall id | id in trees :: LastSentIsKill(world.commands[id]))
    && (forall id | id in world.killers && id !in trees ::
          id < |world.commands| && KilledByTimeoutOnly(world.commands[id]))
  }

  /** `next` is a legal successor of one command. */
  ghost predicate Keeps(command: Command, next: Command, forwarding: bool) {
    CommandOk(next, forwarding) && (LastSentIsKill(command) ==> LastSentIsKill(next))
  }

  lemma {:induction false} TimersKeepCommandOk(command: Command, forwarding: bool)
    requires CommandOk(command, forwarding)
    ensures Keeps(command, TimeoutCommand(command), forwarding)
    ensures Keeps(command, KillWaitCommand(command), forwarding)
    ensures KilledByTimeoutOnly(command) ==>
              KilledByTimeoutOnly(TimeoutCommand(command)) && KilledByTimeoutOnly(KillWaitCommand(command))
  {
  }

  lemma {:induction false} ErrorKeepsCommandOk(command: Command, forwarding: bool)
    requires CommandOk(command, forwarding)
    ensures Keeps(command, ErrorCommand(command, forwarding), forwarding)
    ensures forwarding ==> LastSentIsKill(ErrorCommand(command, forwarding))
  {
  }

  lemma {:induction false} CloseKeepsCommandOk(command: Command, forwarding: bool, exitCode: Option<int>)
    requires CommandOk(command, forwarding)
    ensures Keeps(command, CloseCommand(command, forwarding, exitCode), forwarding)
    ensures forwarding ==> LastSentIsKill(CloseCommand(command, forwarding, exitCode))
  {
  }

  lemma {:induction false} LogEndKeepsCommandOk(command: Command, forwarding: bool, failed: bool)
    requires CommandOk(command, forwarding)
    ensures Keeps(command, LogEndCommand(command, failed), forwarding)
    ensures KilledByTimeoutOnly(command) ==> KilledByTimeoutOnly(LogEndCommand(command, failed))
  {
  }

  /** One command takes a legal step and may leave the registry. */
  lemma {:induction false} UpdateKeepsOk(world: World, id: nat, command: Command, killers: set<nat>)
    requires Ok(world) && id < |world.commands| && Keeps(world.commands[id], command, world.forwarded.Some?)
    requires world.exit.None? && world.killers - {id} <= killers <= world.killers
    ensures Ok(Update(world, id, command).(killers := killers))
  {
    hide CommandOk, LastSentIsKill;
  }

  lemma {:induction false} UpdatePursues(world: World, id: nat, command: Command, killers: set<nat>,
                                         signal: Signal, trees: set<nat>, started: nat)
    requires Pursues(world, signal, trees, started) && world.exit.None?
    requires id < |world.commands| && Keeps(world.commands[id], command, true)
    requires world.killers - {id} <= killers <= world.killers
    requires id !in killers && id in world.killers ==> LastSentIsKill(command)
    requires id in killers && KilledByTimeoutOnly(world.commands[id]) ==> KilledByTimeoutOnly(command)
    ensures Pursues(Update(world, id, command).(killers := killers), signal, trees, started)
  {
    hide CommandOk, LastSentIsKill, KilledByTimeoutOnly;
  }

  lemma {:induction false} ExitKeepsOk(world: World)
    requires Ok(world) && world.exit.None?
    ensures Ok(ExitWhenDone(world))
  {
    hide CommandOk, LastSentIsKill;
  }

  lemma {:induction false} SendKeepsCommandOk(command: Command, signal: Sent, before: bool)
    requires CommandOk(command, before)
    ensures CommandOk(Send(command, signal), true)
    ensures signal == SIGKILL ==> LastSentIsKill(Send(command, signal))
    ensures signal != SIGKILL && KilledByTimeoutOnly(command) ==> KilledByTimeoutOnly(Send(command, signal))
  {
  }

  lemma {:induction false} SendAllKeepsOk(world: World, ids: set<nat>, signal: Sent)
    requires Ok(world)
    ensures forall i | 0 <= i < |world.commands| ::
              CommandOk(SendAll(world.commands, ids, signal)[i], true)
              && (i in ids && signal == SIGKILL ==> LastSentIsKill(SendAll(world.commands, ids, signal)[i]))
              && (i !in ids ==> SendAll(world.commands, ids, signal)[i] == world.commands[i])
  {
    hide LastSentIsKill, Send;
    forall i | 0 <= i < |world.commands|
      ensures CommandOk(SendAll(world.commands, ids, signal)[i], true)
      ensures i in ids && signal == SIGKILL ==> LastSentIsKill(SendAll(world.commands, ids, signal)[i])
    {
      SendKeepsCommandOk(world.commands[i], signal, world.forwarded.Some?);
    }
  }

  lemma {:induction false} InterruptKeepsOk(world: World, signal: Signal)
    requires Ok(world) && world.exit.None?
    ensures Ok(InterruptWorld(world, signal))
  {
    SendAllKeepsOk(world, {}, SIGKILL);
    SendAllKeepsOk(world, world.killers, Forwarded(signal));
    hide CommandOk, LastSentIsKill, Send;
    assert SendAll(world.commands, {}, SIGKILL) == world.commands;
  }

  lemma {:induction false} ForceKillKeepsOk(world: World)
    requires Ok(world) && world.exit.None?
    ensures Ok(ForceKillWorld(world))
  {
    if world.forceKill.Some? {
      SendAllKeepsOk(world, world.forceKill.value, SIGKILL);
      hide CommandOk, LastSentIsKill, Send;
    }
  }

  lemma {:induction false} CommandStepKeepsOk(world: World, event: Event)
    requires Ok(world) && world.exit.None?
    requires event.Timeout? || event.KillWait? || event.Close? || event.Error? || event.LogEnd?
    requires event.id < |world.commands|
    ensures Ok(CommandStep(world, event))
  {
    var id, command, forwarding := event.id, world.commands[event.id], world.forwarded.Some?;
    hide CommandOk, LastSentIsKill, KilledByTimeoutOnly;
    hide TimeoutCommand, KillWaitCommand, ErrorCommand, CloseCommand, LogEndCommand;
    match event
    case Timeout(_) =>
      TimersKeepCommandOk(command, forwarding);
      UpdateKeepsOk(world, id, TimeoutCommand(command), world.killers);
    case KillWait(_) =>
      TimersKeepCommandOk(command, forwarding);
      UpdateKeepsOk(world, id, KillWaitCommand(command), world.killers);
    case Error(_) =>
      ErrorKeepsCommandOk(command, forwarding);
      UpdateKeepsOk(world, id, ErrorCommand(command, forwarding), world.killers - {id});
    case Close(_, exitCode) =>
      CloseKeepsCommandOk(command, forwarding, exitCode);
      UpdateKeepsOk(world, id, CloseCommand(command, forwarding, exitCode), world.killers - {id});
    case LogEnd(_, failed) =>
      LogEndKeepsCommandOk(command, forwarding, failed);
      UpdateKeepsOk(world, id, LogEndCommand(command, failed), world.killers);
      ExitKeepsOk(Update(world, id, LogEndCommand(command, failed)));
  }

  lemma {:induction false} StepKeepsOk(world: World, event: Event)
    requires Ok(world)
    ensures Ok(Step(world, event))
  {
    hide LastSentIsKill, InterruptWorld, ForceKillWorld, CommandStep;
    if world.exit.None? {
      match event
      case Start(_, _, _) =>
      case Interrupt(signal) => InterruptKeepsOk(world, signal);
      case ForceKillTimer => ForceKillKeepsOk(world);
      case _ => if event.id < |world.commands| { CommandStepKeepsOk(world, event); }
    }
  }

  lemma {:induction false} EveryExecutionIsOk(events: seq<Event>)
    ensures Ok(Execute(INITIAL, events))
  {
    hide Step;
    if events != [] {
      EveryExecutionIsOk(events[..|events| - 1]);
      StepKeepsOk(Execute(INITIAL, events[..|events| - 1]), events[|events| - 1]);
    }
  }

  // ------------------------------------------------- what an outcome says happened

  predicate IsFor(event: Event, id: nat) {
    (event.Timeout? || event.KillWait? || event.Close? || event.Error? || event.LogEnd?) && event.id == id
  }

  /** A timer fires only while it is armed, and a log ends only once it was told to. */
  predicate MayHear(command: Command, event: Event) {
    match event
    case Timeout(_) => command.timer
    case KillWait(_) => command.killWait
    case LogEnd(_, _) => command.log.Ending?
    case _ => true
  }

  predicate Hears(world: World, event: Event, id: nat) {
    world.exit.None? && id < |world.commands| && IsFor(event, id) && MayHear(world.commands[id], event)
  }

  /** The events that reach a command. */
  function Heard(events: seq<Event>, id: nat): seq<Event> {
    if events == [] then []
    else
      var before, last := events[..|events| - 1], events[|events| - 1];
      Heard(before, id) + if Hears(Execute(INITIAL, before), last, id) then [last] else []
  }

  /** What the child's first close reported as its exit code, if it closed. */
  function FirstClose(heard: seq<Event>): Option<Option<int>> {
    if heard == [] then None
    else
      var before, last := FirstClose(heard[..|heard| - 1]), heard[|heard| - 1];
      if before.Some? then before else if last.Close? then Some(last.exitCode) else None
  }

  /** The child's first close reported this code; one without a code counts as 1. */
  predicate ClosedWith(heard: seq<Event>, code: int) {
    FirstClose(heard) == Some(Some(code)) || (FirstClose(heard) == Some(None) && code == 1)
  }

  /** Each outcome was brought about by the event it tells of. */
  predicate OutcomeIsTrue(outcome: Outcome, heard: seq<Event>, id: nat) {
    match outcome
    case Resolved(code) => ClosedWith(heard, code) && Timeout(id) !in heard
    case BadExit(code) => ClosedWith(heard, code) && Timeout(id) !in heard
    case TimedOut => FirstClose(heard).Some? && Timeout(id) in heard
    case NotTerminated => Timeout(id) in heard && KillWait(id) in heard
    case ChildError => Error(id) in heard
    case LogWriteFailed => LogEnd(id, true) in heard
  }

  /** What a command knows is what it has heard. */
  ghost predicate Remembers(command: Command, heard: seq<Event>, id: nat) {
    && (command.closed <==> FirstClose(heard).Some?)
    && (command.timedOut <==> Timeout(id) in heard)
    && (command.log.Ending? ==>
          match command.log.callback
          case Report(code) => ClosedWith(heard, code)
          case RejectError => Error(id) in heard
          case RejectStuck => KillWait(id) in heard
          case ExitForwardedSignal => true)
    && (command.outcomes != [] ==> OutcomeIsTrue(command.outcomes[0], heard, id))
  }

  /** What an event makes of the command it is for. */
  function CommandAfter(command: Command, event: Event, forwarding: bool): Command
    requires event.Timeout? || event.KillWait? || event.Close? || event.Error? || event.LogEnd?
  {
    match event
    case Timeout(_) => TimeoutCommand(command)
    case KillWait(_) => KillWaitCommand(command)
    case Error(_) => ErrorCommand(command, forwarding)
    case Close(_, exitCode) => if command.closed then command else CloseCommand(command, forwarding, exitCode)
    case LogEnd(_, failed) => LogEndCommand(command, failed)
  }

  lemma {:induction false} HeardOneMore(heard: seq<Event>, event: Event)
    ensures FirstClose(heard + [event])
         == if FirstClose(heard).Some? then FirstClose(heard)
            else if event.Close? then Some(event.exitCode) else None
  {
    assert (heard + [event])[..|heard|] == heard;
  }

  lemma {:induction false} TimersRemember(command: Command, event: Event, heard: seq<Event>, id: nat)
    requires CommandOk(command, true) && Remembers(command, heard, id)
    requires event == Timeout(id) || event == KillWait(id)
    ensures if MayHear(command, event) then Remembers(CommandAfter(command, event, true), heard + [event], id)
            else CommandAfter(command, event, true) == command
  {
    HeardOneMore(heard, event);
    hide FirstClose;
  }

  lemma {:induction false} ErrorRemembers(command: Command, heard: seq<Event>, id: nat, forwarding: bool)
    requires CommandOk(command, true) && Remembers(command, heard, id)
    ensures Remembers(CommandAfter(command, Error(id), forwarding), heard + [Error(id)], id)
  {
    HeardOneMore(heard, Error(id));
    hide FirstClose;
  }

  lemma {:induction false} CloseRemembers(
      command: Command, heard: seq<Event>, id: nat, forwarding: bool, exitCode: Option<int>)
    requires CommandOk(command, true) && Remembers(command, heard, id)
    ensures Remembers(CommandAfter(command, Close(id, exitCode), forwarding), heard + [Close(id, exitCode)], id)
  {
    HeardOneMore(heard, Close(id, exitCode));
    hide FirstClose;
  }

  lemma {:induction false} LogEndRemembers(command: Command, heard: seq<Event>, id: nat, failed: bool)
    requires CommandOk(command, true) && Remembers(command, heard, id)
    ensures if command.log.Ending?
            then Remembers(CommandAfter(command, LogEnd(id, failed), true), heard + [LogEnd(id, failed)], id)
            else CommandAfter(command, LogEnd(id, failed), true) == command
  {
    HeardOneMore(heard, LogEnd(id, failed));
    hide FirstClose;
  }

  lemma {:induction false} FirstSignalPursues(world: World, signal: Signal)
    requires Ok(world) && world.exit.None? && world.forwarded.None?
    ensures Pursues(InterruptWorld(world, signal), signal, world.killers, |world.commands|)
  {
  }

  lemma {:induction false} LaterSignalPursues(world: World, again: Signal, signal: Signal, trees: set<nat>,
        started: nat)
    requires Ok(world) && Pursues(world, signal, trees, started) && world.exit.None?
    ensures Pursues(InterruptWorld(world, again), signal, trees, started)
  {
    forall id | id in world.killers && id !in trees
      ensures KilledByTimeoutOnly(Send(world.commands[id], Forwarded(again)))
    {
      SendKeepsCommandOk(world.commands[id], Forwarded(again), true);
    }
    hide CommandOk, LastSentIsKill, KilledByTimeoutOnly, Send;
  }

  lemma {:induction false} ForceKillPursues(world: World, signal: Signal, trees: set<nat>, started: nat)
    requires Ok(world) && Pursues(world, signal, trees, started) && world.exit.None?
    ensures Pursues(ForceKillWorld(world), signal, trees, started)
  {
    SendAllKeepsOk(world, trees, SIGKILL);
    hide CommandOk, LastSentIsKill, KilledByTimeoutOnly, Send;
  }

  lemma {:induction false} CommandStepPursues(world: World, event: Event, signal: Signal, trees: set<nat>, started: nat)
    requires Ok(world) && Pursues(world, signal, trees, started) && world.exit.None?
    requires event.Timeout? || event.KillWait? || event.Close? || event.Error? || event.LogEnd?
    requires event.id < |world.commands|
    ensures Pursues(CommandStep(world, event), signal, trees, started)
  {
    var id, command := event.id, world.commands[event.id];
    hide CommandOk, LastSentIsKill, KilledByTimeoutOnly;
    hide TimeoutCommand, KillWaitCommand, ErrorCommand, CloseCommand, LogEndCommand;
    match event
    case Timeout(_) =>
      TimersKeepCommandOk(command, true);
      UpdatePursues(world, id, TimeoutCommand(command), world.killers, signal, trees, started);
    case KillWait(_) =>
      TimersKeepCommandOk(command, true);
      UpdatePursues(world, id, KillWaitCommand(command), world.killers, signal, trees, started);
    case Error(_) =>
      ErrorKeepsCommandOk(command, true);
      UpdatePursues(world, id, ErrorCommand(command, true), world.killers - {id}, signal, trees, started);
    case Close(_, exitCode) =>
      CloseKeepsCommandOk(command, true, exitCode);
      UpdatePursues(world, id, CloseCommand(command, true, exitCode), world.killers - {id}, signal, trees, started);
    case LogEnd(_, failed) =>
      LogEndKeepsCommandOk(command, true, failed);
      UpdatePursues(world, id, LogEndCommand(command, failed), world.killers, signal, trees, started);
  }

  lemma {:induction false} StepPursues(world: World, event: Event, signal: Signal, trees: set<nat>, started: nat)
    requires Ok(world) && Pursues(world, signal, trees, started)
    ensures Pursues(Step(world, event), signal, trees, started)
  {
    hide LastSentIsKill, InterruptWorld, ForceKillWorld, CommandStep, CommandOk;
    if world.exit.None? {
      match event
      case Start(_, _, _) =>
      case Interrupt(again) => LaterSignalPursues(world, again, signal, trees, started);
      case ForceKillTimer => ForceKillPursues(world, signal, trees, started);
      case _ => if event.id < |world.commands| { CommandStepPursues(world, event, signal, trees, started); }
    }
  }

  lemma {:induction false} ExecutePursues(world: World, events: seq<Event>, signal: Signal, trees: set<nat>,
        started: nat)
    requires Ok(world) && Pursues(world, signal, trees, started)
    ensures Ok(Execute(world, events)) && Pursues(Execute(world, events), signal, trees, started)
  {
    hide Step, Ok, Pursues;
    if events != [] {
      ExecutePursues(world, events[..|events| - 1], signal, trees, started);
      StepKeepsOk(Execute(world, events[..|events| - 1]), events[|events| - 1]);
      StepPursues(Execute(world, events[..|events| - 1]), events[|events| - 1], signal, trees, started);
    }
  }

  ghost predicate SameButSent(command: Command, next: Command) {
    next == command.(sent := next.sent)
  }

  lemma {:induction false} StepOfCommand(world: World, event: Event, id: nat)
    requires world.exit.None? && id < |world.commands|
    ensures id < |Step(world, event).commands|
    ensures var next := Step(world, event).commands[id];
            if IsFor(event, id) then next == CommandAfter(world.commands[id], event, world.forwarded.Some?)
            else SameButSent(world.commands[id], next)
  {
    hide TimeoutCommand, KillWaitCommand, ErrorCommand, CloseCommand, LogEndCommand;
    OnlySent(world.commands[id]);
    hide SameButSent, Send;
    match event
    case Start(_, _, _) =>
    case Interrupt(_) =>
    case ForceKillTimer =>
    case _ =>
      if event.id < |world.commands| {
        CommandStepOf(world, event, id);
        hide CommandStep;
      }
  }

  lemma {:induction false} OnlySent(command: Command)
    ensures SameButSent(command, command) && forall signal :: SameButSent(command, Send(command, signal))
  {
  }

  lemma {:induction false} CommandStepOf(world: World, event: Event, id: nat)
    requires event.Timeout? || event.KillWait? || event.Close? || event.Error? || event.LogEnd?
    requires event.id < |world.commands| && id < |world.commands|
    ensures var next := CommandStep(world, event);
            && |next.commands| == |world.commands|
            && next.commands[id] == if event.id == id
                                    then CommandAfter(world.commands[id], event, world.forwarded.Some?)
                                    else world.commands[id]
  {
    hide TimeoutCommand, KillWaitCommand, ErrorCommand, CloseCommand, LogEndCommand;
  }

  lemma {:induction false} CommandsStay(world: World, event: Event)
    ensures |world.commands| <= |Step(world, event).commands|
  {
    hide TimeoutCommand, KillWaitCommand, ErrorCommand, CloseCommand, LogEndCommand;
  }

  lemma {:induction false} NothingHeardYet(events: seq<Event>, id: nat)
    requires |Execute(INITIAL, events).commands| <= id
    ensures Heard(events, id) == []
  {
    hide Step;
    if events != [] {
      var before := events[..|events| - 1];
      CommandsStay(Execute(INITIAL, before), events[|events| - 1]);
      NothingHeardYet(before, id);
    }
  }

  lemma {:induction false} HearingRemembers(
      command: Command, event: Event, heard: seq<Event>, id: nat, forwarding: bool)
    requires CommandOk(command, forwarding) && Remembers(command, heard, id) && IsFor(event, id)
    ensures Remembers(CommandAfter(command, event, forwarding),
                      if MayHear(command, event) then heard + [event] else heard, id)
  {
    assert CommandOk(command, true);
    hide CommandOk, Remembers, TimeoutCommand, KillWaitCommand, ErrorCommand, CloseCommand, LogEndCommand;
    match event
    case Timeout(_) => TimersRemember(command, event, heard, id);
    case KillWait(_) => TimersRemember(command, event, heard, id);
    case Error(_) => ErrorRemembers(command, heard, id, forwarding);
    case Close(_, exitCode) => CloseRemembers(command, heard, id, forwarding, exitCode);
    case LogEnd(_, failed) => LogEndRemembers(command, heard, id, failed);
  }

  lemma {:induction false} SentIsNotRemembered(command: Command, next: Command, heard: seq<Event>, id: nat)
    requires Remembers(command, heard, id) && SameButSent(command, next)
    ensures Remembers(next, heard, id)
  {
    hide OutcomeIsTrue, FirstClose;
  }

  lemma {:induction false} StartRemembers(event: Event, id: nat)
    requires event.Start?
    ensures Remembers(Started(event), [], id)
  {
  }

  lemma {:induction false} EveryCommandRemembers(events: seq<Event>, id: nat)
    ensures var last := Execute(INITIAL, events);
            id < |last.commands| ==> Remembers(last.commands[id], Heard(events, id), id)
  {
    hide Step, CommandOk, Remembers, MayHear, CommandAfter, SameButSent, OutcomeIsTrue;
    if events != [] {
      var before, event := events[..|events| - 1], events[|events| - 1];
      var at := Execute(INITIAL, before);
      EveryCommandRemembers(before, id);
      EveryExecutionIsOk(before);
      StepAfterExit(at, event);
      assert Heard(before, id) + [] == Heard(before, id);
      if at.exit.None? {
        if id < |at.commands| {
          assert CommandOk(at.commands[id], at.forwarded.Some?);
          StepOfCommand(at, event, id);
          if IsFor(event, id) {
            HearingRemembers(at.commands[id], event, Heard(before, id), id, at.forwarded.Some?);
          } else {
            SentIsNotRemembered(at.commands[id], Step(at, event).commands[id], Heard(before, id), id);
          }
        } else {
          NothingHeardYet(before, id);
          FirstHeard(at, event, id);
        }
      }
    }
  }

  lemma {:induction false} StepAfterExit(world: World, event: Event)
    ensures world.exit.Some? ==> Step(world, event) == world
  {
  }

  lemma {:induction false} FirstHeard(world: World, event: Event, id: nat)
    requires world.exit.None? && |world.commands| <= id
    ensures id < |Step(world, event).commands| ==> Remembers(Step(world, event).commands[id], [], id)
  {
    if event.Start? {
      StartRemembers(event, id);
      hide Remembers;
    }
  }

  /** Over all executions: a promise resolves or is rejected with the very exit code that
      the child's first close reported, or with 1 if it reported none; it is rejected as
      timed out, stuck, failed or unlogged only if that is what happened. */
  lemma {:induction false} OutcomesAreTrue(events: seq<Event>, id: nat)
    ensures var last := Execute(INITIAL, events);
            id < |last.commands| ==>
              forall i | 0 <= i < |last.commands[id].outcomes| ::
                OutcomeIsTrue(last.commands[id].outcomes[i], Heard(events, id), id)
  {
    EveryCommandRemembers(events, id);
    EveryExecutionIsOk(events);
    var last := Execute(INITIAL, events);
    assert id < |last.commands| ==> CommandOk(last.commands[id], last.forwarded.Some?);
  }

  /** Over all executions: a tree is registered from its start until its child first closes
      or fails. */
  lemma {:induction false} RegisteredIff(events: seq<Event>, id: nat)
    ensures var last := Execute(INITIAL, events);
            id in last.killers <==>
              id < |last.commands| && FirstClose(Heard(events, id)).None? && Error(id) !in Heard(events, id)
  {
    hide FirstClose, Remembers, Step;
    if events != [] {
      var before, event := events[..|events| - 1], events[|events| - 1];
      var at := Execute(INITIAL, before);
      RegisteredIff(before, id);
      EveryCommandRemembers(before, id);
      ClosedIsRemembered(at, Heard(before, id), id);
      HeardOneMore(Heard(before, id), event);
      assert Heard(before, id) + [] == Heard(before, id);
      if |at.commands| <= id {
        NothingHeardYet(before, id);
        NoClosesHeard();
      }
      StepAfterExit(at, event);
      StepCounts(at, event);
      if at.exit.None? {
        StepRegisters(at, event, id);
      }
    }
  }

  lemma {:induction false} StepRegisters(world: World, event: Event, id: nat)
    requires world.exit.None?
    ensures id in Step(world, event).killers <==>
              || (event.Start? && id == |world.commands|)
              || (id in world.killers
                  && !(id < |world.commands| && IsFor(event, id)
                       && (event.Error? || (event.Close? && !world.commands[id].closed))))
  {
    hide TimeoutCommand, KillWaitCommand, ErrorCommand, CloseCommand, LogEndCommand;
  }

  lemma {:induction false} NoClosesHeard()
    ensures FirstClose([]).None?
  {
  }

  lemma {:induction false} ClosedIsRemembered(world: World, heard: seq<Event>, id: nat)
    requires id < |world.commands| ==> Remembers(world.commands[id], heard, id)
    ensures id < |world.commands| ==> (world.commands[id].closed <==> FirstClose(heard).Some?)
  {
  }

  /** The starts that took place: those before the exit. */
  function Starts(events: seq<Event>): seq<Event> {
    if events == [] then []
    else
      var before, last := events[..|events| - 1], events[|events| - 1];
      Starts(before) + if Execute(INITIAL, before).exit.None? && last.Start? then [last] else []
  }

  /** Over all executions: every command has the options it was started with, and a timer
      only if it was given a timeout. */
  lemma {:induction false} CommandsAreStarted(events: seq<Event>, id: nat)
    ensures var last := Execute(INITIAL, events);
            && |last.commands| == |Starts(events)|
            && (id < |last.commands| ==>
                  var command, start := last.commands[id], Starts(events)[id];
                  && start.Start? && command.check == start.check
                  && (command.timer || command.timedOut ==> start.timeout)
                  && (start.timeout && !command.settled ==> command.timer || command.timedOut)
                  && (command.heartbeat <==> start.heartbeat && !command.settled))
  {
    hide CommandOk;
    if events != [] {
      var before, event := events[..|events| - 1], events[|events| - 1];
      var at := Execute(INITIAL, before);
      CommandsAreStarted(before, id);
      assert Starts(before) + [] == Starts(before);
      if at.exit.None? && id < |at.commands| {
        StepOfCommand(at, event, id);
        KeepsOptions(at.commands[id], Step(at, event).commands[id], event, at.forwarded.Some?);
      }
      StepCounts(at, event);
    }
  }

  lemma {:induction false} StepCounts(world: World, event: Event)
    ensures |Step(world, event).commands| == |world.commands| + if world.exit.None? && event.Start? then 1 else 0
  {
    hide TimeoutCommand, KillWaitCommand, ErrorCommand, CloseCommand, LogEndCommand;
  }

  lemma {:induction false} KeepsOptions(command: Command, next: Command, event: Event, forwarding: bool)
    requires if event.Timeout? || event.KillWait? || event.Close? || event.Error? || event.LogEnd?
             then next == CommandAfter(command, event, forwarding) || SameButSent(command, next)
             else SameButSent(command, next)
    ensures next.check == command.check
    ensures next.timer || next.timedOut ==> command.timer || command.timedOut
    ensures !next.settled && (command.timer || command.timedOut) ==> next.timer || next.timedOut
    ensures command.settled ==> next.settled
    ensures next.heartbeat <==> command.heartbeat && (next.settled ==> command.settled)
  {
  }

  /** A signal is passed on to every registered tree, and to no other. */
  lemma {:induction false} SignalReachesTrees(world: World, signal: Signal, id: nat)
    requires world.exit.None? && world.killers != {} && id < |world.commands|
    ensures var next := Step(world, Interrupt(signal));
            && next.exit.None?
            && next.commands[id].sent
               == world.commands[id].sent + if id in world.killers then [Forwarded(signal)] else []
  {
    assert world.commands[id].sent + [] == world.commands[id].sent;
  }

  /** The event that finalizes a command, followed by the end of its log, decides the
      outcome: by the child's exit code unless it timed out or the child's group was
      killed for a forwarded signal, which leaves the promise open. */
  lemma {:induction false} FinalEventDecides(world: World, id: nat, event: Event, failed: bool)
    requires Ok(world) && world.exit.None? && id < |world.commands| && !world.commands[id].settled
    requires event == Error(id) || (event == KillWait(id) && world.commands[id].killWait)
             || (event.Close? && event.id == id)
    ensures var command := world.commands[id];
            Step(Step(world, event), LogEnd(id, failed)).commands[id].outcomes
            == if failed then [LogWriteFailed]
               else match event
                    case Error(_) => [ChildError]
                    case KillWait(_) => [NotTerminated]
                    case Close(_, exitCode) =>
                      if world.forwarded.Some? then []
                      else if command.timedOut then [TimedOut]
                      else if !command.check || exitCode == Some(0) then
                        [Resolved(if exitCode.Some? then exitCode.value else 1)]
                      else [BadExit(if exitCode.Some? then exitCode.value else 1)]
  {
    var command, between := world.commands[id], Step(world, event);
    assert CommandOk(command, world.forwarded.Some?);
    hide CommandOk, Ok;
    StepOfCommand(world, event, id);
    assert between.exit.None?;
    StepOfCommand(between, LogEnd(id, failed), id);
    hide Step;
  }

  /** Without a signal the process never exits by itself, and every command whose log
      stream has ended has settled its promise. */
  lemma {:induction false} NoSignalNoExit(events: seq<Event>)
    requires forall i | 0 <= i < |events| :: !events[i].Interrupt?
    ensures var world := Execute(INITIAL, events);
            && world.exit.None? && world.forwarded.None?
            && forall i | 0 <= i < |world.commands| && world.commands[i].log.Ended? :: |world.commands[i].outcomes| == 1
  {
    if events != [] {
      NoSignalNoExit(events[..|events| - 1]);
      EveryExecutionIsOk(events[..|events| - 1]);
    }
    EveryExecutionIsOk(events);
  }

  lemma {:induction false} SparedIff(world: World, id: nat, signal: Signal, trees: set<nat>, started: nat)
    requires Ok(world) && Pursues(world, signal, trees, started) && started <= id < |world.commands|
    ensures SIGKILL !in world.commands[id].sent <==> id in world.killers && !world.commands[id].timedOut
  {
    assert CommandOk(world.commands[id], true);
  }

  /** Whatever happens before and after the first signal, in whatever interleaving: if
      the process exits, then with the first signal's code, and the last thing sent to
      every tree registered at that signal is SIGKILL. A tree started later was never
      sent SIGKILL exactly if it is still registered and its command has not timed out,
      which only the force-kill timer's exit allows: otherwise the registry is empty.
      Until the process exits, that timer is armed with exactly the trees registered at
      the signal. */
  lemma {:induction false} FirstSignalDecidesExit(before: seq<Event>, signal: Signal, after: seq<Event>)
    requires forall i | 0 <= i < |before| :: !before[i].Interrupt?
    ensures var at := Execute(INITIAL, before);
            var last := Execute(Step(at, Interrupt(signal)), after);
            if last.exit.Some? then
              && last.exit.value.code == (match signal case SIGHUP => 129 case SIGINT => 130 case SIGTERM => 143)
              && (forall id | id in at.killers :: id < |last.commands| && LastSentIsKill(last.commands[id]))
              && (forall id: nat | |at.commands| <= id < |last.commands| ::
                    && (id !in last.killers ==> LastSentIsKill(last.commands[id]))
                    && (SIGKILL !in last.commands[id].sent <==> id in last.killers && !last.commands[id].timedOut))
              && (!last.exit.value.forced ==> last.killers == {})
            else last.forwarded == Some(SignalExitCode(signal)) && last.forceKill == Some(at.killers)
  {
    hide InterruptWorld;
    var at := Execute(INITIAL, before);
    EveryExecutionIsOk(before);
    NoSignalNoExit(before);
    FirstSignalPursues(at, signal);
    InterruptKeepsOk(at, signal);
    ExecutePursues(Step(at, Interrupt(signal)), after, signal, at.killers, |at.commands|);
    var last := Execute(Step(at, Interrupt(signal)), after);
    forall id: nat | |at.commands| <= id < |last.commands|
      ensures SIGKILL !in last.commands[id].sent <==> id in last.killers && !last.commands[id].timedOut
    {
      SparedIff(last, id, signal, at.killers, |at.commands|);
    }
  }

  /** So an exit is always one timer away. */
  lemma {:induction false} ForceKillTimerExits(before: seq<Event>, signal: Signal, after: seq<Event>)
    requires forall i | 0 <= i < |before| :: !before[i].Interrupt?
    ensures Execute(Step(Execute(INITIAL, before), Interrupt(signal)), after + [ForceKillTimer]).exit.Some?
  {
    hide InterruptWorld;
    FirstSignalDecidesExit(before, signal, after);
    assert (after + [ForceKillTimer])[..|after|] == after;
  }

  /** The last registered tree's close, followed by the end of its log stream, exits at
      once exactly if nothing had finalized the command before and its log was written;
      otherwise the exit is left to the force-kill timer. */
  lemma {:induction false} LastCloseExits(world: World, id: nat, exitCode: Option<int>, failed: bool)
    requires Ok(world) && world.exit.None? && world.forwarded.Some?
    requires id < |world.commands| && world.killers == {id} && !world.commands[id].closed
    ensures Step(Step(world, Close(id, exitCode)), LogEnd(id, failed)).exit.Some?
       <==> (!world.commands[id].settled && !failed)
  {
    var command := world.commands[id];
    var closed := Step(world, Close(id, exitCode));
    assert closed.exit.None? && closed.killers == {};
    assert closed.commands[id] == CloseCommand(command, true, exitCode);
    assert CommandOk(command, true);
  }

  lemma {:induction false} ExecuteOneMore(world: World, events: seq<Event>, event: Event)
    ensures Execute(world, events + [event]) == Step(Execute(world, events), event)
  {
    assert (events + [event])[..|events|] == events;
  }

  lemma {:induction false} ExecuteNothing(world: World)
    ensures Execute(world, []) == world
  {
  }

  lemma {:induction false} SignalToOneTree(command: Command)
    ensures Step(World([command], {0}, None, None, None), Interrupt(SIGTERM))
         == World([Send(command, Forwarded(SIGTERM))], {0}, Some(143), Some({0}), None)
  {
    assert SendAll([command], {0}, Forwarded(SIGTERM)) == [Send(command, Forwarded(SIGTERM))];
  }

  lemma {:induction false} OneMoreStart(world: World, start: Event)
    requires start.Start? && world.exit.None?
    ensures Step(world, start)
              == world.(commands := world.commands + [Started(start)], killers := world.killers + {|world.commands|})
  {
  }

  lemma {:induction false} ForcedExitSkipsOthers(first: Command, late: Command)
    ensures var last := Step(World([first, late], {0, 1}, Some(143), Some({0}), None), ForceKillTimer);
            last.exit == Some(Exit(143, true)) && |last.commands| == 2 && last.commands[1] == late
  {
  }

  /** Only the trees of the first signal are sure to be killed at the exit: one started
      between that signal and the force-kill timer is left running. */
  lemma {:induction false} LateTreeSurvivesForcedExit()
    ensures exists events: seq<Event> ::
              var world := Execute(INITIAL, events);
              world.exit == Some(Exit(143, true)) && |world.commands| == 2 && world.commands[1].sent == []
  {
    hide Step, Execute, Send, CommandOk;
    var start := Start(true, false, false);
    var command := Started(start);
    var told := Send(command, Forwarded(SIGTERM));
    assert command.sent == [];
    hide Started;
    ExecuteNothing(INITIAL);
    OneMoreStart(INITIAL, start);
    SignalToOneTree(command);
    OneMoreStart(World([told], {0}, Some(143), Some({0}), None), start);
    ForcedExitSkipsOthers(told, command);
    assert [] + [command] == [command] && [told] + [command] == [told, command] && {} + {0} == {0}
        && {0} + {1} == {0, 1};
    ExecuteOneMore(INITIAL, [], start);
    ExecuteOneMore(INITIAL, [] + [start], Interrupt(SIGTERM));
    ExecuteOneMore(INITIAL, [] + [start] + [Interrupt(SIGTERM)], start);
    ExecuteOneMore(INITIAL, [] + [start] + [Interrupt(SIGTERM)] + [start], ForceKillTimer);
  }
}

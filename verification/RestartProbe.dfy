/** The restart probe (scripts/bench-gateway-restart.ts, `waitForRestartProbe`): polls an
    endpoint across a restart and reports when it went away and came back. */
module RestartProbe {
  import opened Basics

  datatype ErrorKind = Http(status: int) | Named(name: string)

  /** What `requestProbeStatus` resolves to (scripts/lib/gateway-bench-probes.ts). */
  datatype Attempt = Response(code: int) | Unreachable(name: string)

  function StatusOf(attempt: Attempt): Option<int> {
    if attempt.Response? then Some(attempt.code) else None
  }

  function ErrorKindOf(attempt: Attempt): Option<ErrorKind> {
    match attempt
    case Response(code) => if code == 200 then None else Some(Http(code))
    case Unreachable(name) => Some(Named(name))
  }

  predicate IsUp(attempt: Attempt) {
    attempt == Response(200)
  }

  /** One round of the loop before the deadline: what the two callbacks say, the attempt
      if one is made, and the clock after it. */
  datatype Round = Round(processDone: bool, ready: bool, attempt: Attempt, now: real)

  datatype Transition = Transition(ms: real, status: Option<int>, errorKind: Option<ErrorKind>)

  datatype ProbeEvent = ProbeEvent(iteration: int, ms: real, status: Option<int>, path: string,
      errorKind: Option<ErrorKind>)

  datatype ProbeResult = ProbeResult(
    downtimeMs: Option<real>, firstErrorKind: Option<ErrorKind>, firstRecoveryMs: Option<real>, ms: Option<real>,
    status: Option<int>, transitions: seq<Transition>, unavailableMs: Option<real>)

  /** The list of events that several probes append to. */
  class EventLog {
    var events: seq<ProbeEvent>

    constructor ()
      ensures events == []
    {
      events := [];
    }

    method Push(event: ProbeEvent)
      modifies this
      ensures events == old(events) + [event]
    {
      events := events + [event];
    }
  }

  // -------------------------------------------------------------- reading a history

  predicate AllUp(rounds: seq<Round>) {
    forall i | 0 <= i < |rounds| :: IsUp(rounds[i].attempt)
  }

  /** The first round that found the endpoint down, or the end. */
  function FirstDown(rounds: seq<Round>): (i: nat)
    ensures i <= |rounds|
    ensures i < |rounds| ==> !IsUp(rounds[i].attempt)
    ensures AllUp(rounds[..i])
    decreases |rounds|
  {
    if rounds == [] then 0
    else
      var i := FirstDown(rounds[..|rounds| - 1]);
      assert rounds[..|rounds| - 1][..i] == rounds[..i];
      if i < |rounds| - 1 || !IsUp(rounds[|rounds| - 1].attempt) then i else |rounds|
  }

  /** The rounds whose attempt differs from the one before. */
  function Changes(rounds: seq<Round>): seq<Round> {
    if rounds == [] then []
    else
      var before, last := rounds[..|rounds| - 1], rounds[|rounds| - 1];
      Changes(before) + if before != [] && before[|before| - 1].attempt == last.attempt then [] else [last]
  }

  function AsTransitions(changes: seq<Round>, signalSentAt: real): (transitions: seq<Transition>)
    ensures |transitions| == |changes|
    ensures forall i | 0 <= i < |changes| ::
              transitions[i] == Transition(changes[i].now - signalSentAt, StatusOf(changes[i].attempt),
                ErrorKindOf(changes[i].attempt))
  {
    seq(|changes|, i requires 0 <= i < |changes| =>
      Transition(changes[i].now - signalSentAt, StatusOf(changes[i].attempt), ErrorKindOf(changes[i].attempt)))
  }

  function AsEvents(changes: seq<Round>, sampleStartAt: real, iteration: int, path: string): (events: seq<ProbeEvent>)
    ensures |events| == |changes|
    ensures forall i | 0 <= i < |changes| ::
              events[i] == ProbeEvent(iteration, changes[i].now - sampleStartAt, StatusOf(changes[i].attempt), path,
                                      ErrorKindOf(changes[i].attempt))
  {
    seq(|changes|, i requires 0 <= i < |changes| =>
      ProbeEvent(iteration, changes[i].now - sampleStartAt, StatusOf(changes[i].attempt), path,
          ErrorKindOf(changes[i].attempt)))
  }

  /** The tests before the attempt of round `i` let it be made. */
  predicate Tries(rounds: seq<Round>, i: nat)
    requires i < |rounds|
  {
    !rounds[i].processDone && !(rounds[i].ready && i > 0 && AllUp(rounds[..i]))
  }

  /** The loop goes past round `i` to the next one. */
  predicate GoesOn(rounds: seq<Round>, i: nat)
    requires i < |rounds|
  {
    Tries(rounds, i) && (IsUp(rounds[i].attempt) ==> AllUp(rounds[..i]))
  }

  /** The result of a probe that made attempts in exactly these rounds. */
  ghost predicate Describes(result: ProbeResult, made: seq<Round>, signalSentAt: real) {
    var down := FirstDown(made);
    var lastUp := made != [] && IsUp(made[|made| - 1].attempt);
    && result.ms == (if lastUp then Some(made[|made| - 1].now - signalSentAt) else None)
    && result.status == (if made == [] then None else StatusOf(made[|made| - 1].attempt))
    && result.unavailableMs == (if down < |made| then Some(made[down].now - signalSentAt) else None)
    && result.firstErrorKind == (if down < |made| then ErrorKindOf(made[down].attempt) else None)
    && result.downtimeMs == (if lastUp && down < |made| then Some(made[|made| - 1].now - made[down].now) else None)
    && result.firstRecoveryMs == (if lastUp && down < |made| then result.ms else None)
    && result.transitions == AsTransitions(Changes(made), signalSentAt)
  }

  /** Up, then down, then up at most once, at the very end. */
  ghost predicate HasRestartShape(made: seq<Round>) {
    forall i | FirstDown(made) < i < |made| - 1 :: !IsUp(made[i].attempt)
  }

  lemma {:induction false} OneMoreRound(rounds: seq<Round>, n: nat)
    requires n < |rounds|
    ensures var made, more := rounds[..n], rounds[..n + 1];
            && more[..n] == made && (AllUp(made) <==> FirstDown(made) == n)
            && FirstDown(more) == (if FirstDown(made) < n || !IsUp(rounds[n].attempt) then FirstDown(made) else n + 1)
            && Changes(more)
               == Changes(made) + if n > 0 && rounds[n - 1].attempt == rounds[n].attempt then [] else [rounds[n]]
  {
    assert rounds[..n + 1][..n] == rounds[..n];
    assert FirstDown(rounds[..n]) == n ==> rounds[..n][..n] == rounds[..n];
  }

  type StateKey = (Option<int>, Option<ErrorKind>)

  function KeyOf(attempt: Attempt): (key: StateKey) {
    (StatusOf(attempt), ErrorKindOf(attempt))
  }

  lemma {:induction false} OneMoreChange(changes: seq<Round>, round: Round, signalSentAt: real,
                                         sampleStartAt: real, iteration: int, path: string)
    ensures AsTransitions(changes + [round], signalSentAt)
         == AsTransitions(changes, signalSentAt)
            + [Transition(round.now - signalSentAt, StatusOf(round.attempt), ErrorKindOf(round.attempt))]
    ensures AsEvents(changes + [round], sampleStartAt, iteration, path)
         == AsEvents(changes, sampleStartAt, iteration, path)
            + [ProbeEvent(iteration, round.now - sampleStartAt, StatusOf(round.attempt), path,
              ErrorKindOf(round.attempt))]
  {
  }

  /** What the loop has learnt from the first `n` rounds, apart from the transitions. */
  ghost predicate Learnt(rounds: seq<Round>, n: nat, signalSentAt: real, lastStatus: Option<int>,
                         lastSuccessMs: Option<real>, unavailableMs: Option<real>, firstErrorKind: Option<ErrorKind>)
    requires n <= |rounds|
  {
    var down := FirstDown(rounds[..n]);
    && (forall j | down <= j < n :: !IsUp(rounds[j].attempt))
    && lastStatus == (if n == 0 then None else StatusOf(rounds[n - 1].attempt))
    && unavailableMs == (if down < n then Some(rounds[down].now - signalSentAt) else None)
    && firstErrorKind == (if down < n then ErrorKindOf(rounds[down].attempt) else None)
    && (down == n ==> lastSuccessMs == if n == 0 then None else Some(rounds[n - 1].now - signalSentAt))
  }

  /** A round that does not bring the endpoint back. */
  lemma {:induction false} LearnMore(rounds: seq<Round>, n: nat, signalSentAt: real, lastStatus: Option<int>,
                                     lastSuccessMs: Option<real>, unavailableMs: Option<real>,
                                     firstErrorKind: Option<ErrorKind>)
    requires n < |rounds| && Learnt(rounds, n, signalSentAt, lastStatus, lastSuccessMs, unavailableMs, firstErrorKind)
    requires IsUp(rounds[n].attempt) ==> unavailableMs.None?
    ensures var round := rounds[n];
            Learnt(rounds, n + 1, signalSentAt, StatusOf(round.attempt),
                   if IsUp(round.attempt) then Some(round.now - signalSentAt) else lastSuccessMs,
                   if IsUp(round.attempt) || unavailableMs.Some? then unavailableMs else Some(round.now - signalSentAt),
                   if firstErrorKind.Some? then firstErrorKind else ErrorKindOf(round.attempt))
  {
    OneMoreRound(rounds, n);
    hide FirstDown, Changes;
  }

  /** What is learnt describes the result of a probe that ends without a recovery. */
  lemma {:induction false} LearntDescribes(rounds: seq<Round>, n: nat, signalSentAt: real, lastStatus: Option<int>,
                                           lastSuccessMs: Option<real>, unavailableMs: Option<real>,
                                           firstErrorKind: Option<ErrorKind>)
    requires n <= |rounds| && Learnt(rounds, n, signalSentAt, lastStatus, lastSuccessMs, unavailableMs, firstErrorKind)
    ensures var made := rounds[..n];
            && HasRestartShape(made)
            && (unavailableMs.None? <==> AllUp(made))
            && (unavailableMs.None? && lastSuccessMs.Some? <==> n > 0 && AllUp(made))
            && (unavailableMs.None? && lastSuccessMs.Some? ==> lastStatus == Some(200))
            && Describes(ProbeResult(None, firstErrorKind, None,
                                     if unavailableMs.None? then lastSuccessMs else None, lastStatus,
                                     AsTransitions(Changes(made), signalSentAt), unavailableMs), made, signalSentAt)
  {
    var made := rounds[..n];
    hide Changes;
    assert forall j | 0 <= j < n :: made[j] == rounds[j];
    if FirstDown(made) == n {
      assert made[..n] == made;
      assert n > 0 ==> IsUp(made[n - 1].attempt);
    } else {
      assert !IsUp(made[n - 1].attempt) && !IsUp(made[FirstDown(made)].attempt);
    }
  }

  /** A round that finds the endpoint up again. */
  lemma {:induction false} RecoveryDescribes(rounds: seq<Round>, n: nat, signalSentAt: real, lastStatus: Option<int>,
                                             lastSuccessMs: Option<real>, unavailableMs: Option<real>,
                                             firstErrorKind: Option<ErrorKind>)
    requires n < |rounds| && Learnt(rounds, n, signalSentAt, lastStatus, lastSuccessMs, unavailableMs, firstErrorKind)
    requires IsUp(rounds[n].attempt) && unavailableMs.Some?
    ensures var made, elapsedMs := rounds[..n + 1], rounds[n].now - signalSentAt;
            && HasRestartShape(made) && !GoesOn(rounds, n) && firstErrorKind.Some?
            && Describes(ProbeResult(Some(elapsedMs - unavailableMs.value), firstErrorKind, Some(elapsedMs),
              Some(elapsedMs), Some(200),
                                     AsTransitions(Changes(made), signalSentAt), unavailableMs), made, signalSentAt)
  {
    OneMoreRound(rounds, n);
    hide FirstDown, Changes;
    var made := rounds[..n + 1];
    assert forall j | 0 <= j <= n :: made[j] == rounds[j];
  }

  /** The probe, on the rounds that fit before the deadline. `made` is how many attempts
      it made; it stops after them for one of the four reasons, and no earlier. */
  method WaitForRestartProbe(rounds: seq<Round>, log: EventLog, iteration: int, path: string,
                             sampleStartAt: real, signalSentAt: real)
    returns (result: ProbeResult, ghost made: nat)
    modifies log
    ensures made <= |rounds| && Describes(result, rounds[..made], signalSentAt)
    ensures HasRestartShape(rounds[..made])
    ensures log.events == old(log.events) + AsEvents(Changes(rounds[..made]), sampleStartAt, iteration, path)
    ensures forall i | 0 <= i < made :: Tries(rounds, i) && (i < made - 1 ==> GoesOn(rounds, i))
    ensures made < |rounds| ==> !Tries(rounds, made) || (made > 0 && !GoesOn(rounds, made - 1))
  {
    hide FirstDown, Changes, Describes, HasRestartShape, Learnt, AsTransitions, AsEvents, AllUp;
    var firstErrorKind: Option<ErrorKind> := None;
    var firstRecoveryMs: Option<real> := None;
    var lastStatus: Option<int> := None;
    var lastStateKey: Option<StateKey> := None;
    var lastSuccessMs: Option<real> := None;
    var unavailableMs: Option<real> := None;
    var transitions: seq<Transition> := [];
    made := 0;
    NothingLearnt(rounds, signalSentAt, sampleStartAt, iteration, path);
    for i := 0 to |rounds|
      invariant made == i && firstRecoveryMs.None?
      invariant forall j | 0 <= j < i :: Tries(rounds, j) && GoesOn(rounds, j)
      invariant Learnt(rounds, i, signalSentAt, lastStatus, lastSuccessMs, unavailableMs, firstErrorKind)
      invariant lastStateKey == if i == 0 then None else Some(KeyOf(rounds[i - 1].attempt))
      invariant transitions == AsTransitions(Changes(rounds[..i]), signalSentAt)
      invariant log.events == old(log.events) + AsEvents(Changes(rounds[..i]), sampleStartAt, iteration, path)
    {
      OneMoreRound(rounds, i);
      LearntDescribes(rounds, i, signalSentAt, lastStatus, lastSuccessMs, unavailableMs, firstErrorKind);
      if rounds[i].processDone {
        break;
      }
      if rounds[i].ready && unavailableMs.None? && lastSuccessMs.Some? {
        result := ProbeResult(None, firstErrorKind, firstRecoveryMs, lastSuccessMs, Some(200), transitions, None);
        return;
      }
      var attempt, now := rounds[i].attempt, rounds[i].now;
      var elapsedMs := now - signalSentAt;
      made := made + 1;
      if IsUp(attempt) && unavailableMs.Some? {
        RecoveryDescribes(rounds, i, signalSentAt, lastStatus, lastSuccessMs, unavailableMs, firstErrorKind);
      } else {
        LearnMore(rounds, i, signalSentAt, lastStatus, lastSuccessMs, unavailableMs, firstErrorKind);
      }
      lastStatus := StatusOf(attempt);
      var stateKey := KeyOf(attempt);
      if lastStateKey != Some(stateKey) {
        OneMoreChange(Changes(rounds[..i]), rounds[i], signalSentAt, sampleStartAt, iteration, path);
        transitions := transitions + [Transition(elapsedMs, StatusOf(attempt), ErrorKindOf(attempt))];
        log.Push(ProbeEvent(iteration, now - sampleStartAt, StatusOf(attempt), path, ErrorKindOf(attempt)));
        lastStateKey := Some(stateKey);
      }
      if ErrorKindOf(attempt).Some? && firstErrorKind.None? {
        firstErrorKind := ErrorKindOf(attempt);
      }
      if StatusOf(attempt) != Some(200) && unavailableMs.None? {
        unavailableMs := Some(elapsedMs);
      }
      if StatusOf(attempt) == Some(200) {
        lastSuccessMs := Some(elapsedMs);
      }
      if StatusOf(attempt) == Some(200) && unavailableMs.Some? {
        firstRecoveryMs := Some(elapsedMs);
        assert transitions == AsTransitions(Changes(rounds[..made]), signalSentAt);
        result := ProbeResult(Some(elapsedMs - unavailableMs.value), firstErrorKind, firstRecoveryMs, Some(elapsedMs),
                              StatusOf(attempt), transitions, unavailableMs);
        return;
      }
    }
    LearntDescribes(rounds, made, signalSentAt, lastStatus, lastSuccessMs, unavailableMs, firstErrorKind);
    result := ProbeResult(None, firstErrorKind, firstRecoveryMs, if unavailableMs.None? then lastSuccessMs else None,
                          lastStatus, transitions, unavailableMs);
  }

  lemma {:induction false} NothingLearnt(rounds: seq<Round>, signalSentAt: real, sampleStartAt: real, iteration: int,
        path: string)
    ensures Learnt(rounds, 0, signalSentAt, None, None, None, None)
    ensures AsTransitions(Changes(rounds[..0]), signalSentAt) == []
              && AsEvents(Changes(rounds[..0]), sampleStartAt, iteration, path) == []
  {
  }

  // ------------------------------------------------------------- about the result

  /** Consecutive transitions differ in status or error kind. Those of the first n
      attempts come first, and the last of them tells the state that the n-th attempt
      found, and its time if it found another one than the attempt before. */
  lemma {:induction false} TransitionsTellAttempts(made: seq<Round>, n: nat, signalSentAt: real)
    requires n <= |made|
    ensures var upTo := AsTransitions(Changes(made[..n]), signalSentAt);
            var all := AsTransitions(Changes(made), signalSentAt);
            && upTo <= all && (n == 0 <==> upTo == [])
            && (forall i, j | 0 <= i < |all| && 0 <= j < |all| && j == i + 1 ::
                  all[i].(ms := 0.0) != all[j].(ms := 0.0))
            && (n > 0 ==>
                  var round, last := made[n - 1], upTo[|upTo| - 1];
                  && last.status == StatusOf(round.attempt) && last.errorKind == ErrorKindOf(round.attempt)
                  && (n == 1 || made[n - 2].attempt != round.attempt ==> last.ms == round.now - signalSentAt))
  {
    ChangesDiffer(made);
    ChangesGrow(made, n);
    ChangesDiffer(made[..n]);
    hide Changes;
    var some, changes := Changes(made[..n]), Changes(made);
    forall i, j | 0 <= i < |changes| && 0 <= j < |changes| && j == i + 1
      ensures AsTransitions(changes, signalSentAt)[i].(ms := 0.0) != AsTransitions(changes, signalSentAt)[j].(ms := 0.0)
    {
      KeyTellsAttempt(changes[i].attempt, changes[j].attempt);
    }
  }

  lemma {:induction false} KeyTellsAttempt(a: Attempt, b: Attempt)
    ensures StatusOf(a) == StatusOf(b) && ErrorKindOf(a) == ErrorKindOf(b) ==> a == b
  {
  }

  lemma {:induction false} ChangesDiffer(made: seq<Round>)
    ensures var changes := Changes(made);
            && (made == [] <==> changes == [])
            && (forall i, j | 0 <= i < |changes| && 0 <= j < |changes| && j == i + 1 ::
                  changes[i].attempt != changes[j].attempt)
            && (made != [] ==>
                  var last, n := changes[|changes| - 1], |made|;
                  && last.attempt == made[n - 1].attempt
                  && (n == 1 || made[n - 2].attempt != made[n - 1].attempt ==> last == made[n - 1]))
    decreases |made|
  {
    if made != [] {
      ChangesDiffer(made[..|made| - 1]);
    }
  }

  lemma {:induction false} ChangesGrow(made: seq<Round>, n: nat)
    requires n <= |made|
    ensures Changes(made[..n]) <= Changes(made)
    decreases |made|
  {
    if n < |made| {
      ChangesGrow(made[..|made| - 1], n);
      assert made[..|made| - 1][..n] == made[..n];
    } else {
      assert made[..n] == made;
    }
  }

  /** On a clock that does not go backwards, the downtime is not negative and lies
      between leaving and coming back. */
  lemma {:induction false} DowntimeIsNotNegative(result: ProbeResult, made: seq<Round>, signalSentAt: real)
    requires Describes(result, made, signalSentAt) && result.downtimeMs.Some?
    requires forall i, j | 0 <= i < j < |made| :: made[i].now <= made[j].now
    ensures result.downtimeMs.value >= 0.0 && result.ms.Some? && result.unavailableMs.Some?
    ensures result.ms.value == result.unavailableMs.value + result.downtimeMs.value
  {
  }
}

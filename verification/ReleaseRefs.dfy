/** Recording a mobile release under a write-once ref (scripts/mobile-release-ref.ts).

    A record reads the ref, pushes with a lease that expects it to be absent, and reads
    it back. Any number of records run against one remote, interleaved at every git
    call, next to people who paste the printed recovery command. A git call may fail,
    and a push may be reported as failed although the remote accepted it. */
module ReleaseRefs {
  import opened Basics

  type Refs = map<string, string>

  /** What the remote makes of a leased push: it accepts an absent ref, and has nothing
      to do when the ref is already there; it refuses to move a ref. */
  predicate Accepts(refs: Refs, ref: string, sha: string) {
    ref !in refs || refs[ref] == sha
  }

  function Pushed(refs: Refs, ref: string, sha: string): Refs {
    if Accepts(refs, ref, sha) then refs[ref := sha] else refs
  }

  function ReadRef(refs: Refs, ref: string): Option<string> {
    if ref in refs then Some(refs[ref]) else None
  }

  /** How a git call fares: a push may get lost before or after it took effect. */
  datatype Network = Works | LostBefore | LostAfter

  datatype Status = Created | AlreadyRecorded

  datatype Stage = Starting | Available | WasPushed | Recorded(status: Status) | Rejected

  /** One `recordMobileReleaseRef`, past the checks that need no remote. */
  datatype Run = Run(ref: string, sha: string, stage: Stage)

  datatype World = World(refs: Refs, runs: seq<Run>)

  /** `GitCall` is the next git call of a run. */
  datatype Event =
    | Begin(ref: string, sha: string)
    | GitCall(id: nat, network: Network)
    | Recovery(ref: string, sha: string)

  /** A read fails, or the run moves on with what the ref holds at that moment. */
  function AfterRead(run: Run, found: Option<string>, network: Network): Run {
    if !network.Works? then run.(stage := Rejected)
    else if run.stage.Starting? then
      run.(stage := if found.None? then Available
                    else if found.value == run.sha then Recorded(AlreadyRecorded)
                    else Rejected)
    else run.(stage := if found == Some(run.sha) then Recorded(Created) else Rejected)
  }

  function CallStep(world: World, id: nat, network: Network): (next: World)
    requires id < |world.runs|
    ensures |next.runs| == |world.runs|
  {
    var run := world.runs[id];
    match run.stage
    case Recorded(_) => world
    case Rejected => world
    case Available =>
      World(if network.LostBefore? then world.refs else Pushed(world.refs, run.ref, run.sha),
            world.runs[id := run.(stage := if network.Works? && Accepts(world.refs, run.ref, run.sha) then WasPushed
                                           else Rejected)])
    case _ => World(world.refs, world.runs[id := AfterRead(run, ReadRef(world.refs, run.ref), network)])
  }

  function Step(world: World, event: Event): World {
    match event
    case Begin(ref, sha) => World(world.refs, world.runs + [Run(ref, sha, Starting)])
    case GitCall(id, network) => if id < |world.runs| then CallStep(world, id, network) else world
    case Recovery(ref, sha) => World(Pushed(world.refs, ref, sha), world.runs)
  }

  function Execute(world: World, events: seq<Event>): World {
    if events == [] then world else Step(Execute(world, events[..|events| - 1]), events[|events| - 1])
  }

  /** A run past its push, or recorded, has its sha on the remote. */
  ghost predicate Ok(world: World) {
    forall i | 0 <= i < |world.runs| && (world.runs[i].stage.WasPushed? || world.runs[i].stage.Recorded?) ::
      ReadRef(world.refs, world.runs[i].ref) == Some(world.runs[i].sha)
  }

  /** Nothing recorded is lost or moved: `later` has every ref of `earlier`. */
  ghost predicate Extends(later: Refs, earlier: Refs) {
    forall ref | ref in earlier :: ref in later && later[ref] == earlier[ref]
  }

  lemma {:induction false} StepExtends(world: World, event: Event)
    ensures Extends(Step(world, event).refs, world.refs)
    ensures |world.runs| <= |Step(world, event).runs|
    ensures forall i | 0 <= i < |world.runs| ::
              && Step(world, event).runs[i].ref == world.runs[i].ref
              && Step(world, event).runs[i].sha == world.runs[i].sha
              && (world.runs[i].stage.Recorded? ==> Step(world, event).runs[i] == world.runs[i])
  {
  }

  lemma {:induction false} StepKeepsOk(world: World, event: Event)
    requires Ok(world)
    ensures Ok(Step(world, event))
  {
    StepExtends(world, event);
  }

  /** A ref never changes once it is set, and a recorded run stays recorded, whatever
      the runs, the network and the people do next. */
  lemma {:induction false} WriteOnce(world: World, events: seq<Event>)
    requires Ok(world)
    ensures Ok(Execute(world, events))
    ensures Extends(Execute(world, events).refs, world.refs)
    ensures |world.runs| <= |Execute(world, events).runs|
    ensures forall i | 0 <= i < |world.runs| ::
              && Execute(world, events).runs[i].ref == world.runs[i].ref
              && Execute(world, events).runs[i].sha == world.runs[i].sha
              && (world.runs[i].stage.Recorded? ==> Execute(world, events).runs[i] == world.runs[i])
  {
    if events != [] {
      WriteOnce(world, events[..|events| - 1]);
      StepKeepsOk(Execute(world, events[..|events| - 1]), events[|events| - 1]);
      StepExtends(Execute(world, events[..|events| - 1]), events[|events| - 1]);
    }
  }

  /** In every execution from a remote in any state: all runs that report success for a
      ref agree on its sha, which is what the remote holds and what every later read of
      it finds; no run for another sha ever succeeds, from whatever moment the ref is
      set, even if its preflight found the ref free. */
  lemma {:induction false} Agreement(refs: Refs, events: seq<Event>, later: seq<Event>)
    ensures var now := Execute(World(refs, []), events);
            var last := Execute(now, later);
            && (forall i, j | 0 <= i < |last.runs| && 0 <= j < |last.runs|
                  && last.runs[i].stage.Recorded? && last.runs[j].stage.Recorded?
                  && last.runs[i].ref == last.runs[j].ref :: last.runs[i].sha == last.runs[j].sha)
            && (forall i | 0 <= i < |now.runs| && now.runs[i].stage.Recorded? ::
                  ReadRef(last.refs, now.runs[i].ref) == Some(now.runs[i].sha))
            && (forall i | 0 <= i < |last.runs| && last.runs[i].ref in now.refs
                  && now.refs[last.runs[i].ref] != last.runs[i].sha :: !last.runs[i].stage.Recorded?)
  {
    WriteOnce(World(refs, []), events);
    WriteOnce(Execute(World(refs, []), events), later);
  }

  /** The read-back never contradicts a push that was reported as done: a run past its
      push is rejected only if the read itself fails. */
  lemma {:induction false} ReadBackFindsPush(refs: Refs, events: seq<Event>, id: nat, network: Network)
    requires var world := Execute(World(refs, []), events); id < |world.runs| && world.runs[id].stage.WasPushed?
    ensures Step(Execute(World(refs, []), events), GitCall(id, network)).runs[id].stage
         == if network.Works? then Recorded(Created) else Rejected
  {
    WriteOnce(World(refs, []), events);
  }

  /** An answer of the preflight is not a reservation: once someone else has set the ref,
      a run that was told "available" can only end rejected, whatever comes between, and
      its own push leaves the ref as it is. */
  lemma {:induction false} AvailableIsNoReservation(world: World, later: seq<Event>, id: nat)
    requires Ok(world) && id < |world.runs| && world.runs[id].stage.Available?
    requires world.runs[id].ref in world.refs && world.refs[world.runs[id].ref] != world.runs[id].sha
    ensures var run, last := world.runs[id], Execute(world, later);
            && id < |last.runs| && (last.runs[id] == run || last.runs[id] == run.(stage := Rejected))
            && ReadRef(last.refs, run.ref) == Some(world.refs[run.ref])
  {
    if later != [] {
      var before, event := later[..|later| - 1], later[|later| - 1];
      AvailableIsNoReservation(world, before, id);
      StepExtends(Execute(world, before), event);
      if event.GitCall? && event.id == id {
        assert !Accepts(Execute(world, before).refs, world.runs[id].ref, world.runs[id].sha);
      }
    }
  }

  /** A push that seems to fail may have recorded the release: the run is rejected, and the
      next run for the same commit finds it already recorded. */
  lemma {:induction false} LostPushIsRecorded(refs: Refs, ref: string, sha: string)
    requires ref !in refs
    ensures var lost := Step(World(refs, [Run(ref, sha, Available)]), GitCall(0, LostAfter));
            && lost.runs == [Run(ref, sha, Rejected)] && ReadRef(lost.refs, ref) == Some(sha)
            && Step(Step(lost, Begin(ref, sha)), GitCall(1, Works)).runs
               == [Run(ref, sha, Rejected), Run(ref, sha, Recorded(AlreadyRecorded))]
  {
    var world := World(refs, [Run(ref, sha, Available)]);
    assert world.runs[0] == Run(ref, sha, Available);
    var lost := Step(world, GitCall(0, LostAfter));
    assert lost == World(refs[ref := sha], [Run(ref, sha, Rejected)]);
    var begun := Step(lost, Begin(ref, sha));
    assert begun.runs[1] == Run(ref, sha, Starting);
  }

  /** The read-back decides, whatever happened to the ref since the push, even if somebody
      moved or deleted it by force: "created" is reported exactly if the ref can be read
      and holds the commit, and reading changes nothing. */
  lemma {:induction false} ReadBackDecides(world: World, id: nat, network: Network)
    requires id < |world.runs| && world.runs[id].stage == WasPushed
    ensures var run := world.runs[id];
            var next := Step(world, GitCall(id, network));
            && next.refs == world.refs
            && (next.runs[id].stage == Recorded(Created) <==>
                  network == Works && run.ref in world.refs && world.refs[run.ref] == run.sha)
            && (next.runs[id].stage != Recorded(Created) ==> next.runs[id].stage == Rejected)
            && (forall i | 0 <= i < |world.runs| && i != id :: next.runs[i] == world.runs[i])
  {
    var run := world.runs[id];
    var next := Step(world, GitCall(id, network));
    assert next.runs[id] == AfterRead(run, ReadRef(world.refs, run.ref), network);
  }

  lemma {:induction false} TwoRunsInStep(ref: string, sha: string)
    ensures var both := (refs, stage) => World(refs, [Run(ref, sha, stage), Run(ref, sha, stage)]);
            && CallStep(CallStep(both(map[], Starting), 0, Works), 1, Works) == both(map[], Available)
            && CallStep(CallStep(both(map[], Available), 0, Works), 1, Works) == both(map[ref := sha], WasPushed)
            && CallStep(CallStep(both(map[ref := sha], WasPushed), 0, Works), 1, Works)
              == both(map[ref := sha], Recorded(Created))
  {
    hide Execute;
  }

  /** "Created" is not exclusive: two runs for one commit may both report it. */
  lemma {:induction false} TwoRunsMayReportCreated(ref: string, sha: string)
    ensures exists events: seq<Event> ::
              Execute(World(map[], []), events).runs
                  == [Run(ref, sha, Recorded(Created)), Run(ref, sha, Recorded(Created))]
  {
    hide CallStep, Execute;
    var begun := TwoRunsBegin(ref, sha);
    var calls := [GitCall(0, Works), GitCall(1, Works)];
    TwoRunsInStep(ref, sha);
    TwoCallsMore(World(map[], []), begun);
    TwoCallsMore(World(map[], []), begun + calls);
    TwoCallsMore(World(map[], []), begun + calls + calls);
  }

  lemma {:induction false} TwoRunsBegin(ref: string, sha: string) returns (events: seq<Event>)
    ensures Execute(World(map[], []), events) == World(map[], [Run(ref, sha, Starting), Run(ref, sha, Starting)])
  {
    hide CallStep, Execute;
    var empty := World(map[], []);
    ExecuteNothing(empty);
    TwoMore(empty, [], Begin(ref, sha), Begin(ref, sha));
    events := [] + [Begin(ref, sha), Begin(ref, sha)];
  }

  lemma {:induction false} ExecuteNothing(world: World)
    ensures Execute(world, []) == world
  {
  }

  lemma {:induction false} TwoCallsMore(world: World, events: seq<Event>)
    requires |Execute(world, events).runs| == 2
    ensures Execute(world, events + [GitCall(0, Works), GitCall(1, Works)])
         == CallStep(CallStep(Execute(world, events), 0, Works), 1, Works)
  {
    hide CallStep, Execute;
    TwoMore(world, events, GitCall(0, Works), GitCall(1, Works));
  }

  lemma {:induction false} TwoMore(world: World, events: seq<Event>, first: Event, second: Event)
    ensures Execute(world, events + [first, second]) == Step(Step(Execute(world, events), first), second)
  {
    assert (events + [first, second])[..|events| + 1] == events + [first];
    assert (events + [first])[..|events|] == events;
  }

  // ------------------------------------------------------ one record, call by call

  datatype RecordResult =
    | Done(status: Status)
    | GitFailed
    | AlreadyPointsAt(sha: string)
    | NotRecorded(found: Option<string>)

  /** What other people push between two git calls of a record. */
  function PushedByOthers(refs: Refs, others: seq<(string, string)>): Refs {
    if others == [] then refs
    else Pushed(PushedByOthers(refs, others[..|others| - 1]), others[|others| - 1].0, others[|others| - 1].1)
  }

  lemma {:induction false} OthersExtend(refs: Refs, others: seq<(string, string)>)
    ensures Extends(PushedByOthers(refs, others), refs)
  {
    if others != [] {
      OthersExtend(refs, others[..|others| - 1]);
    }
  }

  /** The remote repository. */
  class Remote {
    var refs: Refs

    constructor (refs: Refs)
      ensures this.refs == refs
    {
      this.refs := refs;
    }

    method Interfere(others: seq<(string, string)>)
      modifies this
      ensures refs == PushedByOthers(old(refs), others)
    {
      for i := 0 to |others|
        invariant refs == PushedByOthers(old(refs), others[..i])
      {
        assert others[..i + 1][..i] == others[..i];
        refs := Pushed(refs, others[i].0, others[i].1);
      }
      assert others[..|others|] == others;
    }

    method Push(ref: string, sha: string, network: Network) returns (ok: bool)
      modifies this
      ensures refs == if network.LostBefore? then old(refs) else Pushed(old(refs), ref, sha)
      ensures ok == (network.Works? && Accepts(old(refs), ref, sha))
    {
      ok := network.Works? && Accepts(refs, ref, sha);
      if !network.LostBefore? {
        refs := Pushed(refs, ref, sha);
      }
    }
  }

  /** `preflightMobileReleaseRef`, past the checks that need no remote; `None` is
      "available". */
  method Preflight(remote: Remote, ref: string, sha: string, network: Network) returns (result: Option<RecordResult>)
    ensures result == if !network.Works? then Some(GitFailed)
                      else if ref !in remote.refs then None
                      else if remote.refs[ref] == sha then Some(Done(AlreadyRecorded))
                      else Some(AlreadyPointsAt(remote.refs[ref]))
  {
    if !network.Works? {
      return Some(GitFailed);
    }
    var existing := ReadRef(remote.refs, ref);
    if existing.None? {
      return None;
    }
    if existing.value == sha {
      return Some(Done(AlreadyRecorded));
    }
    return Some(AlreadyPointsAt(existing.value));
  }

  /** The same record as a run of the state machine: three git calls, with the pushes
      of others in between. */
  ghost function Script(networks: (Network, Network, Network),
        others: (seq<(string, string)>, seq<(string, string)>)): seq<Event> {
    [GitCall(0, networks.0)] + Recoveries(others.0) + [GitCall(0, networks.1)] + Recoveries(others.1)
      + [GitCall(0, networks.2)]
  }

  ghost function Recoveries(others: seq<(string, string)>): (events: seq<Event>)
    ensures |events| == |others|
  {
    seq(|others|, i requires 0 <= i < |others| => Recovery(others[i].0, others[i].1))
  }

  lemma {:induction false} ExecuteOneMore(world: World, events: seq<Event>, event: Event)
    ensures Execute(world, events + [event]) == Step(Execute(world, events), event)
  {
    assert (events + [event])[..|events|] == events;
  }

  lemma {:induction false} ExecuteRecoveries(world: World, events: seq<Event>, others: seq<(string, string)>)
    ensures Execute(world, events + Recoveries(others))
         == World(PushedByOthers(Execute(world, events).refs, others), Execute(world, events).runs)
  {
    if others == [] {
      assert events + Recoveries(others) == events;
    } else {
      var fewer, last := others[..|others| - 1], others[|others| - 1];
      ExecuteRecoveries(world, events, fewer);
      assert events + Recoveries(others) == (events + Recoveries(fewer)) + [Recovery(last.0, last.1)];
      ExecuteOneMore(world, events + Recoveries(fewer), Recovery(last.0, last.1));
    }
  }

  lemma {:induction false} ExecuteScript(refs: Refs, run: Run, networks: (Network, Network, Network),
                                         others: (seq<(string, string)>, seq<(string, string)>))
    ensures var w1 := Step(World(refs, [run]), GitCall(0, networks.0));
            var w2 := Step(World(PushedByOthers(w1.refs, others.0), w1.runs), GitCall(0, networks.1));
            Execute(World(refs, [run]), Script(networks, others))
            == Step(World(PushedByOthers(w2.refs, others.1), w2.runs), GitCall(0, networks.2))
  {
    hide Step;
    var world := World(refs, [run]);
    ExecuteOneMore(world, [], GitCall(0, networks.0));
    assert [] + [GitCall(0, networks.0)] == [GitCall(0, networks.0)];
    ExecuteRecoveries(world, [GitCall(0, networks.0)], others.0);
    ExecuteOneMore(world, [GitCall(0, networks.0)] + Recoveries(others.0), GitCall(0, networks.1));
    ExecuteRecoveries(world, [GitCall(0, networks.0)] + Recoveries(others.0) + [GitCall(0, networks.1)], others.1);
    ExecuteOneMore(world, [GitCall(0, networks.0)] + Recoveries(others.0) + [GitCall(0, networks.1)]
        + Recoveries(others.1),
                   GitCall(0, networks.2));
  }

  /** `recordMobileReleaseRef` with others pushing before each of its last two git
      calls. If no call fails it succeeds exactly when the remote ends with the ref at
      its sha, which then is not due to anyone moving the ref. */
  method Record(remote: Remote, ref: string, sha: string, networks: (Network, Network, Network),
                others: (seq<(string, string)>, seq<(string, string)>))
    returns (result: RecordResult)
    modifies remote
    ensures Extends(remote.refs, old(remote.refs))
    ensures result.Done? ==> ReadRef(remote.refs, ref) == Some(sha)
    ensures result == Done(AlreadyRecorded) <==> networks.0.Works? && ReadRef(old(remote.refs), ref) == Some(sha)
    ensures networks == (Works, Works, Works) ==> (result.Done? <==> ReadRef(remote.refs, ref) == Some(sha))
    ensures !result.NotRecorded?
    ensures forall taken :: result == AlreadyPointsAt(taken) <==>
              networks.0.Works? && taken != sha && ReadRef(old(remote.refs), ref) == Some(taken)
    ensures Execute(World(old(remote.refs), [Run(ref, sha, Starting)]), Script(networks, others)).runs
         == [Run(ref, sha, if result.Done? then Recorded(result.status) else Rejected)]
  {
    ExecuteScript(remote.refs, Run(ref, sha, Starting), networks, others);
    var preflight := Preflight(remote, ref, sha, networks.0);
    if preflight.Some? {
      return preflight.value;
    }
    OthersExtend(remote.refs, others.0);
    remote.Interfere(others.0);
    ghost var before := remote.refs;
    var pushed := remote.Push(ref, sha, networks.1);
    assert Extends(remote.refs, before);
    if !pushed {
      return GitFailed;
    }
    OthersExtend(remote.refs, others.1);
    remote.Interfere(others.1);
    if !networks.2.Works? {
      return GitFailed;
    }
    var recorded := ReadRef(remote.refs, ref);
    if recorded != Some(sha) {
      return NotRecorded(recorded);
    }
    return Done(Created);
  }

  /** `resolveMobileReleaseRef`, past the checks that need no remote. */
  method Resolve(remote: Remote, ref: string, network: Network) returns (sha: Option<string>)
    ensures sha == if network.Works? then ReadRef(remote.refs, ref) else None
  {
    if !network.Works? {
      return None;
    }
    sha := ReadRef(remote.refs, ref);
  }

  /** A later resolve finds what a successful record reported, and a later record of
      another commit under the same ref fails, whatever the network and other people do
      in the meantime. */
  method RecordThenResolve(remote: Remote, ref: string, sha: string, other: string,
                           networks: (Network, Network, Network), laterNetworks: (Network, Network, Network),
                           others: (seq<(string, string)>, seq<(string, string)>),
                           laterOthers: (seq<(string, string)>, seq<(string, string)>), between: seq<(string, string)>)
    returns (first: RecordResult, second: RecordResult, found: Option<string>)
    requires sha != other
    modifies remote
    ensures first.Done? ==> found == Some(sha) && !second.Done?
  {
    first := Record(remote, ref, sha, networks, others);
    OthersExtend(remote.refs, between);
    remote.Interfere(between);
    second := Record(remote, ref, other, laterNetworks, laterOthers);
    found := Resolve(remote, ref, Works);
  }
}

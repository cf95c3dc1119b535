/**
  * Runs of the pod lifecycle that end where one would not expect: replies the code calls
  * impossible, a server that is lost because the one before it ended early, an address that is
  * never given back.
  */
module LifecycleScenarios {
  import opened Prelude
  import opened Lifecycle
  import opened Custody
  import opened CustodyKept
  import opened LifecycleRuns
  import opened LifecycleCells
  import opened LifecycleAddresses

  const FIRST := Params(Some(Metadata("app", 0)), map[], map[], map[], None)
  const AGAIN := Params(Some(Metadata("app", 1)), map[], map[], map[], None)

  lemma Then(steps: seq<Step>, step: Step) returns (more: seq<Step>)
    requires IsRun(steps) && Enabled(After(steps), step)
    ensures more == steps + [step] && IsRun(more) && After(more) == Apply(After(steps), step)
  {
    more := steps + [step];
    hide Apply, Enabled;
    assert more[..|more| - 1] == steps;
  }

  function OnePod(x: Pod, routes: seq<RoutesStatus>): Node {
    START.(pods := map[0 := x], nextPod := 1, routes := routes, leased := {7}, addressOf := map[0 := 7])
  }

  /** Pod 0 at address 7, its container created. */
  lemma Created() returns (steps: seq<Step>)
    ensures IsRun(steps) && After(steps) == OnePod(Pod(PodState.Created, 7, FIRST, Some(0), None), [Pending])
    ensures forall i | 0 <= i < |steps| :: !steps[i].EndServer?
  {
    steps := Then([], InitPod(0));
    steps := Then(steps, ObtainAddress(0, Some(7)));
    assert After(steps).calls == map[0 := InitAddressed(0, 7)];
    steps := Then(steps, InsertPod(0));
    assert After(steps) == OnePod(NewPod(7), []);
    steps := Then(steps, CreateContainer(0, FIRST));
  }

  /** The routes a start waited for fail, the container is created again, and the start is told the impossible. */
  lemma JugglingHappens() returns (steps: seq<Step>)
    ensures IsRun(steps) && Enabled(After(steps), RetryStart(1))
    ensures ReplyTo(After(steps), RetryStart(1)) == Fails(RoutesJuggled)
  {
    steps := Created();
    hide IsRun, After;
    steps := AwaitFailed(steps);
    steps := Then(steps, CreateContainer(0, AGAIN));
    assert After(steps).pods[0].routes == Some(1) && After(steps).routes == [Failed, Pending];
  }

  lemma AwaitFailed(before: seq<Step>) returns (steps: seq<Step>)
    requires IsRun(before)
    requires After(before) == OnePod(Pod(PodState.Created, 7, FIRST, Some(0), None), [Pending])
    ensures IsRun(steps)
    ensures After(steps) ==
            OnePod(Pod(PodState.Created, 7, FIRST, Some(0), None), [Failed]).(calls := map[1 := StartAwaiting(0, 0)])
  {
    hide IsRun, After;
    steps := Then(before, StartContainer(1, 0));
    steps := Then(steps, ResolveRoutes(0, false));
  }

  /** Pod 0 with its routes ready, servers spawned for it and calls in flight. */
  function Serving(
    state: PodState, killer: Option<ServerId>, n: nat, listening: set<ServerId>, calls: map<CallId, Call>): Node
    requires n <= 2
  {
    OnePod(Pod(state, 7, FIRST, Some(0), killer), [Ready])
      .(servers := [Server(0, 7), Server(0, 7)][..n], armed := if n == 0 then {} else if n == 1 then {0} else {0, 1},
        listening := listening, calls := calls)
  }

  function Claimed(killer: Option<ServerId>): Call {
    StartBinding(0, Pod(Starting, 7, FIRST, Some(0), killer))
  }

  function Spawning(killer: Option<ServerId>, l: ServerId): Call {
    StartSpawned(0, Pod(Starting, 7, FIRST, Some(0), killer), l)
  }

  lemma Bound() returns (steps: seq<Step>)
    ensures IsRun(steps) && After(steps) == Serving(Starting, None, 1, {0}, map[1 := Spawning(None, 0)])
  {
    steps := Created();
    hide IsRun, After;
    steps := Then(steps, ResolveRoutes(0, true));
    assert After(steps) == Serving(PodState.Created, None, 0, {}, map[]);
    steps := Then(steps, StartContainer(1, 0));
    assert After(steps) == Serving(Starting, None, 0, {}, map[1 := Claimed(None)]);
    steps := Then(steps, Bind(1, true));
  }

  /**
    * A start publishes the pod as it was when the start claimed it: the container was created again in
    * the meantime, and started again, and now runs under the parameters of the first creation.
    */
  lemma CommitTakesBackParams() returns (steps: seq<Step>)
    ensures IsRun(steps) && 0 in After(steps).pods
    ensures After(steps).pods[0].state.Running? && After(steps).pods[0].params == FIRST
    ensures |steps| >= 3 && steps[|steps| - 3] == CreateContainer(0, AGAIN) && FIRST != AGAIN
    ensures CreateReply(After(steps[..|steps| - 3]), 0, AGAIN) == Succeeds
  {
    steps := Bound();
    hide IsRun, After;
    var before := steps;
    steps := Then(steps, CreateContainer(0, AGAIN));
    steps := Then(steps, StartContainer(2, 0));
    steps := Then(steps, CommitStart(1));
    assert steps[..|steps| - 3] == before;
  }

  /** A kill overtakes a stop on its way from `Running`, and the stop finds the pod unkillable. */
  lemma UnkillableHappens() returns (steps: seq<Step>)
    ensures IsRun(steps) && Enabled(After(steps), TakeToStop(2))
    ensures ReplyTo(After(steps), TakeToStop(2)) == Fails(Unkillable)
  {
    steps := Bound();
    hide IsRun, After;
    steps := Then(steps, CommitStart(1));
    assert After(steps) == Serving(Running, Some(0), 1, {0}, map[]);
    steps := StopAndKill(steps);
    steps := Then(steps, TakeToKill(3));
    assert After(steps).calls[2] == StopTaking(0, Some(0)) && After(steps).armed == {};
  }

  lemma StopAndKill(before: seq<Step>) returns (steps: seq<Step>)
    requires IsRun(before) && After(before) == Serving(Running, Some(0), 1, {0}, map[])
    ensures IsRun(steps)
    ensures After(steps) ==
            Serving(Killed, Some(0), 1, {0}, map[2 := StopTaking(0, Some(0)), 3 := KillTaking(0, 7, Some(0))])
  {
    hide IsRun, After;
    steps := Then(before, StopContainer(2, 0));
    assert After(steps) == Serving(Stopped, Some(0), 1, {0}, map[2 := StopTaking(0, Some(0))]);
    steps := Then(steps, KillPod(3, 0));
  }

  /** The first start's server ends before its commit; the commit then costs the second its killer. */
  lemma EarlyEndLosesServer() returns (steps: seq<Step>)
    ensures IsRun(steps) && !CleanRun(steps) && !NoneLost(After(steps))
    ensures After(steps) == Serving(Running, Some(0), 2, {1}, map[3 := Claimed(Some(1))])
    ensures Abandoned(After(steps), 1) && !Dropped(After(steps), 1)
  {
    steps := Bound();
    hide IsRun, After;
    steps := Then(steps, EndServer(0));
    assert After(steps) == Serving(Starting, None, 1, {}, map[1 := Spawning(None, 0)]);
    steps := SecondStart(steps);
    steps := ThirdStart(steps);
    steps := Then(steps, CommitStart(1));
    assert After(steps) == Serving(Running, Some(0), 2, {1}, map[3 := Claimed(Some(1))]);
    assert !Kept(After(steps), 1) && RefersTo(After(steps), 3, 1);
    if CleanRun(steps) { CleanRunSafe(steps); }
  }

  /** The third start fails to bind, since the lost server listens, and with it goes the last handle to its killer. */
  lemma LostServerIsDropped() returns (steps: seq<Step>)
    ensures IsRun(steps) && 1 in After(steps).listening && Dropped(After(steps), 1)
  {
    steps := EarlyEndLosesServer();
    hide IsRun, After;
    steps := Then(steps, Bind(3, false));
    assert After(steps) == Serving(Running, Some(0), 2, {1}, map[3 := StartUnbound(0)]);
  }

  /** The address manager refuses once; a second kill succeeds without asking again. */
  lemma RefusalLeaksAddress() returns (steps: seq<Step>)
    ensures IsRun(steps) && Leaked(After(steps), 7)
    ensures Enabled(After(steps), KillPod(3, 0)) && ReplyTo(After(steps), KillPod(3, 0)) == Succeeds
  {
    steps := Created();
    steps := RefusedKill(steps);
    hide IsRun, After;
    var s := After(steps);
    assert s.pods[0].state.Killed? && s.calls == map[];
    forall p ensures !LivesAt(s, p, 7) {}
    forall c ensures !HoldsAt(s, c, 7) {}
  }

  lemma RefusedKill(before: seq<Step>) returns (steps: seq<Step>)
    requires IsRun(before)
    requires After(before) == OnePod(Pod(PodState.Created, 7, FIRST, Some(0), None), [Pending])
    ensures IsRun(steps) && After(steps) == OnePod(Pod(Killed, 7, FIRST, Some(0), None), [Pending])
  {
    hide IsRun, After;
    var x := Pod(Killed, 7, FIRST, Some(0), None);
    steps := Then(before, KillPod(2, 0));
    assert After(steps) == OnePod(x, [Pending]).(calls := map[2 := KillTaking(0, 7, None)]);
    steps := Then(steps, TakeToKill(2));
    assert After(steps) == OnePod(x, [Pending]).(calls := map[2 := KillDeactivating(0, 7)]);
    steps := Then(steps, Deactivate(2, false));
  }

  /** Creating the container anew lets it be started anew, with the killer it has. */
  lemma Restarted(
    before: seq<Step>, state: PodState, killer: Option<ServerId>, n: nat, listening: set<ServerId>,
    calls: map<CallId, Call>, c: CallId) returns (steps: seq<Step>)
    requires IsRun(before) && n <= 2 && After(before) == Serving(state, killer, n, listening, calls)
    requires (state.Starting? || state.Running?) && c !in calls
    ensures IsRun(steps) && After(steps) == Serving(Starting, killer, n, listening, calls[c := Claimed(killer)])
  {
    hide IsRun, After;
    steps := Then(before, CreateContainer(0, FIRST));
    assert After(steps) == Serving(PodState.Created, killer, n, listening, calls);
    steps := Then(steps, StartContainer(c, 0));
  }

  lemma SecondStart(before: seq<Step>) returns (steps: seq<Step>)
    requires IsRun(before) && After(before) == Serving(Starting, None, 1, {}, map[1 := Spawning(None, 0)])
    ensures IsRun(steps)
    ensures After(steps) == Serving(Starting, None, 2, {1}, map[1 := Spawning(None, 0), 2 := Spawning(None, 1)])
  {
    hide IsRun, After;
    steps := Restarted(before, Starting, None, 1, {}, map[1 := Spawning(None, 0)], 2);
    assert map[1 := Spawning(None, 0)][2 := Claimed(None)] == map[1 := Spawning(None, 0), 2 := Claimed(None)];
    steps := SecondBind(steps);
  }

  lemma SecondBind(before: seq<Step>) returns (steps: seq<Step>)
    requires IsRun(before)
    requires After(before) == Serving(Starting, None, 1, {}, map[1 := Spawning(None, 0), 2 := Claimed(None)])
    ensures IsRun(steps)
    ensures After(steps) == Serving(Starting, None, 2, {1}, map[1 := Spawning(None, 0), 2 := Spawning(None, 1)])
  {
    hide IsRun, After;
    steps := Then(before, Bind(2, true));
  }

  lemma ThirdStart(before: seq<Step>) returns (steps: seq<Step>)
    requires IsRun(before)
    requires After(before) == Serving(Starting, None, 2, {1}, map[1 := Spawning(None, 0), 2 := Spawning(None, 1)])
    ensures IsRun(steps)
    ensures After(steps) == Serving(Starting, Some(1), 2, {1}, map[1 := Spawning(None, 0), 3 := Claimed(Some(1))])
  {
    hide IsRun, After;
    steps := Then(before, CommitStart(2));
    assert After(steps) == Serving(Running, Some(1), 2, {1}, map[1 := Spawning(None, 0)]);
    steps := Restarted(steps, Running, Some(1), 2, {1}, map[1 := Spawning(None, 0)], 3);
    assert map[1 := Spawning(None, 0)][3 := Claimed(Some(1))] == map[1 := Spawning(None, 0), 3 := Claimed(Some(1))];
  }

  /**
    * A start that was overtaken by a kill may bind the address after it was given to another pod:
    * the address then serves a pod that no longer exists until the start notices.
    */
  lemma StaleStartHoldsForeignAddress() returns (steps: seq<Step>)
    ensures IsRun(steps)
    ensures var s := After(steps);
      1 in s.pods && !s.pods[1].state.Killed? && 0 in s.listening && |s.servers| == 1
      && s.servers[0] == Server(0, s.pods[1].address) && 0 in s.pods && s.pods[0].state.Killed?
  {
    steps := Freed();
    hide IsRun, After;
    var k := Claimed(None);
    var s := After(steps);
    steps := Then(steps, InitPod(4));
    assert After(steps) == s.(nextPod := 2, calls := map[1 := k, 4 := InitAwaiting(1)]);
    steps := Then(steps, ObtainAddress(4, Some(7)));
    assert After(steps) == s.(nextPod := 2, leased := {7}, calls := map[1 := k, 4 := InitAddressed(1, 7)]);
    steps := Then(steps, InsertPod(4));
    assert After(steps).pods[1] == NewPod(7) && After(steps).pods[0] == s.pods[0];
    assert After(steps).calls[1] == k && After(steps).listening == {} && After(steps).servers == [];
    steps := Then(steps, Bind(1, true));
  }

  lemma Freed() returns (steps: seq<Step>)
    ensures IsRun(steps)
    ensures After(steps) == Serving(Killed, None, 0, {}, map[1 := Claimed(None)]).(leased := {})
  {
    steps := Created();
    hide IsRun, After;
    steps := Then(steps, ResolveRoutes(0, true));
    assert After(steps) == Serving(PodState.Created, None, 0, {}, map[]);
    steps := Then(steps, StartContainer(1, 0));
    assert After(steps) == Serving(Starting, None, 0, {}, map[1 := Claimed(None)]);
    steps := KillClaimed(steps);
    steps := Free(steps);
  }

  lemma KillClaimed(before: seq<Step>) returns (steps: seq<Step>)
    requires IsRun(before) && After(before) == Serving(Starting, None, 0, {}, map[1 := Claimed(None)])
    ensures IsRun(steps)
    ensures After(steps) == Serving(Killed, None, 0, {}, map[1 := Claimed(None), 2 := KillDeactivating(0, 7)])
  {
    hide IsRun, After;
    steps := Then(before, KillPod(2, 0));
    assert After(steps) == Serving(Killed, None, 0, {}, map[1 := Claimed(None), 2 := KillTaking(0, 7, None)]);
    steps := Then(steps, TakeToKill(2));
  }

  lemma Free(before: seq<Step>) returns (steps: seq<Step>)
    requires IsRun(before)
    requires After(before) == Serving(Killed, None, 0, {}, map[1 := Claimed(None), 2 := KillDeactivating(0, 7)])
    ensures IsRun(steps)
    ensures After(steps) == Serving(Killed, None, 0, {}, map[1 := Claimed(None)]).(leased := {})
  {
    hide IsRun, After;
    steps := Then(before, Deactivate(2, true));
    assert After(steps) == Serving(Killed, None, 0, {}, map[1 := Claimed(None), 2 := KillDeallocating(0, 7)]);
    steps := Then(steps, Deallocate(2, true));
  }
}

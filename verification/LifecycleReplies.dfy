/**
  * What callers of the pod lifecycle are told: which of the replies that the code calls logically
  * impossible are so, and what has happened when one of the others is given.
  */
module LifecycleReplies {
  import opened Prelude
  import opened Lifecycle
  import opened Custody
  import opened CustodyKept
  import opened LifecycleRuns

  // ---------------------------------------------------------------------------------------
  // States and their fields
  // ---------------------------------------------------------------------------------------

  /** A running pod can be killed, and nobody is about to take its killer; a created one has routes. */
  lemma StateInvariant(steps: seq<Step>, p: PodId)
    requires IsRun(steps) && p in After(steps).pods
    ensures var s := After(steps); var x := s.pods[p];
      && (x.state.Running? ==> x.killer.Some? && x.killer.value in s.armed && !Aimed(s, x.killer.value))
      && (x.state.Created? || x.state.Starting? || x.state.Running? ==> x.routes.Some? && x.routes.value < |s.routes|)
  {
    var s := After(steps);
    RunCore(steps);
    hide After, IsRun;
    assert PodOk(s, p, s.pods[p]);
    forall c <- s.calls ensures Fits(p, s.pods[p], s.calls[c]) {}
  }

  /** The start's routes were replaced since it waited, and the new ones are not settled yet. */
  predicate RoutesReplaced(s: Node, p: PodId, awaited: RoutesId) {
    && p in s.pods && s.pods[p].state.Created? && s.pods[p].routes.Some? && s.pods[p].routes.value < |s.routes|
    && s.pods[p].routes.value != awaited && s.routes[s.pods[p].routes.value].Pending?
  }

  lemma StartReplies(s: Node, p: PodId, awaited: Option<RoutesId>)
    requires Core(s)
    requires awaited.Some? ==> awaited.value < |s.routes| && !s.routes[awaited.value].Pending?
    ensures StartReply(s, p, awaited) !in {Fails(RoutesMissing), Fails(IdCollision)}
    ensures StartReply(s, p, awaited) == Fails(RoutesJuggled) <==>
              awaited.Some? && RoutesReplaced(s, p, awaited.value)
  {
    if p in s.pods { assert PodOk(s, p, s.pods[p]); }
    hide Core;
  }

  predicate Puzzling(r: Reply) {
    r == Fails(RoutesMissing) || r == Fails(IdCollision) || r == Fails(RoutesJuggled)
  }

  lemma PlainReplies(s: Node, p: PodId, params: Params)
    ensures !Puzzling(CreateReply(s, p, params)) && !Puzzling(StopReply(s, p)) && !Puzzling(RemoveReply(s, p))
    ensures !Puzzling(KillReply(s, p)) && !Puzzling(DeleteReply(s, p))
  {
  }

  /**
    * Ids do not collide, and routes are never missing. A start is told that its routes were juggled
    * if and only if the created container has other routes than those it waited for, still pending.
    */
  lemma ImpossibleReplies(steps: seq<Step>, step: Step)
    requires IsRun(steps) && Enabled(After(steps), step)
    ensures ReplyTo(After(steps), step) !in {Fails(RoutesMissing), Fails(IdCollision)}
    ensures ReplyTo(After(steps), step) == Fails(RoutesJuggled) <==>
              && step.RetryStart?
              && var k := After(steps).calls[step.call]; RoutesReplaced(After(steps), k.pod, k.awaited)
  {
    RunCore(steps);
    hide Core, ReplyTo, RoutesReplaced, After, IsRun;
    ImpossibleAt(After(steps), step);
  }

  lemma ImpossibleAt(s: Node, step: Step)
    requires Core(s) && Enabled(s, step)
    ensures ReplyTo(s, step) !in {Fails(RoutesMissing), Fails(IdCollision)}
    ensures ReplyTo(s, step) == Fails(RoutesJuggled) <==>
      step.RetryStart? && RoutesReplaced(s, s.calls[step.call].pod, s.calls[step.call].awaited)
  {
    hide Core, StartReply, CreateReply, StopReply, RemoveReply, KillReply, DeleteReply, Held;
    var none := NewPod(0).params;
    match step
    case InsertPod(c) => InsertCore(s, c);
    case CreateContainer(p, params) => PlainReplies(s, p, params);
    case StopContainer(c, p) => PlainReplies(s, p, none);
    case RemoveContainer(p) => PlainReplies(s, p, none);
    case KillPod(c, p) => PlainReplies(s, p, none);
    case DeletePod(p) => PlainReplies(s, p, none);
    case StartContainer(c, p) => StartReplies(s, p, None);
    case RetryStart(c) => StartReplies(s, s.calls[c].pod, Some(s.calls[c].awaited));
    case _ =>
  }

  // ---------------------------------------------------------------------------------------
  // Cells are emptied once
  // ---------------------------------------------------------------------------------------

  predicate CellOnward(s: Node, t: Node, l: ServerId, byKill: bool) {
    && (l in s.taken ==> l in t.taken && t.taken[l] == s.taken[l])
    && (l in s.armed && l !in t.armed ==> l in t.taken)
    && (l in t.taken && l !in s.taken ==> l in s.armed && (t.taken[l].ByKill? ==> byKill))
  }

  lemma TakingOnward(s: Node, c: CallId, l: ServerId)
    requires Core(s) && c in s.calls
    ensures s.calls[c].StartAborting? ==> CellOnward(s, Abort(s, c), l, false)
    ensures s.calls[c].StopTaking? ==> CellOnward(s, TakeForStop(s, c), l, false)
    ensures s.calls[c].KillTaking? ==> CellOnward(s, TakeForKill(s, c), l, Aims(s.calls[c], l))
  {
    assert Grounded(s);
    hide Core;
  }

  predicate TakesByKill(s: Node, step: Step, l: ServerId) {
    step.TakeToKill? && step.call in s.calls && Aims(s.calls[step.call], l) && l in s.armed
  }

  lemma PlainCells(s: Node, c: CallId, p: PodId, awaited: Option<RoutesId>, params: Params)
    ensures var t := TryStart(s, c, p, awaited); t.armed == s.armed && t.taken == s.taken
    ensures var t := Create(s, p, params); t.armed == s.armed && t.taken == s.taken
    ensures var t := Stop(s, c, p); t.armed == s.armed && t.taken == s.taken
    ensures var t := Kill(s, c, p); t.armed == s.armed && t.taken == s.taken
  {
  }

  lemma CellsOnward(s: Node, step: Step, l: ServerId)
    requires Core(s) && Enabled(s, step)
    ensures CellOnward(s, Apply(s, step), l, TakesByKill(s, step, l))
  {
    hide Core, TryStart, Create, Stop, Kill, Abort, TakeForStop, TakeForKill, Held;
    var none := NewPod(0).params;
    match step
    case StartContainer(c, p) => PlainCells(s, c, p, None, none);
    case RetryStart(c) => PlainCells(s, c, s.calls[c].pod, Some(s.calls[c].awaited), none);
    case CreateContainer(p, params) => PlainCells(s, 0, p, None, params);
    case StopContainer(c, p) => PlainCells(s, c, p, None, none);
    case KillPod(c, p) => PlainCells(s, c, p, None, none);
    case AbortServer(c) => TakingOnward(s, c, l);
    case TakeToStop(c) => TakingOnward(s, c, l);
    case TakeToKill(c) => TakingOnward(s, c, l);
    case _ =>
  }

  lemma {:induction false} TakenForever(steps: seq<Step>, l: ServerId, i: nat)
    requires IsRun(steps) && i <= |steps| && l in After(steps[..i]).taken
    ensures l in After(steps).taken
    decreases |steps|
  {
    hide Core, Enabled, Apply;
    if i == |steps| {
      assert steps[..i] == steps;
    } else {
      var n := |steps| - 1;
      LastStep(steps);
      assert steps[..n][..i] == steps[..i];
      TakenForever(steps[..n], l, i);
      RunCore(steps[..n]);
      CellsOnward(After(steps[..n]), steps[n], l);
    }
  }

  ghost predicate Empties(s: Node, step: Step, l: ServerId) {
    Enabled(s, step) && l in s.armed && l !in Apply(s, step).armed
  }

  /** The killer of a server is taken at most once in a run. */
  lemma KillerTakenOnce(steps: seq<Step>, l: ServerId, i: nat, j: nat)
    requires IsRun(steps) && i < j < |steps|
    requires Empties(After(steps[..i]), steps[i], l)
    ensures !Empties(After(steps[..j]), steps[j], l)
  {
    hide IsRun, After, Enabled, Apply, CallsOk, PodsOk, AllFit, OneListener;
    PrefixStep(steps, i);
    RunPrefix(steps, j);
    RunCore(steps[..i]);
    RunCore(steps[..j]);
    CellsOnward(After(steps[..i]), steps[i], l);
    assert steps[..j][..i + 1] == steps[..i + 1];
    TakenForever(steps[..j], l, i + 1);
  }

  lemma {:induction false} TakenByKill(steps: seq<Step>, l: ServerId) returns (i: nat)
    requires IsRun(steps) && l in After(steps).taken && After(steps).taken[l].ByKill?
    ensures i < |steps| && TakesByKill(After(steps[..i]), steps[i], l)
  {
    hide Core, Enabled, Apply;
    var n := |steps| - 1;
    LastStep(steps);
    RunCore(steps[..n]);
    CellsOnward(After(steps[..n]), steps[n], l);
    if l in After(steps[..n]).taken {
      i := TakenByKill(steps[..n], l);
      assert steps[..n][..i] == steps[..i];
    } else {
      i := n;
    }
  }

  lemma TakenStays(steps: seq<Step>, l: ServerId, i: nat)
    requires IsRun(steps) && i < |steps| && TakesByKill(After(steps[..i]), steps[i], l)
    ensures l in After(steps).taken
  {
    hide IsRun, After, Enabled, Apply, CallsOk, PodsOk, AllFit, OneListener;
    PrefixStep(steps, i);
    RunCore(steps[..i]);
    KillEmpties(After(steps[..i]), steps[i], l);
    CellsOnward(After(steps[..i]), steps[i], l);
    TakenForever(steps, l, i + 1);
  }

  lemma KillEmpties(s: Node, step: Step, l: ServerId)
    requires Enabled(s, step) && TakesByKill(s, step, l)
    ensures l !in Apply(s, step).armed
  {
  }

  /**
    * A stop that left `Running` finds its pod unkillable if and only if a kill of the pod took the
    * killer at an earlier step of the run.
    */
  lemma UnkillableIffKilled(steps: seq<Step>, c: CallId)
    requires IsRun(steps) && Enabled(After(steps), TakeToStop(c))
    ensures After(steps).calls[c].killer.Some?
    ensures ReplyTo(After(steps), TakeToStop(c)) == Fails(Unkillable) <==>
              exists i | 0 <= i < |steps| ::
                TakesByKill(After(steps[..i]), steps[i], After(steps).calls[c].killer.value)
  {
    hide After, IsRun, Core, TakesByKill, Enabled, ReplyTo;
    var s := After(steps);
    RunCore(steps);
    StopFindsCell(s, c);
    var l := s.calls[c].killer.value;
    if l in s.taken { var i := TakenByKill(steps, l); }
    forall i | 0 <= i < |steps| && TakesByKill(After(steps[..i]), steps[i], l) ensures l in s.taken {
      TakenStays(steps, l, i);
    }
  }

  /** The stop fails exactly when somebody emptied the cell, and that was a kill. */
  lemma StopFindsCell(s: Node, c: CallId)
    requires Core(s) && Enabled(s, TakeToStop(c))
    ensures c in s.calls && s.calls[c].StopTaking? && s.calls[c].killer.Some?
    ensures ReplyTo(s, TakeToStop(c)) == Fails(Unkillable) <==> s.calls[c].killer.value in s.taken
    ensures s.calls[c].killer.value in s.taken ==> s.taken[s.calls[c].killer.value].ByKill?
  {
    assert CallOk(s, s.calls[c]) && Grounded(s);
  }
}

/** No call gets stuck: each can go on, ends after a few steps of its own, and leaves no pod `Starting`. */
module LifecycleProgress {
  import opened Prelude
  import opened Lifecycle
  import opened Custody
  import opened CustodyKept
  import opened LifecycleRuns

  // ---------------------------------------------------------------------------------------
  // Calls end
  // ---------------------------------------------------------------------------------------

  /** How many steps of its own a call has before it at most. */
  function Remaining(k: Call): nat {
    match k
    case InitAwaiting(_) => 2
    case InitAddressed(_, _) => 1
    case StartAwaiting(_, _) => 4
    case StartBinding(_, _) => 3
    case StartUnbound(_) => 1
    case StartSpawned(_, _, _) => 2
    case StartAborting(_, _) => 1
    case StopTaking(_, _) => 2
    case StopKilling(_, _) => 1
    case KillTaking(_, _, _) => 4
    case KillKilling(_, _, _) => 3
    case KillDeactivating(_, _) => 2
    case KillDeallocating(_, _) => 1
  }

  /** The step is one of the call. */
  predicate StepOf(step: Step, c: CallId) {
    match step
    case CreateContainer(_, _) => false
    case RemoveContainer(_) => false
    case DeletePod(_) => false
    case ResolveRoutes(_, _) => false
    case EndServer(_) => false
    case _ => step.call == c
  }

  /** The call is over, or has fewer steps before it. */
  predicate Advances(s: Node, t: Node, c: CallId)
    requires c in s.calls
  {
    c in t.calls ==> Remaining(t.calls[c]) < Remaining(s.calls[c])
  }

  lemma StartAdvances(s: Node, c: CallId, p: PodId, r: RoutesId)
    requires c in s.calls && s.calls[c].StartAwaiting?
    ensures Advances(s, TryStart(s, c, p, Some(r)), c)
  {
  }

  lemma BindAdvances(s: Node, c: CallId, bound: bool)
    requires c in s.calls
    ensures s.calls[c].StartBinding? ==> Advances(s, BindOrNot(s, c, bound), c)
    ensures s.calls[c].StartUnbound? ==> Advances(s, RollBack(s, c), c)
    ensures s.calls[c].StartSpawned? ==> Advances(s, Commit(s, c), c)
    ensures s.calls[c].StartAborting? ==> Advances(s, Abort(s, c), c)
  {
  }

  lemma StopAdvances(s: Node, c: CallId, given: Option<Address>, done: bool)
    requires c in s.calls
    ensures s.calls[c].InitAwaiting? ==> Advances(s, Lease(s, c, given), c)
    ensures s.calls[c].InitAddressed? ==> Advances(s, Insert(s, c), c)
    ensures s.calls[c].StopTaking? ==> Advances(s, TakeForStop(s, c), c)
    ensures s.calls[c].StopKilling? ==> Advances(s, EndStop(s, c), c)
    ensures s.calls[c].KillTaking? ==> Advances(s, TakeForKill(s, c), c)
    ensures s.calls[c].KillKilling? ==> Advances(s, EndKill(s, c), c)
    ensures s.calls[c].KillDeactivating? ==> Advances(s, Quiet(s, c, done), c)
    ensures s.calls[c].KillDeallocating? ==> Advances(s, Release(s, c, done), c)
  {
  }

  /** Every step of a call in flight brings it closer to its end: after four of them it is over. */
  lemma OwnStepsAdvance(s: Node, step: Step, c: CallId)
    requires Enabled(s, step) && c in s.calls && StepOf(step, c)
    ensures Advances(s, Apply(s, step), c) && 1 <= Remaining(s.calls[c]) <= 4
  {
    hide Advances, Held, Lease, Insert, TryStart, BindOrNot, RollBack, Commit, Abort, TakeForStop, EndStop;
    hide TakeForKill, EndKill, Quiet, Release;
    match step
    case RetryStart(_) => StartAdvances(s, c, s.calls[c].pod, s.calls[c].awaited);
    case Bind(_, bound) => BindAdvances(s, c, bound);
    case RollBackStart(_) => BindAdvances(s, c, false);
    case CommitStart(_) => BindAdvances(s, c, false);
    case AbortServer(_) => BindAdvances(s, c, false);
    case ObtainAddress(_, given) => StopAdvances(s, c, given, true);
    case InsertPod(_) => StopAdvances(s, c, None, true);
    case TakeToStop(_) => StopAdvances(s, c, None, true);
    case FinishStop(_) => StopAdvances(s, c, None, true);
    case TakeToKill(_) => StopAdvances(s, c, None, true);
    case FinishKill(_) => StopAdvances(s, c, None, true);
    case Deactivate(_, done) => StopAdvances(s, c, None, done);
    case Deallocate(_, done) => StopAdvances(s, c, None, done);
  }

  function Next(s: Node, c: CallId): Step
    requires c in s.calls
  {
    match s.calls[c]
    case InitAwaiting(_) => ObtainAddress(c, None)
    case InitAddressed(_, _) => InsertPod(c)
    case StartAwaiting(_, r) => if r < |s.routes| && s.routes[r].Pending? then ResolveRoutes(r, true) else RetryStart(c)
    case StartBinding(_, _) => Bind(c, false)
    case StartUnbound(_) => RollBackStart(c)
    case StartSpawned(_, _, _) => CommitStart(c)
    case StartAborting(_, _) => AbortServer(c)
    case StopTaking(_, _) => TakeToStop(c)
    case StopKilling(_, _) => FinishStop(c)
    case KillTaking(_, _, _) => TakeToKill(c)
    case KillKilling(_, _, _) => FinishKill(c)
    case KillDeactivating(_, _) => Deactivate(c, true)
    case KillDeallocating(_, _) => Deallocate(c, true)
  }

  lemma NextEnabled(s: Node, c: CallId)
    requires c in s.calls && (s.calls[c].StartAwaiting? ==> s.calls[c].awaited < |s.routes|)
    ensures Enabled(s, Next(s, c))
    ensures StepOf(Next(s, c), c) || (s.calls[c].StartAwaiting? && Next(s, c).ResolveRoutes?)
  {
    hide Held;
  }

  /** A call in flight can take a step, or waits for routes that can still be resolved. */
  lemma CallsGoOn(steps: seq<Step>, c: CallId) returns (step: Step)
    requires IsRun(steps) && c in After(steps).calls
    ensures Enabled(After(steps), step)
    ensures StepOf(step, c) || (After(steps).calls[c].StartAwaiting? && step.ResolveRoutes?)
  {
    hide Enabled, Next, StepOf, IsRun, After;
    RunCore(steps);
    assert CallOk(After(steps), After(steps).calls[c]);
    NextEnabled(After(steps), c);
    step := Next(After(steps), c);
  }

  // ---------------------------------------------------------------------------------------
  // No pod is left starting
  // ---------------------------------------------------------------------------------------

  predicate Starts(s: Node, c: CallId, p: PodId) {
    c in s.calls && s.calls[c].pod == p && (s.calls[c].StartBinding? || s.calls[c].StartUnbound? || s.calls[c].StartSpawned?)
  }

  predicate IsStarting(s: Node, p: PodId) {
    p in s.pods && s.pods[p].state.Starting?
  }

  /** Every pod that is starting has a start in flight that will take it out of there. */
  ghost predicate AllStarted(s: Node) {
    forall p :: IsStarting(s, p) ==> exists c :: Starts(s, c, p)
  }

  ghost predicate KeepsStarts(s: Node, t: Node) {
    && (forall p :: IsStarting(t, p) ==> IsStarting(s, p))
    && (forall c, p :: Starts(s, c, p) && IsStarting(t, p) ==> Starts(t, c, p))
  }

  lemma KeptStarted(s: Node, t: Node)
    requires AllStarted(s) && KeepsStarts(s, t)
    ensures AllStarted(t)
  {
    hide Starts, IsStarting;
    forall p | IsStarting(t, p) ensures exists c :: Starts(t, c, p) {
      var c :| Starts(s, c, p);
      assert Starts(t, c, p);
    }
  }

  lemma TryStartStarted(s: Node, c: CallId, p: PodId, awaited: Option<RoutesId>)
    requires AllStarted(s) && (c in s.calls ==> s.calls[c].StartAwaiting?)
    ensures AllStarted(TryStart(s, c, p, awaited))
  {
    var t := TryStart(s, c, p, awaited);
    forall q | IsStarting(t, q) ensures exists d :: Starts(t, d, q) {
      if IsStarting(s, q) {
        var d :| Starts(s, d, q);
        assert Starts(t, d, q);
      } else {
        assert Starts(t, c, q);
      }
    }
  }

  lemma BindKeeps(s: Node, c: CallId, bound: bool)
    requires c in s.calls
    ensures s.calls[c].StartBinding? ==> KeepsStarts(s, BindOrNot(s, c, bound))
    ensures s.calls[c].StartUnbound? ==> KeepsStarts(s, RollBack(s, c))
    ensures s.calls[c].StartSpawned? ==> KeepsStarts(s, Commit(s, c))
    ensures s.calls[c].StartAborting? ==> KeepsStarts(s, Abort(s, c))
  {
  }

  lemma PodKeeps(s: Node, c: CallId, p: PodId, params: Params)
    ensures KeepsStarts(s, Create(s, p, params))
    ensures KeepsStarts(s, Remove(s, p))
    ensures KeepsStarts(s, Delete(s, p))
    ensures c !in s.calls ==> KeepsStarts(s, Stop(s, c, p))
    ensures c !in s.calls ==> KeepsStarts(s, Kill(s, c, p))
  {
    hide SameParams, RoutesUnusable, LaterAttempt;
  }

  lemma OtherKeeps(s: Node, c: CallId, given: Option<Address>, done: bool)
    ensures c !in s.calls ==> KeepsStarts(s, BeginInit(s, c))
    ensures c in s.calls && s.calls[c].InitAwaiting? ==> KeepsStarts(s, Lease(s, c, given))
    ensures c in s.calls && s.calls[c].InitAddressed? ==> KeepsStarts(s, Insert(s, c))
    ensures c in s.calls && s.calls[c].StopTaking? ==> KeepsStarts(s, TakeForStop(s, c))
    ensures c in s.calls && s.calls[c].StopKilling? ==> KeepsStarts(s, EndStop(s, c))
  {
  }

  lemma KillKeeps(s: Node, c: CallId, done: bool)
    requires c in s.calls
    ensures s.calls[c].KillTaking? ==> KeepsStarts(s, TakeForKill(s, c))
    ensures s.calls[c].KillKilling? ==> KeepsStarts(s, EndKill(s, c))
    ensures s.calls[c].KillDeactivating? ==> KeepsStarts(s, Quiet(s, c, done))
    ensures s.calls[c].KillDeallocating? ==> KeepsStarts(s, Release(s, c, done))
  {
  }

  lemma GroundKeeps(s: Node, t: Node)
    requires t.pods == s.pods && t.calls == s.calls
    ensures KeepsStarts(s, t)
  {
  }

  lemma StepKeeps(s: Node, step: Step)
    requires Enabled(s, step) && !step.StartContainer? && !step.RetryStart?
    ensures KeepsStarts(s, Apply(s, step))
  {
    hide KeepsStarts, Held, BeginInit, Lease, Insert, BindOrNot, RollBack, Commit, Abort, TakeForStop, EndStop;
    hide Create, Stop, Kill, Remove, Delete, TakeForKill, EndKill, Quiet, Release;
    var none := NewPod(0).params;
    match step
    case InitPod(c) => OtherKeeps(s, c, None, true);
    case ObtainAddress(c, given) => OtherKeeps(s, c, given, true);
    case InsertPod(c) => OtherKeeps(s, c, None, true);
    case CreateContainer(p, params) => PodKeeps(s, 0, p, params);
    case Bind(c, bound) => BindKeeps(s, c, bound);
    case RollBackStart(c) => BindKeeps(s, c, false);
    case CommitStart(c) => BindKeeps(s, c, false);
    case AbortServer(c) => BindKeeps(s, c, false);
    case StopContainer(c, p) => PodKeeps(s, c, p, none);
    case TakeToStop(c) => OtherKeeps(s, c, None, true);
    case FinishStop(c) => OtherKeeps(s, c, None, true);
    case RemoveContainer(p) => PodKeeps(s, 0, p, none);
    case KillPod(c, p) => PodKeeps(s, c, p, none);
    case TakeToKill(c) => KillKeeps(s, c, true);
    case FinishKill(c) => KillKeeps(s, c, true);
    case Deactivate(c, done) => KillKeeps(s, c, done);
    case Deallocate(c, done) => KillKeeps(s, c, done);
    case DeletePod(p) => PodKeeps(s, 0, p, none);
    case ResolveRoutes(r, ready) => GroundKeeps(s, Resolve(s, r, ready));
    case EndServer(l) => GroundKeeps(s, Silence(s, l));
  }

  lemma StartedKept(s: Node, step: Step)
    requires AllStarted(s) && Enabled(s, step)
    ensures AllStarted(Apply(s, step))
  {
    hide AllStarted, TryStart, Held;
    if step.StartContainer? {
      TryStartStarted(s, step.call, step.pod, None);
    } else if step.RetryStart? {
      TryStartStarted(s, step.call, s.calls[step.call].pod, Some(s.calls[step.call].awaited));
    } else {
      StepKeeps(s, step);
      KeptStarted(s, Apply(s, step));
    }
  }

  /**
    * Over every run, a pod that is starting has a start in flight, in the middle of its bind or its
    * commit, which will make it `Created` or `Running` if nobody does anything else to it before.
    */
  lemma {:induction false} NeverLeftStarting(steps: seq<Step>)
    requires IsRun(steps)
    ensures AllStarted(After(steps))
  {
    hide AllStarted, Apply;
    if steps == [] {
      NoneStarting();
    } else {
      var n := |steps| - 1;
      LastStep(steps);
      NeverLeftStarting(steps[..n]);
      StartedKept(After(steps[..n]), steps[n]);
    }
  }

  lemma NoneStarting()
    ensures AllStarted(START)
  {
  }
}

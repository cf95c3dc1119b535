/**
  * Which addresses are lost over a run of the pod lifecycle: allocated, with nobody left to give them
  * back. It takes a failure of the address manager, and then it is for good.
  */
module LifecycleAddresses {
  import opened Prelude
  import opened Lifecycle
  import opened Custody
  import opened CustodyKept
  import opened LifecycleRuns

  predicate LivesAt(s: Node, p: PodId, a: Address) {
    p in s.pods && !s.pods[p].state.Killed? && s.pods[p].address == a
  }

  predicate HoldsAt(s: Node, c: CallId, a: Address) {
    c in s.calls && HoldsAddress(s.calls[c]) && s.calls[c].address == a
  }

  /** A pod lives with the address, or a call has it in hand. */
  ghost predicate Owned(s: Node, a: Address) {
    (exists p :: LivesAt(s, p, a)) || (exists c :: HoldsAt(s, c, a))
  }

  ghost predicate Leaked(s: Node, a: Address) {
    a in s.leased && !Owned(s, a)
  }

  /** The address manager refuses to deactivate or to deallocate an address. */
  predicate GivesUpInVain(s: Node, step: Step, a: Address) {
    (step.Deactivate? || step.Deallocate?) && !step.done && HoldsAt(s, step.call, a)
  }

  // ---------------------------------------------------------------------------------------
  // Steps that change no owner
  // ---------------------------------------------------------------------------------------

  ghost predicate SameOwners(s: Node, t: Node) {
    && t.leased == s.leased
    && (forall p, a :: LivesAt(t, p, a) <==> LivesAt(s, p, a))
    && (forall c, a :: HoldsAt(t, c, a) <==> HoldsAt(s, c, a))
  }

  lemma SameLeaks(s: Node, t: Node, a: Address)
    requires SameOwners(s, t)
    ensures Leaked(t, a) <==> Leaked(s, a)
  {
    hide LivesAt, HoldsAt;
  }

  lemma StartOwners(s: Node, c: CallId, p: PodId, awaited: Option<RoutesId>)
    requires c in s.calls ==> s.calls[c].StartAwaiting?
    ensures SameOwners(s, TryStart(s, c, p, awaited))
  {
  }

  lemma CreateOwners(s: Node, p: PodId, params: Params)
    ensures SameOwners(s, Create(s, p, params))
  {
    hide SameParams, RoutesUnusable, LaterAttempt;
  }

  lemma BindOwners(s: Node, c: CallId, bound: bool)
    requires c in s.calls
    ensures s.calls[c].StartBinding? ==> SameOwners(s, BindOrNot(s, c, bound))
    ensures s.calls[c].StartUnbound? ==> SameOwners(s, RollBack(s, c))
    ensures s.calls[c].StartAborting? ==> SameOwners(s, Abort(s, c))
  {
  }

  lemma CommitOwners(s: Node, c: CallId)
    requires Core(s) && c in s.calls && s.calls[c].StartSpawned?
    ensures SameOwners(s, Commit(s, c))
  {
    assert CallOk(s, s.calls[c]);
    if s.calls[c].pod in s.pods { assert PodOk(s, s.calls[c].pod, s.pods[s.calls[c].pod]); }
    hide Core;
  }

  lemma StopOwners(s: Node, c: CallId, p: PodId)
    ensures c !in s.calls ==> SameOwners(s, Stop(s, c, p))
    ensures c in s.calls && s.calls[c].StopTaking? ==> SameOwners(s, TakeForStop(s, c))
    ensures c in s.calls && s.calls[c].StopKilling? ==> SameOwners(s, EndStop(s, c))
    ensures SameOwners(s, Remove(s, p))
    ensures SameOwners(s, Delete(s, p))
  {
  }

  lemma KillOwners(s: Node, c: CallId)
    requires c in s.calls
    ensures s.calls[c].KillTaking? ==> SameOwners(s, TakeForKill(s, c))
    ensures s.calls[c].KillKilling? ==> SameOwners(s, EndKill(s, c))
    ensures s.calls[c].KillDeactivating? ==> SameOwners(s, Quiet(s, c, true))
  {
  }

  // ---------------------------------------------------------------------------------------
  // Steps that hand an address on
  // ---------------------------------------------------------------------------------------

  lemma LeaseOwners(s: Node, c: CallId, given: Option<Address>, a: Address)
    requires c in s.calls && s.calls[c].InitAwaiting? && (given.Some? ==> given.value !in s.leased)
    ensures Leaked(Lease(s, c, given), a) <==> Leaked(s, a)
  {
    var t := Lease(s, c, given);
    if given.None? {
      assert SameOwners(s, t);
      SameLeaks(s, t, a);
    } else {
      assert HoldsAt(t, c, given.value);
      assert forall p, b :: LivesAt(t, p, b) <==> LivesAt(s, p, b);
      assert forall d, b | b != given.value :: HoldsAt(t, d, b) <==> HoldsAt(s, d, b);
      hide LivesAt, HoldsAt;
    }
  }

  lemma InsertOwners(s: Node, c: CallId, a: Address)
    requires Core(s) && c in s.calls && s.calls[c].InitAddressed?
    ensures Leaked(Insert(s, c), a) <==> Leaked(s, a)
  {
    var t, p := Insert(s, c), s.calls[c].pod;
    InsertCore(s, c);
    hide Core;
    assert LivesAt(t, p, s.calls[c].address) && HoldsAt(s, c, s.calls[c].address);
    assert forall q, b | q != p :: LivesAt(t, q, b) <==> LivesAt(s, q, b);
    assert forall d, b | d != c :: HoldsAt(t, d, b) <==> HoldsAt(s, d, b);
    assert forall b | b != s.calls[c].address :: !LivesAt(t, p, b) && !HoldsAt(s, c, b);
    assert forall b :: !LivesAt(s, p, b) && !HoldsAt(t, c, b);
    hide LivesAt, HoldsAt;
  }

  lemma KillPodOwners(s: Node, c: CallId, p: PodId, a: Address)
    requires c !in s.calls
    ensures Leaked(Kill(s, c, p), a) <==> Leaked(s, a)
  {
    var t := Kill(s, c, p);
    if p in s.pods && !s.pods[p].state.Killed? {
      var b := s.pods[p].address;
      assert LivesAt(s, p, b) && HoldsAt(t, c, b);
      assert forall q, x | q != p :: LivesAt(t, q, x) <==> LivesAt(s, q, x);
      assert forall d, x | d != c :: HoldsAt(t, d, x) <==> HoldsAt(s, d, x);
      assert forall x | x != b :: !LivesAt(s, p, x) && !HoldsAt(t, c, x);
      assert forall x :: !LivesAt(t, p, x) && !HoldsAt(s, c, x);
      hide LivesAt, HoldsAt;
    }
  }

  /** The kill ends with the address in hand: nobody else has it. */
  lemma LetGo(s: Node, t: Node, c: CallId, a: Address)
    requires Core(s) && c in s.calls && KillCall(s.calls[c])
    requires t.pods == s.pods && t.calls == s.calls - {c}
    requires t.leased == s.leased || t.leased == s.leased - {s.calls[c].address}
    ensures !Owned(t, s.calls[c].address)
    ensures a != s.calls[c].address ==> (Leaked(t, a) <==> Leaked(s, a))
  {
    var b := s.calls[c].address;
    forall d ensures !HoldsAt(t, d, b) {
      if d in t.calls { assert Agree(s.calls[c], s.calls[d]); }
    }
    forall p ensures !LivesAt(t, p, b) {
      if p in t.pods { assert Fits(p, s.pods[p], s.calls[c]); }
    }
    assert forall p, x :: LivesAt(t, p, x) <==> LivesAt(s, p, x);
    assert forall d, x | x != b :: HoldsAt(t, d, x) <==> HoldsAt(s, d, x);
    hide Core, LivesAt, HoldsAt;
  }

  // ---------------------------------------------------------------------------------------
  // Leaks over runs
  // ---------------------------------------------------------------------------------------

  /** What was leaked stays leaked, and one step leaks what it gives up in vain and nothing else. */
  lemma LeaksOnward(s: Node, step: Step, a: Address)
    requires Core(s) && Enabled(s, step)
    ensures Leaked(Apply(s, step), a) <==> Leaked(s, a) || GivesUpInVain(s, step, a)
  {
    hide Leaked, SameOwners, Lease, Insert, Create, TryStart, BindOrNot, RollBack, Commit, Abort;
    hide Stop, TakeForStop, EndStop, Kill, TakeForKill, EndKill, Delete, Remove, Held;
    match step
    case ObtainAddress(c, given) => LeaseOwners(s, c, given, a);
    case InsertPod(c) => InsertOwners(s, c, a);
    case KillPod(c, p) => KillPodOwners(s, c, p, a);
    case Deactivate(c, done) => DeactivateLeaks(s, c, done, a);
    case Deallocate(c, done) => DeallocateLeaks(s, c, done, a);
    case _ =>
      PlainOwners(s, step);
      SameLeaks(s, Apply(s, step), a);
  }

  lemma DeactivateLeaks(s: Node, c: CallId, done: bool, a: Address)
    requires Core(s) && c in s.calls && s.calls[c].KillDeactivating?
    ensures Leaked(Quiet(s, c, done), a) <==> Leaked(s, a) || (!done && HoldsAt(s, c, a))
  {
    if done {
      KillOwners(s, c);
      SameLeaks(s, Quiet(s, c, true), a);
    } else {
      assert CallOk(s, s.calls[c]);
      LetGo(s, Quiet(s, c, false), c, a);
      hide Core;
      assert HoldsAt(s, c, s.calls[c].address);
    }
  }

  lemma DeallocateLeaks(s: Node, c: CallId, done: bool, a: Address)
    requires Core(s) && c in s.calls && s.calls[c].KillDeallocating?
    ensures Leaked(Release(s, c, done), a) <==> Leaked(s, a) || (!done && HoldsAt(s, c, a))
  {
    assert CallOk(s, s.calls[c]);
    LetGo(s, Release(s, c, done), c, a);
    hide Core;
    assert HoldsAt(s, c, s.calls[c].address);
  }

  lemma PlainOwners(s: Node, step: Step)
    requires Core(s) && Enabled(s, step)
    requires !step.ObtainAddress? && !step.InsertPod? && !step.KillPod? && !step.Deactivate? && !step.Deallocate?
    ensures SameOwners(s, Apply(s, step))
  {
    hide Core, SameOwners, Create, TryStart, BindOrNot, RollBack, Commit, Abort;
    hide Stop, TakeForStop, EndStop, TakeForKill, EndKill, Delete, Remove, Held;
    match step
    case CreateContainer(p, params) => CreateOwners(s, p, params);
    case StartContainer(c, p) => StartOwners(s, c, p, None);
    case RetryStart(c) => StartOwners(s, c, s.calls[c].pod, Some(s.calls[c].awaited));
    case Bind(c, bound) => BindOwners(s, c, bound);
    case RollBackStart(c) => BindOwners(s, c, false);
    case AbortServer(c) => BindOwners(s, c, false);
    case CommitStart(c) => CommitOwners(s, c);
    case StopContainer(c, p) => StopOwners(s, c, p);
    case TakeToStop(c) => StopOwners(s, c, 0);
    case FinishStop(c) => StopOwners(s, c, 0);
    case RemoveContainer(p) => StopOwners(s, 0, p);
    case DeletePod(p) => StopOwners(s, 0, p);
    case TakeToKill(c) => KillOwners(s, c);
    case FinishKill(c) => KillOwners(s, c);
    case InitPod(c) => InitOwners(s, c);
    case ResolveRoutes(r, ready) => QuietOwners(s, Resolve(s, r, ready));
    case EndServer(l) => QuietOwners(s, Silence(s, l));
  }

  lemma InitOwners(s: Node, c: CallId)
    requires c !in s.calls
    ensures SameOwners(s, BeginInit(s, c))
  {
  }

  lemma QuietOwners(s: Node, t: Node)
    requires t.pods == s.pods && t.calls == s.calls && t.leased == s.leased
    ensures SameOwners(s, t)
  {
  }

  /** The address is given up in vain at the step of the run. */
  ghost predicate RefusedAt(steps: seq<Step>, i: nat, a: Address) {
    i < |steps| && GivesUpInVain(After(steps[..i]), steps[i], a)
  }

  lemma RefusedPrefix(steps: seq<Step>, n: nat, i: nat, a: Address)
    requires i < n <= |steps|
    ensures RefusedAt(steps[..n], i, a) <==> RefusedAt(steps, i, a)
  {
    assert steps[..n][..i] == steps[..i];
  }

  /**
    * Over every run an address is lost if and only if the address manager refused, at some step, to
    * deactivate or to deallocate it. Nothing brings it back.
    */
  lemma {:induction false} LeakedIffRefused(steps: seq<Step>, a: Address)
    requires IsRun(steps)
    ensures Leaked(After(steps), a) <==> exists i: nat :: RefusedAt(steps, i, a)
  {
    if steps == [] {
      NothingLeased(a);
    } else {
      var n := |steps| - 1;
      hide Leaked, GivesUpInVain, Core, Enabled, Apply, IsRun, After;
      LastStep(steps);
      LeakedIffRefused(steps[..n], a);
      RunCore(steps[..n]);
      LeaksOnward(After(steps[..n]), steps[n], a);
      assert RefusedAt(steps, n, a) <==> GivesUpInVain(After(steps[..n]), steps[n], a);
      RefusedBefore(steps, n, a);
    }
  }

  lemma RefusedBefore(steps: seq<Step>, n: nat, a: Address)
    requires |steps| == n + 1
    ensures (exists i: nat :: RefusedAt(steps, i, a))
       <==> (exists i: nat :: RefusedAt(steps[..n], i, a)) || RefusedAt(steps, n, a)
  {
    forall i: nat | i < n ensures RefusedAt(steps[..n], i, a) <==> RefusedAt(steps, i, a) { RefusedPrefix(steps, n, i, a); }
    assert forall i: nat :: RefusedAt(steps, i, a) ==> i <= n;
    assert forall i: nat :: RefusedAt(steps[..n], i, a) ==> i < n;
    hide RefusedAt;
  }

  lemma NothingLeased(a: Address)
    ensures !Leaked(After([]), a)
  {
  }
}

/**
  * What becomes of a server whose killer nobody can reach any more. A killer lives in the cell it
  * was put into; when the last handle to the cell goes, the killer is dropped and its server shuts
  * down. So a server is not lost for good when its entry is overwritten: it is abandoned, and only
  * the snapshots of starts in flight put off its end.
  */
module LifecycleCells {
  import opened Prelude
  import opened Lifecycle
  import opened Custody
  import opened CustodyKept
  import opened LifecycleRuns

  predicate PodHas(s: Node, p: PodId, l: ServerId) {
    p in s.pods && s.pods[p].killer == Some(l)
  }

  predicate WieldedBy(s: Node, c: CallId, l: ServerId) {
    c in s.calls && Wields(s.calls[c], l)
  }

  /** The call spawned the server, has its killer, or is about to look into its cell. */
  predicate ConcernedWith(s: Node, c: CallId, l: ServerId) {
    c in s.calls && (Nurses(s.calls[c], l) || Wields(s.calls[c], l) || Aims(s.calls[c], l))
  }

  /** The snapshot of a start has a handle to the cell, which the start will never look into. */
  predicate RefersTo(s: Node, c: CallId, l: ServerId) {
    c in s.calls && (s.calls[c].StartBinding? || s.calls[c].StartSpawned?) && s.calls[c].snapshot.killer == Some(l)
  }

  /** The cell is full, and no entry and no call will ever empty it. */
  ghost predicate Abandoned(s: Node, l: ServerId) {
    && l in s.armed && l < |s.servers|
    && (forall p :: !PodHas(s, p, l))
    && (forall c :: !ConcernedWith(s, c, l))
  }

  /** No handle to the cell is left: the killer in it is dropped. */
  ghost predicate Dropped(s: Node, l: ServerId) {
    Abandoned(s, l) && forall c :: !RefersTo(s, c, l)
  }

  // ---------------------------------------------------------------------------------------
  // The killer of a listening server is in its cell or in use
  // ---------------------------------------------------------------------------------------

  ghost predicate InHand(s: Node) {
    forall l <- s.listening :: l in s.armed || exists c :: WieldedBy(s, c, l)
  }

  ghost predicate SameHands(s: Node, t: Node) {
    && t.listening <= s.listening && s.armed <= t.armed
    && (forall c, l :: WieldedBy(s, c, l) ==> WieldedBy(t, c, l))
  }

  lemma SameInHand(s: Node, t: Node)
    requires InHand(s) && SameHands(s, t)
    ensures InHand(t)
  {
    hide WieldedBy;
  }

  /** The server that a call has in hand falls silent or keeps its killer there. */
  lemma HandedOn(s: Node, t: Node, c: CallId, l: ServerId)
    requires InHand(s) && t.listening <= s.listening && t.armed >= s.armed - {l}
    requires l in t.listening ==> WieldedBy(t, c, l)
    requires forall d, m | m != l :: WieldedBy(s, d, m) ==> WieldedBy(t, d, m)
    ensures InHand(t)
  {
    hide WieldedBy;
  }

  lemma StartHands(s: Node, c: CallId, p: PodId, awaited: Option<RoutesId>)
    ensures c in s.calls ==> s.calls[c].StartAwaiting? ==> SameHands(s, TryStart(s, c, p, awaited))
    ensures c !in s.calls ==> SameHands(s, TryStart(s, c, p, awaited))
    ensures c in s.calls && s.calls[c].StartUnbound? ==> SameHands(s, RollBack(s, c))
    ensures c in s.calls && s.calls[c].StartSpawned? ==> SameHands(s, Commit(s, c))
  {
  }

  lemma CreateHands(s: Node, p: PodId, params: Params)
    ensures SameHands(s, Create(s, p, params))
  {
    hide SameParams, RoutesUnusable, LaterAttempt;
  }

  lemma InitHands(s: Node, c: CallId, given: Option<Address>)
    ensures c !in s.calls ==> SameHands(s, BeginInit(s, c))
    ensures c in s.calls && s.calls[c].InitAwaiting? ==> SameHands(s, Lease(s, c, given))
    ensures c in s.calls && s.calls[c].InitAddressed? ==> SameHands(s, Insert(s, c))
  {
  }

  lemma StopHands(s: Node, c: CallId, p: PodId, done: bool)
    ensures c !in s.calls ==> SameHands(s, Stop(s, c, p)) && SameHands(s, Kill(s, c, p))
    ensures c in s.calls && s.calls[c].KillDeactivating? ==> SameHands(s, Quiet(s, c, done))
    ensures c in s.calls && s.calls[c].KillDeallocating? ==> SameHands(s, Release(s, c, done))
  {
  }

  lemma QuietHands(s: Node, t: Node)
    requires t.calls == s.calls && t.armed == s.armed && t.listening <= s.listening
    ensures SameHands(s, t)
  {
  }

  lemma BindHands(s: Node, c: CallId, bound: bool)
    requires InHand(s) && c in s.calls && s.calls[c].StartBinding?
    ensures InHand(BindOrNot(s, c, bound))
  {
    var t := BindOrNot(s, c, bound);
    assert forall d, l :: WieldedBy(s, d, l) ==> WieldedBy(t, d, l);
    hide WieldedBy;
  }

  lemma TakeHands(s: Node, c: CallId)
    requires InHand(s) && c in s.calls && (s.calls[c].StopTaking? || s.calls[c].KillTaking?)
    ensures s.calls[c].StopTaking? ==> InHand(TakeForStop(s, c))
    ensures s.calls[c].KillTaking? ==> InHand(TakeForKill(s, c))
  {
    var t := if s.calls[c].StopTaking? then TakeForStop(s, c) else TakeForKill(s, c);
    if IsArmed(s, s.calls[c].killer) {
      HandedOn(s, t, c, s.calls[c].killer.value);
    } else {
      SameInHand(s, t);
    }
  }

  lemma EndHands(s: Node, c: CallId)
    requires InHand(s) && c in s.calls
    ensures s.calls[c].StopKilling? ==> InHand(EndStop(s, c))
    ensures s.calls[c].KillKilling? ==> InHand(EndKill(s, c))
    ensures s.calls[c].StartAborting? ==> InHand(Abort(s, c))
  {
    if s.calls[c].StopKilling? { HandedOn(s, EndStop(s, c), c, s.calls[c].server); }
    if s.calls[c].KillKilling? { HandedOn(s, EndKill(s, c), c, s.calls[c].server); }
    if s.calls[c].StartAborting? { HandedOn(s, Abort(s, c), c, s.calls[c].server); }
  }

  lemma InHandKept(s: Node, step: Step)
    requires InHand(s) && Enabled(s, step)
    ensures InHand(Apply(s, step))
  {
    hide InHand, SameHands, BeginInit, Lease, Insert, Create, TryStart, BindOrNot, RollBack, Commit, Abort;
    hide Stop, TakeForStop, EndStop, Kill, TakeForKill, EndKill, Quiet, Release, Held;
    match step
    case Bind(c, bound) => BindHands(s, c, bound);
    case TakeToStop(c) => TakeHands(s, c);
    case TakeToKill(c) => TakeHands(s, c);
    case FinishStop(c) => EndHands(s, c);
    case FinishKill(c) => EndHands(s, c);
    case AbortServer(c) => EndHands(s, c);
    case _ =>
      PlainHands(s, step);
      SameInHand(s, Apply(s, step));
  }

  lemma PlainHands(s: Node, step: Step)
    requires Enabled(s, step) && !step.Bind? && !step.TakeToStop? && !step.TakeToKill?
    requires !step.FinishStop? && !step.FinishKill? && !step.AbortServer?
    ensures SameHands(s, Apply(s, step))
  {
    hide SameHands, BeginInit, Lease, Insert, Create, TryStart, RollBack, Commit;
    hide Stop, Kill, Quiet, Release, Held;
    match step
    case InitPod(c) => InitHands(s, c, None);
    case ObtainAddress(c, given) => InitHands(s, c, given);
    case InsertPod(c) => InitHands(s, c, None);
    case CreateContainer(p, params) => CreateHands(s, p, params);
    case StartContainer(c, p) => StartHands(s, c, p, None);
    case RetryStart(c) => StartHands(s, c, s.calls[c].pod, Some(s.calls[c].awaited));
    case RollBackStart(c) => StartHands(s, c, 0, None);
    case CommitStart(c) => StartHands(s, c, 0, None);
    case StopContainer(c, p) => StopHands(s, c, p, true);
    case KillPod(c, p) => StopHands(s, c, p, true);
    case Deactivate(c, done) => StopHands(s, c, 0, done);
    case Deallocate(c, done) => StopHands(s, c, 0, done);
    case RemoveContainer(p) => QuietHands(s, Remove(s, p));
    case DeletePod(p) => QuietHands(s, Delete(s, p));
    case ResolveRoutes(r, ready) => QuietHands(s, Resolve(s, r, ready));
    case EndServer(l) => QuietHands(s, Silence(s, l));
  }

  lemma {:induction false} RunInHand(steps: seq<Step>)
    requires IsRun(steps)
    ensures InHand(After(steps))
  {
    hide InHand, Apply;
    if steps == [] {
      NoneListens();
    } else {
      var n := |steps| - 1;
      LastStep(steps);
      RunInHand(steps[..n]);
      InHandKept(After(steps[..n]), steps[n]);
    }
  }

  lemma NoneListens()
    ensures InHand(START)
  {
  }

  /**
    * Over every run a listening server is kept, its killer with its pod's entry or with a call, or
    * it is abandoned; never both, and never anything else.
    */
  lemma KeptOrAbandoned(steps: seq<Step>, l: ServerId)
    requires IsRun(steps) && l in After(steps).listening
    ensures Kept(After(steps), l) <==> !Abandoned(After(steps), l)
  {
    var s := After(steps);
    RunCore(steps);
    RunInHand(steps);
    hide After, IsRun;
    if Kept(s, l) && !KeptByPod(s, l) {
      var c :| c in s.calls && Minds(s, s.calls[c], l);
      assert ConcernedWith(s, c, l);
    } else if Kept(s, l) {
      assert PodHas(s, s.servers[l].pod, l);
    } else {
      Unkept(s, l);
    }
  }

  lemma Unkept(s: Node, l: ServerId)
    requires Core(s) && InHand(s) && l in s.listening && !Kept(s, l)
    ensures Abandoned(s, l)
  {
    forall c ensures !WieldedBy(s, c, l) {
      if WieldedBy(s, c, l) { assert Minds(s, s.calls[c], l); }
    }
    assert l in s.armed;
    forall c ensures !ConcernedWith(s, c, l) {
      if ConcernedWith(s, c, l) { assert Minds(s, s.calls[c], l); }
    }
    forall p ensures !PodHas(s, p, l) {
      if p in s.pods { assert PodOk(s, p, s.pods[p]); }
    }
  }

  // ---------------------------------------------------------------------------------------
  // Abandoned for good
  // ---------------------------------------------------------------------------------------

  /** The step leaves the cell to those who have it already. */
  ghost predicate LeavesCell(s: Node, t: Node, l: ServerId) {
    && (l in s.armed ==> l in t.armed) && |s.servers| <= |t.servers|
    && (forall p :: PodHas(t, p, l) ==> PodHas(s, p, l))
    && (forall c :: ConcernedWith(t, c, l) ==> ConcernedWith(s, c, l))
    && (forall c :: RefersTo(t, c, l) ==> RefersTo(s, c, l))
  }

  lemma StartLeaves(s: Node, c: CallId, p: PodId, awaited: Option<RoutesId>, l: ServerId)
    requires Abandoned(s, l)
    ensures LeavesCell(s, TryStart(s, c, p, awaited), l)
  {
    if p in s.pods { assert !PodHas(s, p, l); }
  }

  lemma RollBackLeaves(s: Node, c: CallId, l: ServerId)
    requires c in s.calls && s.calls[c].StartUnbound?
    ensures LeavesCell(s, RollBack(s, c), l)
  {
  }

  lemma CommitLeaves(s: Node, c: CallId, l: ServerId)
    requires Abandoned(s, l) && c in s.calls
    ensures s.calls[c].StartSpawned? ==> LeavesCell(s, Commit(s, c), l)
    ensures s.calls[c].StartAborting? ==> LeavesCell(s, Abort(s, c), l)
  {
    assert !ConcernedWith(s, c, l);
  }

  lemma BindLeaves(s: Node, c: CallId, bound: bool, l: ServerId)
    requires Abandoned(s, l) && c in s.calls && s.calls[c].StartBinding?
    ensures LeavesCell(s, BindOrNot(s, c, bound), l)
  {
    var t := BindOrNot(s, c, bound);
    assert forall d | d != c :: ConcernedWith(t, d, l) ==> ConcernedWith(s, d, l);
    assert RefersTo(t, c, l) ==> RefersTo(s, c, l);
  }

  lemma CreateLeaves(s: Node, p: PodId, params: Params, l: ServerId)
    ensures LeavesCell(s, Create(s, p, params), l)
  {
    hide SameParams, RoutesUnusable, LaterAttempt;
  }

  lemma InitLeaves(s: Node, c: CallId, given: Option<Address>, l: ServerId)
    ensures LeavesCell(s, BeginInit(s, c), l)
    ensures c in s.calls && s.calls[c].InitAwaiting? ==> LeavesCell(s, Lease(s, c, given), l)
    ensures c in s.calls && s.calls[c].InitAddressed? ==> LeavesCell(s, Insert(s, c), l)
  {
  }

  lemma StopLeaves(s: Node, c: CallId, p: PodId, l: ServerId)
    requires Abandoned(s, l)
    ensures LeavesCell(s, Stop(s, c, p), l)
    ensures LeavesCell(s, Kill(s, c, p), l)
  {
    if p in s.pods { assert !PodHas(s, p, l); }
  }

  lemma RemoveLeaves(s: Node, p: PodId, l: ServerId)
    ensures LeavesCell(s, Remove(s, p), l)
    ensures LeavesCell(s, Delete(s, p), l)
  {
  }

  lemma TakeLeaves(s: Node, c: CallId, done: bool, l: ServerId)
    requires Abandoned(s, l) && c in s.calls
    ensures s.calls[c].StopTaking? ==> LeavesCell(s, TakeForStop(s, c), l)
    ensures s.calls[c].KillTaking? ==> LeavesCell(s, TakeForKill(s, c), l)
    ensures s.calls[c].StopKilling? ==> LeavesCell(s, EndStop(s, c), l)
    ensures s.calls[c].KillKilling? ==> LeavesCell(s, EndKill(s, c), l)
    ensures s.calls[c].KillDeactivating? ==> LeavesCell(s, Quiet(s, c, done), l)
    ensures s.calls[c].KillDeallocating? ==> LeavesCell(s, Release(s, c, done), l)
  {
    assert !ConcernedWith(s, c, l);
  }

  lemma QuietLeaves(s: Node, t: Node, l: ServerId)
    requires t.calls == s.calls && t.armed == s.armed && t.pods == s.pods && t.servers == s.servers
    ensures LeavesCell(s, t, l)
  {
  }

  lemma StepLeaves(s: Node, step: Step, l: ServerId)
    requires Abandoned(s, l) && Enabled(s, step)
    ensures LeavesCell(s, Apply(s, step), l)
  {
    hide Abandoned, LeavesCell, BeginInit, Lease, Insert, Create, TryStart, BindOrNot, RollBack, Commit, Abort;
    hide Stop, TakeForStop, EndStop, Kill, TakeForKill, EndKill, Quiet, Release, Remove, Delete, Held;
    match step
    case InitPod(c) => InitLeaves(s, c, None, l);
    case ObtainAddress(c, given) => InitLeaves(s, c, given, l);
    case InsertPod(c) => InitLeaves(s, c, None, l);
    case CreateContainer(p, params) => CreateLeaves(s, p, params, l);
    case StartContainer(c, p) => StartLeaves(s, c, p, None, l);
    case RetryStart(c) => StartLeaves(s, c, s.calls[c].pod, Some(s.calls[c].awaited), l);
    case Bind(c, bound) => BindLeaves(s, c, bound, l);
    case RollBackStart(c) => RollBackLeaves(s, c, l);
    case CommitStart(c) => CommitLeaves(s, c, l);
    case AbortServer(c) => CommitLeaves(s, c, l);
    case StopContainer(c, p) => StopLeaves(s, c, p, l);
    case KillPod(c, p) => StopLeaves(s, c, p, l);
    case RemoveContainer(p) => RemoveLeaves(s, p, l);
    case DeletePod(p) => RemoveLeaves(s, p, l);
    case TakeToStop(c) => TakeLeaves(s, c, true, l);
    case TakeToKill(c) => TakeLeaves(s, c, true, l);
    case FinishStop(c) => TakeLeaves(s, c, true, l);
    case FinishKill(c) => TakeLeaves(s, c, true, l);
    case Deactivate(c, done) => TakeLeaves(s, c, done, l);
    case Deallocate(c, done) => TakeLeaves(s, c, done, l);
    case ResolveRoutes(r, ready) => QuietLeaves(s, Resolve(s, r, ready), l);
    case EndServer(m) => QuietLeaves(s, Silence(s, m), l);
  }

  /** The step is the end of the server, of itself or because its killer was dropped. */
  lemma OnlyItsEnd(s: Node, step: Step, l: ServerId)
    requires Abandoned(s, l) && Enabled(s, step) && l in s.listening
    ensures l in Apply(s, step).listening || step == EndServer(l)
  {
    hide Create, TryStart, Held;
    if step.FinishStop? || step.FinishKill? || step.AbortServer? { assert !ConcernedWith(s, step.call, l); }
    if step.CreateContainer? { CreateListening(s, step.pod, step.params); }
    if step.StartContainer? { StartListening(s, step.call, step.pod, None); }
    if step.RetryStart? { StartListening(s, step.call, s.calls[step.call].pod, Some(s.calls[step.call].awaited)); }
  }

  lemma CreateListening(s: Node, p: PodId, params: Params)
    ensures Create(s, p, params).listening == s.listening
  {
    hide SameParams, RoutesUnusable, LaterAttempt;
  }

  lemma StartListening(s: Node, c: CallId, p: PodId, awaited: Option<RoutesId>)
    ensures TryStart(s, c, p, awaited).listening == s.listening
  {
  }

  /**
    * An abandoned server stays abandoned, and no snapshot gets to refer to its cell that did not
    * before: when the starts that had it at that point are over, its killer is dropped.
    */
  lemma {:induction false} AbandonedForever(steps: seq<Step>, l: ServerId, i: nat)
    requires IsRun(steps) && i <= |steps| && Abandoned(After(steps[..i]), l)
    ensures Abandoned(After(steps), l)
    ensures forall c :: RefersTo(After(steps), c, l) ==> RefersTo(After(steps[..i]), c, l)
    decreases |steps|
  {
    if i == |steps| {
      assert steps[..i] == steps;
    } else {
      var n := |steps| - 1;
      LastStep(steps);
      assert steps[..n][..i] == steps[..i];
      hide After, IsRun, Apply, Enabled, PodHas, ConcernedWith, RefersTo;
      AbandonedForever(steps[..n], l, i);
      StepLeaves(After(steps[..n]), steps[n], l);
    }
  }

  /** A server whose killer was dropped has nobody left, whatever the run goes on with. */
  lemma DroppedForever(steps: seq<Step>, l: ServerId, i: nat)
    requires IsRun(steps) && i <= |steps| && Dropped(After(steps[..i]), l)
    ensures Dropped(After(steps), l)
  {
    hide After, IsRun, RefersTo, Abandoned;
    AbandonedForever(steps, l, i);
  }
}

/**
  * What holds over every run of the pod lifecycle: any number of calls, interleaved in any way,
  * with servers, routes and addresses behaving as they please.
  */
module LifecycleRuns {
  import opened Prelude
  import opened Lifecycle
  import opened Custody
  import opened CustodyKept

  // ---------------------------------------------------------------------------------------
  // Custody over runs
  // ---------------------------------------------------------------------------------------

  lemma StartOk()
    ensures Core(START) && Safe(START) && SpawnsListen(START)
  {
  }

  /** The last step of a run, and the node it is taken at. */
  lemma LastStep(steps: seq<Step>)
    requires IsRun(steps) && steps != []
    ensures var n := |steps| - 1;
      IsRun(steps[..n]) && Enabled(After(steps[..n]), steps[n])
      && After(steps) == Apply(After(steps[..n]), steps[n])
  {
  }

  lemma {:induction false} RunCore(steps: seq<Step>)
    requires IsRun(steps)
    ensures Core(After(steps))
  {
    hide Core;
    if steps == [] {
      StartOk();
    } else {
      var n := |steps| - 1;
      LastStep(steps);
      RunCore(steps[..n]);
      CoreKept(After(steps[..n]), steps[n]);
    }
  }

  /** Every commit of the run was clean when it was made. */
  ghost predicate CleanRun(steps: seq<Step>) {
    IsRun(steps) && forall i | 0 <= i < |steps| && steps[i].CommitStart? :: CleanAt(steps, i)
  }

  ghost predicate CleanAt(steps: seq<Step>, i: nat)
    requires i < |steps| && steps[i].CommitStart?
  {
    var s, c := After(steps[..i]), steps[i].call;
    c in s.calls && s.calls[c].StartSpawned? && CleanCommit(s, c)
  }

  /** No server ended of itself between its bind and its commit. */
  ghost predicate GentleRun(steps: seq<Step>) {
    IsRun(steps) && forall i | 0 <= i < |steps| :: !EndsEarly(After(steps[..i]), steps[i])
  }

  lemma {:induction false} CleanRunSafe(steps: seq<Step>)
    requires CleanRun(steps)
    ensures Safe(After(steps))
  {
    hide Safe, Core;
    if steps == [] {
      StartOk();
    } else {
      var n := |steps| - 1;
      LastStep(steps);
      forall i | 0 <= i < n && steps[..n][i].CommitStart? ensures CleanAt(steps[..n], i) {
        assert CleanAt(steps, i);
        assert steps[..n][..i] == steps[..i];
      }
      CleanRunSafe(steps[..n]);
      RunCore(steps[..n]);
      SafeKept(After(steps[..n]), steps[n]);
    }
  }

  lemma {:induction false} GentleRunListens(steps: seq<Step>)
    requires GentleRun(steps)
    ensures SpawnsListen(After(steps))
  {
    hide SpawnsListen, Core;
    if steps == [] {
      StartOk();
    } else {
      var n := |steps| - 1;
      LastStep(steps);
      GentlePrefix(steps, n);
      GentleRunListens(steps[..n]);
      RunCore(steps[..n]);
      SpawnsListenKept(After(steps[..n]), steps[n]);
    }
  }

  lemma {:induction false} RunPrefix(steps: seq<Step>, i: nat)
    requires IsRun(steps) && i <= |steps|
    ensures IsRun(steps[..i])
    decreases |steps|
  {
    if i < |steps| {
      var n := |steps| - 1;
      RunPrefix(steps[..n], i);
      assert steps[..n][..i] == steps[..i];
    } else {
      assert steps[..i] == steps;
    }
  }

  lemma GentlePrefix(steps: seq<Step>, n: nat)
    requires GentleRun(steps) && n <= |steps|
    ensures GentleRun(steps[..n])
  {
    RunPrefix(steps, n);
    forall i | 0 <= i < n ensures !EndsEarly(After(steps[..n][..i]), steps[..n][i]) {
      assert steps[..n][..i] == steps[..i];
    }
  }

  lemma GentleRunClean(steps: seq<Step>)
    requires GentleRun(steps)
    ensures CleanRun(steps)
  {
    hide SpawnsListen, Core, CleanCommit, EndsEarly, Apply, After;
    forall i | 0 <= i < |steps| && steps[i].CommitStart? ensures CleanAt(steps, i) {
      GentlePrefix(steps, i);
      RunPrefix(steps, i + 1);
      LastStep(steps[..i + 1]);
      assert steps[..i + 1][..i] == steps[..i];
      GentleRunListens(steps[..i]);
      RunCore(steps[..i]);
      SpawnsListenClean(After(steps[..i]), steps[i].call);
    }
  }

  lemma CleanPrefix(steps: seq<Step>, n: nat)
    requires CleanRun(steps) && n <= |steps|
    ensures CleanRun(steps[..n])
  {
    RunPrefix(steps, n);
    hide IsRun, CleanAt;
    forall i | 0 <= i < n && steps[..n][i].CommitStart? ensures CleanAt(steps[..n], i) {
      assert CleanAt(steps, i);
      CleanAtPrefix(steps, n, i);
    }
  }

  lemma CleanAtPrefix(steps: seq<Step>, n: nat, i: nat)
    requires i < n <= |steps| && steps[i].CommitStart?
    ensures CleanAt(steps[..n], i) <==> CleanAt(steps, i)
  {
    assert steps[..n][..i] == steps[..i];
  }

  ghost predicate NeverLoses(steps: seq<Step>) {
    forall i | 0 <= i <= |steps| :: NoneLost(After(steps[..i]))
  }

  /** A run loses no server at any point if and only if every commit of it is clean. */
  lemma {:induction false} NeverLosesIffClean(steps: seq<Step>)
    requires IsRun(steps)
    ensures NeverLoses(steps) <==> CleanRun(steps)
  {
    hide NoneLost, CleanCommit;
    if CleanRun(steps) {
      forall i | 0 <= i <= |steps| ensures NoneLost(After(steps[..i])) {
        CleanPrefix(steps, i);
        CleanRunSafe(steps[..i]);
      }
    }
    if NeverLoses(steps) && steps != [] {
      var n := |steps| - 1;
      LastStep(steps);
      forall i | 0 <= i <= n ensures NoneLost(After(steps[..n][..i])) { assert steps[..n][..i] == steps[..i]; }
      NeverLosesIffClean(steps[..n]);
      assert steps[..|steps|] == steps;
      CleanExtends(steps);
    }
  }

  lemma CleanExtends(steps: seq<Step>)
    requires IsRun(steps) && steps != [] && CleanRun(steps[..|steps| - 1]) && NoneLost(After(steps))
    ensures CleanRun(steps)
  {
    var n := |steps| - 1;
    hide Safe, NoneLost, IsRun, After, CleanAt;
    if steps[n].CommitStart? { LastClean(steps); }
    RunPrefix(steps, n);
    forall i | 0 <= i < |steps| && steps[i].CommitStart? ensures CleanAt(steps, i) {
      if i < n {
        assert steps[..n][i] == steps[i];
        assert CleanAt(steps[..n], i);
        CleanAtPrefix(steps, n, i);
      }
    }
  }

  lemma LastClean(steps: seq<Step>)
    requires IsRun(steps) && steps != [] && steps[|steps| - 1].CommitStart?
    requires CleanRun(steps[..|steps| - 1]) && NoneLost(After(steps))
    ensures CleanAt(steps, |steps| - 1)
  {
    var n := |steps| - 1;
    LastStep(steps);
    RunCore(steps[..n]);
    CleanRunSafe(steps[..n]);
    hide Core, Safe, NoneLost, IsRun, After, CleanRun, CleanCommit, Apply;
    UncleanLoses(After(steps[..n]), steps[n].call);
    assert steps[n] == CommitStart(steps[n].call);
  }

  lemma UncleanLoses(s: Node, c: CallId)
    requires Core(s) && Safe(s) && Enabled(s, CommitStart(c))
    ensures NoneLost(Apply(s, CommitStart(c))) ==> CleanCommit(s, c)
  {
    var p := s.calls[c].pod;
    if p in s.pods && s.pods[p].state.Starting? {
      hide Core, Safe;
      PublishExact(s, c);
    }
  }

  /** No lost server, over every run in which servers outlive their start. */
  lemma NoLostServer(steps: seq<Step>)
    requires GentleRun(steps)
    ensures CleanRun(steps) && NeverLoses(steps)
  {
    GentleRunClean(steps);
    NeverLosesIffClean(steps);
  }

  /**
    * The killer of a listening server is in one place: in a cell that a pod or a call can reach,
    * or in the hands of one stop or kill.
    */
  lemma CustodyOf(steps: seq<Step>, l: ServerId)
    requires CleanRun(steps) && l in After(steps).listening
    ensures var s := After(steps);
      if l in s.armed then
        && (forall c <- s.calls :: !Wields(s.calls[c], l))
        && (KeptByPod(s, l) || Aimed(s, l) || exists c :: c in s.calls && Nurses(s.calls[c], l))
      else
        exists c :: c in s.calls && Wields(s.calls[c], l) && forall d <- s.calls :: Wields(s.calls[d], l) ==> d == c
  {
    var s := After(steps);
    RunCore(steps);
    CleanRunSafe(steps);
    hide After, CleanRun;
    assert Kept(s, l);
    forall c <- s.calls | Wields(s.calls[c], l) || Nurses(s.calls[c], l)
      ensures l in s.armed <==> Nurses(s.calls[c], l)
    {
      assert CallOk(s, s.calls[c]);
    }
    if l !in s.armed {
      var c :| c in s.calls && Minds(s, s.calls[c], l);
      assert Wields(s.calls[c], l);
    }
  }

  // ---------------------------------------------------------------------------------------
  // Killed for good
  // ---------------------------------------------------------------------------------------

  /** The pod was inserted once, and has since been killed, or killed and deleted. */
  predicate Doomed(s: Node, p: PodId) {
    p in s.addressOf && (p in s.pods ==> s.pods[p].state.Killed?)
  }

  predicate OnPod(k: Call, p: PodId) {
    k.pod == p && (StartCall(k) || StopCall(k) || KillCall(k))
  }

  /** Once the kill of a pod is over, and no start or stop of it lingers, its servers are gone. */
  lemma KilledIsSilent(steps: seq<Step>, p: PodId)
    requires CleanRun(steps) && Doomed(After(steps), p)
    requires forall c <- After(steps).calls :: !OnPod(After(steps).calls[c], p)
    ensures forall l <- After(steps).listening :: l < |After(steps).servers| && After(steps).servers[l].pod != p
  {
    var s := After(steps);
    RunCore(steps);
    CleanRunSafe(steps);
    hide After, CleanRun;
    forall l <- s.listening ensures l < |s.servers| && s.servers[l].pod != p {
      assert Kept(s, l);
    }
  }

  // ---------------------------------------------------------------------------------------
  // Whom an address serves
  // ---------------------------------------------------------------------------------------

  /** The server listens on the address of the pod and belongs to another. */
  predicate Foreign(s: Node, l: ServerId, q: PodId)
    requires q in s.pods
  {
    l in s.listening && l < |s.servers| && s.servers[l].address == s.pods[q].address && s.servers[l].pod != q
  }

  /** A start or a stop of another pod that still has the server, or the cell of its killer, in hand. */
  predicate Straggles(s: Node, k: Call, l: ServerId) {
    Nurses(k, l) || (k.StopKilling? && k.server == l) || (k.StopTaking? && k.killer == Some(l) && l in s.armed)
  }

  ghost predicate Straggler(s: Node, l: ServerId) {
    l < |s.servers| && exists c :: c in s.calls && s.calls[c].pod == s.servers[l].pod && Straggles(s, s.calls[c], l)
  }

  /**
    * A server listens on a living pod's address without being that pod's only when its own pod was
    * killed and a start or a stop of that pod has yet to let go of it.
    */
  lemma ForeignStraggles(steps: seq<Step>, l: ServerId, q: PodId)
    requires CleanRun(steps)
    requires q in After(steps).pods && !After(steps).pods[q].state.Killed? && Foreign(After(steps), l, q)
    ensures l < |After(steps).servers| && Doomed(After(steps), After(steps).servers[l].pod)
    ensures Straggler(After(steps), l)
  {
    var s := After(steps);
    RunCore(steps);
    CleanRunSafe(steps);
    hide After, CleanRun;
    var p := s.servers[l].pod;
    assert HasAddress(s, p, s.servers[l].address) && PodOk(s, q, s.pods[q]);
    if p in s.pods { assert PodOk(s, p, s.pods[p]) && PodsApart(s.pods[p], s.pods[q]); }
    hide Core;
    KeptByCall(s, l);
    var c :| c in s.calls && Minds(s, s.calls[c], l);
    MinderStraggles(s, c, l, q);
  }

  /** The server of a pod that was killed is in the hands of a call, or on its way there. */
  lemma KeptByCall(s: Node, l: ServerId)
    requires Safe(s) && l in s.listening && l < |s.servers| && Doomed(s, s.servers[l].pod)
    ensures exists c :: c in s.calls && Minds(s, s.calls[c], l)
  {
    assert Kept(s, l);
    if KeptByPod(s, l) {
      var p := s.servers[l].pod;
      assert Watched(s, p);
      var c :| c in s.calls && s.calls[c].KillTaking? && s.calls[c].pod == p && s.calls[c].killer == s.pods[p].killer;
      assert Minds(s, s.calls[c], l);
    }
  }

  lemma MinderStraggles(s: Node, c: CallId, l: ServerId, q: PodId)
    requires Core(s) && c in s.calls && Minds(s, s.calls[c], l)
    requires q in s.pods && !s.pods[q].state.Killed? && Foreign(s, l, q)
    ensures Straggler(s, l)
  {
    assert CallOk(s, s.calls[c]) && Fits(q, s.pods[q], s.calls[c]);
    assert HasAddress(s, s.servers[l].pod, s.servers[l].address);
    assert s.calls[c].pod == s.servers[l].pod && Straggles(s, s.calls[c], l);
  }

  /** Without such calls the address of a living pod serves that pod alone. */
  lemma AddressServesItsPod(steps: seq<Step>, q: PodId)
    requires CleanRun(steps) && q in After(steps).pods && !After(steps).pods[q].state.Killed?
    requires forall c <- After(steps).calls ::
      StartCall(After(steps).calls[c]) || StopCall(After(steps).calls[c]) ==>
        !Doomed(After(steps), After(steps).calls[c].pod)
    ensures forall l <- After(steps).listening :: !Foreign(After(steps), l, q)
  {
    hide CleanRun, After;
    forall l <- After(steps).listening ensures !Foreign(After(steps), l, q) {
      if Foreign(After(steps), l, q) { ForeignStraggles(steps, l, q); }
    }
  }

  /** How one step may move the entry of a pod: in once, to `Killed` by a kill, out from there. */
  predicate Onward(s: Node, t: Node, p: PodId, killing: bool, deleting: bool) {
    && (p in s.addressOf ==> p in t.addressOf && t.addressOf[p] == s.addressOf[p])
    && (p in t.pods && p !in s.pods ==> p !in s.addressOf && t.pods[p].state.Initiated?)
    && (p in s.pods && s.pods[p].state.Killed? && p in t.pods ==> t.pods[p].state.Killed?)
    && (p in s.pods && p !in t.pods ==> deleting && s.pods[p].state.Killed?)
    && (p in s.pods && p in t.pods && t.pods[p].state.Killed? && !s.pods[p].state.Killed? ==> killing)
  }

  lemma InsertOnward(s: Node, c: CallId, p: PodId)
    requires Core(s) && c in s.calls && s.calls[c].InitAddressed?
    ensures Onward(s, Insert(s, c), p, false, false)
  {
    assert CallOk(s, s.calls[c]);
  }

  lemma CreateOnward(s: Node, q: PodId, params: Params, p: PodId)
    ensures Onward(s, Create(s, q, params), p, false, false)
  {
  }

  lemma StartOnward(s: Node, c: CallId, q: PodId, awaited: Option<RoutesId>, p: PodId)
    ensures Onward(s, TryStart(s, c, q, awaited), p, false, false)
    ensures c in s.calls && s.calls[c].StartUnbound? ==> Onward(s, RollBack(s, c), p, false, false)
    ensures c in s.calls && s.calls[c].StartSpawned? ==> Onward(s, Commit(s, c), p, false, false)
  {
  }

  lemma StopOnward(s: Node, c: CallId, q: PodId, p: PodId)
    ensures Onward(s, Stop(s, c, q), p, false, false)
    ensures Onward(s, Remove(s, q), p, false, false)
    ensures Onward(s, Kill(s, c, q), p, q == p, false)
    ensures Onward(s, Delete(s, q), p, false, q == p)
  {
  }

  lemma SameOnward(s: Node, t: Node, p: PodId)
    requires t.pods == s.pods && t.addressOf == s.addressOf
    ensures Onward(s, t, p, false, false)
  {
  }

  predicate Kills(step: Step, p: PodId) { step.KillPod? && step.pod == p }

  predicate Deletes(step: Step, p: PodId) { step == DeletePod(p) }

  lemma PodsOnward(s: Node, step: Step, p: PodId)
    requires Core(s) && Enabled(s, step)
    ensures Onward(s, Apply(s, step), p, Kills(step, p), Deletes(step, p))
  {
    hide Core, Onward, Insert, Create, TryStart, RollBack, Commit, Stop, Remove, Kill, Delete;
    match step
    case InsertPod(c) => InsertOnward(s, c, p);
    case CreateContainer(q, params) => CreateOnward(s, q, params, p);
    case StartContainer(c, q) => StartOnward(s, c, q, None, p);
    case RetryStart(c) => StartOnward(s, c, s.calls[c].pod, Some(s.calls[c].awaited), p);
    case RollBackStart(c) => StartOnward(s, c, 0, None, p);
    case CommitStart(c) => StartOnward(s, c, 0, None, p);
    case StopContainer(c, q) => StopOnward(s, c, q, p);
    case RemoveContainer(q) => StopOnward(s, 0, q, p);
    case KillPod(c, q) => StopOnward(s, c, q, p);
    case DeletePod(q) => StopOnward(s, 0, q, p);
    case _ => SameOnward(s, Apply(s, step), p);
  }

  /** Killed is left by deletion alone, and a deleted pod does not come back. */
  lemma {:induction false} DoomedForever(steps: seq<Step>, p: PodId, i: nat)
    requires IsRun(steps) && i <= |steps| && Doomed(After(steps[..i]), p)
    ensures Doomed(After(steps), p)
    decreases |steps|
  {
    hide Core;
    if i == |steps| {
      assert steps[..i] == steps;
    } else {
      var n := |steps| - 1;
      LastStep(steps);
      assert steps[..n][..i] == steps[..i];
      DoomedForever(steps[..n], p, i);
      RunCore(steps[..n]);
      PodsOnward(After(steps[..n]), steps[n], p);
    }
  }

  ghost predicate EntersKilled(s: Node, step: Step, p: PodId) {
    && Enabled(s, step) && p in s.pods && !s.pods[p].state.Killed?
    && p in Apply(s, step).pods && Apply(s, step).pods[p].state.Killed?
  }

  /** A pod is killed at most once in a run. */
  lemma KilledOnce(steps: seq<Step>, p: PodId, i: nat, j: nat)
    requires IsRun(steps) && i < j < |steps|
    requires EntersKilled(After(steps[..i]), steps[i], p)
    ensures !EntersKilled(After(steps[..j]), steps[j], p)
  {
    hide Core, IsRun, After, Enabled, Doomed;
    PrefixStep(steps, i);
    RunPrefix(steps, j);
    RunCore(steps[..i]);
    EnteringDooms(After(steps[..i]), steps[i], p);
    hide EntersKilled;
    assert steps[..j][..i + 1] == steps[..i + 1];
    DoomedForever(steps[..j], p, i + 1);
    DoomedStays(After(steps[..j]), steps[j], p);
  }

  lemma EnteringDooms(s: Node, step: Step, p: PodId)
    requires Core(s) && EntersKilled(s, step, p)
    ensures Doomed(Apply(s, step), p)
  {
    assert PodOk(s, p, s.pods[p]);
    hide Core;
    PodsOnward(s, step, p);
  }

  lemma DoomedStays(s: Node, step: Step, p: PodId)
    requires Doomed(s, p)
    ensures !EntersKilled(s, step, p)
  {
  }

  lemma PrefixStep(steps: seq<Step>, i: nat)
    requires IsRun(steps) && i < |steps|
    ensures IsRun(steps[..i]) && IsRun(steps[..i + 1]) && Enabled(After(steps[..i]), steps[i])
    ensures After(steps[..i + 1]) == Apply(After(steps[..i]), steps[i])
  {
    hide Enabled, Apply;
    RunPrefix(steps, i + 1);
    LastStep(steps[..i + 1]);
    assert steps[..i + 1][..i] == steps[..i];
  }

  // ---------------------------------------------------------------------------------------
  // An address is given up once, and nobody lives there by then
  // ---------------------------------------------------------------------------------------

  datatype Stage = Deactivation | Deallocation

  /** The step asks the address manager to deactivate, or to deallocate, the address of the pod. */
  predicate GivesUp(s: Node, step: Step, p: PodId, stage: Stage) {
    match stage
    case Deactivation => step.Deactivate? && Enabled(s, step) && s.calls[step.call].pod == p
    case Deallocation => step.Deallocate? && Enabled(s, step) && s.calls[step.call].pod == p
  }

  /** The kill of the pod has left the stage behind. */
  ghost predicate Past(s: Node, p: PodId, stage: Stage) {
    Doomed(s, p) && forall c <- s.calls :: PastCall(s.calls[c], p, stage)
  }

  predicate PastCall(k: Call, p: PodId, stage: Stage) {
    KillCall(k) && k.pod == p ==> stage.Deactivation? && k.KillDeallocating?
  }

  lemma PastStays(s: Node, step: Step, p: PodId, stage: Stage)
    requires Core(s) && Enabled(s, step) && Past(s, p, stage)
    ensures Past(Apply(s, step), p, stage)
  {
    hide Core, Enabled, Apply;
    var t := Apply(s, step);
    PodsOnward(s, step, p);
    forall c <- t.calls ensures PastCall(t.calls[c], p, stage) { CallsOnward(s, step, c); }
  }

  lemma GivingUpPasses(s: Node, step: Step, p: PodId, stage: Stage)
    requires Core(s) && GivesUp(s, step, p, stage)
    ensures Enabled(s, step) && Past(Apply(s, step), p, stage) && !Past(s, p, stage)
  {
    var d := step.call;
    assert CallOk(s, s.calls[d]);
    if p in s.pods { assert Fits(p, s.pods[p], s.calls[d]); }
    forall c <- s.calls | c != d && KillCall(s.calls[c]) ensures s.calls[c].pod != p {
      assert Agree(s.calls[c], s.calls[d]);
    }
    hide Core;
  }

  lemma {:induction false} PastForever(steps: seq<Step>, p: PodId, stage: Stage, i: nat)
    requires IsRun(steps) && i <= |steps| && Past(After(steps[..i]), p, stage)
    ensures Past(After(steps), p, stage)
    decreases |steps|
  {
    hide Core, Past, Enabled, Apply;
    if i == |steps| {
      assert steps[..i] == steps;
    } else {
      var n := |steps| - 1;
      LastStep(steps);
      assert steps[..n][..i] == steps[..i];
      PastForever(steps[..n], p, stage, i);
      RunCore(steps[..n]);
      PastStays(After(steps[..n]), steps[n], p, stage);
    }
  }

  /** The address of a pod is deactivated at most once, and deallocated at most once. */
  lemma GivenUpOnce(steps: seq<Step>, p: PodId, stage: Stage, i: nat, j: nat)
    requires IsRun(steps) && i < j < |steps|
    requires GivesUp(After(steps[..i]), steps[i], p, stage)
    ensures !GivesUp(After(steps[..j]), steps[j], p, stage)
  {
    hide Core, IsRun, After, Past, GivesUp, Enabled, Apply;
    PrefixStep(steps, i);
    RunPrefix(steps, j);
    RunCore(steps[..i]);
    RunCore(steps[..j]);
    GivingUpPasses(After(steps[..i]), steps[i], p, stage);
    assert steps[..j][..i + 1] == steps[..i + 1];
    PastForever(steps[..j], p, stage, i + 1);
    if GivesUp(After(steps[..j]), steps[j], p, stage) {
      GivingUpPasses(After(steps[..j]), steps[j], p, stage);
    }
  }

  /** Living pods have allocated addresses of their own, and an address that is freed is nobody's. */
  lemma AddressSafety(steps: seq<Step>, p: PodId, q: PodId, step: Step)
    requires IsRun(steps) && Enabled(After(steps), step)
    requires p in After(steps).pods && !After(steps).pods[p].state.Killed?
    ensures After(steps).pods[p].address in After(steps).leased
    ensures q in After(steps).pods && !After(steps).pods[q].state.Killed? && q != p ==>
              After(steps).pods[q].address != After(steps).pods[p].address
    ensures step.Deallocate? ==> After(steps).calls[step.call].address != After(steps).pods[p].address
  {
    var s := After(steps);
    RunCore(steps);
    hide After, IsRun, Apply;
    assert PodOk(s, p, s.pods[p]);
    if step.Deallocate? { assert Fits(p, s.pods[p], s.calls[step.call]); }
    if q in s.pods && q != p { assert PodsApart(s.pods[p], s.pods[q]); }
  }
}

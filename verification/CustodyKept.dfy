/**
  * Every step of every call keeps the agreements of `Custody`, and loses no server. A step is
  * taken apart into ending the call, changing the ground, changing the pod, and going on.
  */
module CustodyKept {
  import opened Prelude
  import opened Lifecycle
  import opened Custody

  // ---------------------------------------------------------------------------------------
  // Changes of the ground
  // ---------------------------------------------------------------------------------------

  lemma DisarmCore(s: Node, l: ServerId, taker: Taker)
    requires Core(s) && l in s.armed
    requires forall c <- s.calls :: !Nurses(s.calls[c], l)
    requires forall c <- s.calls :: s.calls[c].StopTaking? && Aims(s.calls[c], l) ==> taker.ByKill?
    requires forall p <- s.pods :: s.pods[p].state.Running? ==> s.pods[p].killer != Some(l)
    ensures Core(Disarm(s, l, taker))
  {
    GroundCore(s, Disarm(s, l, taker));
  }

  lemma SilenceCore(s: Node, l: ServerId)
    requires Core(s)
    ensures Core(Silence(s, l))
  {
    GroundCore(s, Silence(s, l));
  }

  lemma LeasedCore(s: Node, a: Address)
    requires Core(s)
    ensures Core(s.(leased := s.leased + {a}))
  {
    GroundCore(s, s.(leased := s.leased + {a}));
  }

  lemma ReleasedCore(s: Node, a: Address)
    requires Core(s)
    requires forall c <- s.calls :: HoldsAddress(s.calls[c]) ==> s.calls[c].address != a
    requires forall p <- s.pods :: !s.pods[p].state.Killed? ==> s.pods[p].address != a
    ensures Core(s.(leased := s.leased - {a}))
  {
    GroundCore(s, s.(leased := s.leased - {a}));
  }

  lemma RoutesCore(s: Node, routes: seq<RoutesStatus>)
    requires Core(s) && |routes| >= |s.routes|
    ensures Core(s.(routes := routes))
  {
    GroundCore(s, s.(routes := routes));
  }

  function Spawned(s: Node, p: PodId, a: Address): Node {
    s.(servers := s.servers + [Server(p, a)],
       armed := s.armed + {|s.servers|}, listening := s.listening + {|s.servers|})
  }

  lemma SpawnedCore(s: Node, p: PodId, a: Address)
    requires Core(s) && HasAddress(s, p, a) && !Held(s, a)
    ensures Core(Spawned(s, p, a))
  {
    GroundCore(s, Spawned(s, p, a));
  }

  lemma NumberedCore(s: Node)
    requires Core(s)
    ensures Core(s.(nextPod := s.nextPod + 1))
  {
    GroundCore(s, s.(nextPod := s.nextPod + 1));
  }

  lemma AddressedCore(s: Node, p: PodId, a: Address)
    requires Core(s) && p < s.nextPod && p !in s.addressOf
    requires forall c <- s.calls :: s.calls[c].pod != p
    ensures Core(s.(addressOf := s.addressOf[p := a]))
  {
    GroundCore(s, s.(addressOf := s.addressOf[p := a]));
  }

  // ---------------------------------------------------------------------------------------
  // Every step keeps the agreements
  // ---------------------------------------------------------------------------------------

  lemma BeginInitCore(s: Node, c: CallId)
    requires Core(s) && c !in s.calls
    ensures Core(BeginInit(s, c))
  {
    NumberedCore(s);
    GoCore(s.(nextPod := s.nextPod + 1), c, InitAwaiting(s.nextPod));
  }

  lemma LeaseCore(s: Node, c: CallId, given: Option<Address>)
    requires Core(s) && c in s.calls && s.calls[c].InitAwaiting?
    requires given.Some? ==> given.value !in s.leased
    ensures Core(Lease(s, c, given))
  {
    DoneCore(s, c);
    if given.Some? {
      LeasedCore(s, given.value);
      var k := InitAddressed(s.calls[c].pod, given.value);
      forall d <- s.calls | d != c ensures Agree(k, s.calls[d]) { assert Agree(s.calls[c], s.calls[d]); }
      GoCore(s.(leased := s.leased + {given.value}), c, k);
    }
  }

  lemma InsertCore(s: Node, c: CallId)
    requires Core(s) && c in s.calls && s.calls[c].InitAddressed?
    ensures s.calls[c].pod !in s.pods && Core(Insert(s, c))
  {
    var InitAddressed(p, a) := s.calls[c];
    var ended := Done(s, c);
    DoneCore(s, c);
    forall d <- ended.calls ensures ended.calls[d].pod != p && Fits(p, NewPod(a), ended.calls[d]) {
      assert Agree(s.calls[c], s.calls[d]);
    }
    forall q <- s.pods ensures q != p && PodsApart(NewPod(a), s.pods[q]) {
      assert Fits(q, s.pods[q], s.calls[c]);
    }
    AddressedCore(ended, p, a);
    var t := ended.(addressOf := s.addressOf[p := a]);
    assert PodOk(t, p, NewPod(a));
    hide Core, PodOk, Fits, PodsApart, CallOk, Agree;
    PutCore(t, p, NewPod(a));
  }

  lemma RecreateCore(s: Node, p: PodId, params: Params)
    requires Core(s) && p in s.pods && !s.pods[p].state.Killed?
    ensures Core(Recreate(s, p, s.pods[p], params))
  {
    var t := s.(routes := s.routes + [Pending]);
    RoutesCore(s, s.routes + [Pending]);
    RewriteCore(t, p, s.pods[p].(state := Created, params := params, routes := Some(|s.routes|)));
  }

  /** An entry may be rewritten with its address and killer, short of `Running` and `Killed`. */
  lemma RewriteCore(s: Node, p: PodId, x: Pod)
    requires Core(s) && p in s.pods && !s.pods[p].state.Killed? && !x.state.Running?
    requires x.address == s.pods[p].address && x.killer == s.pods[p].killer
    requires x.state.Created? || x.state.Starting? ==> HasRoutes(s, x.routes)
    ensures Core(Put(s, p, x))
  {
    forall c <- s.calls ensures Fits(p, x, s.calls[c]) { assert Fits(p, s.pods[p], s.calls[c]); }
    forall q <- s.pods | q != p ensures PodsApart(x, s.pods[q]) { assert PodsApart(s.pods[p], s.pods[q]); }
    assert PodOk(s, p, x);
    hide Core, PodOk, Fits, PodsApart;
    PutCore(s, p, x);
  }

  lemma CreateCore(s: Node, p: PodId, params: Params)
    requires Core(s)
    ensures Core(Create(s, p, params))
  {
    if p in s.pods && !s.pods[p].state.Killed? {
      var x := s.pods[p];
      RecreateCore(s, p, params);
      assert PodOk(s, p, x);
      if HasRoutes(s, x.routes) { RewriteCore(s, p, x.(state := Created, params := params)); }
      hide Core, SameParams, RoutesUnusable, LaterAttempt, Recreate;
    }
  }

  lemma AwaitCore(s: Node, c: CallId, p: PodId, r: RoutesId)
    requires Core(s) && p in s.pods && r < |s.routes|
    ensures Core(Go(s, c, StartAwaiting(p, r)))
  {
    assert PodOk(s, p, s.pods[p]);
    StartCore(s, c, StartAwaiting(p, r));
  }

  lemma ClaimCore(s: Node, c: CallId, p: PodId)
    requires Core(s) && p in s.pods && s.pods[p].state.Created?
    ensures Core(Go(SetState(s, p, Starting), c, StartBinding(p, s.pods[p].(state := Starting))))
  {
    var x := s.pods[p].(state := Starting);
    assert PodOk(s, p, s.pods[p]);
    assert CallOk(Put(s, p, x), StartBinding(p, x));
    RewriteCore(s, p, x);
    hide Core, PodOk, CallOk;
    StartCore(Put(s, p, x), c, StartBinding(p, x));
  }

  lemma TryStartCore(s: Node, c: CallId, p: PodId, awaited: Option<RoutesId>)
    requires Core(s)
    ensures Core(TryStart(s, c, p, awaited))
  {
    hide Core;
    DoneCore(s, c);
    if p in s.pods && s.pods[p].state.Created? {
      ClaimCore(s, c, p);
      if HasRoutes(s, s.pods[p].routes) { AwaitCore(s, c, p, s.pods[p].routes.value); }
    }
  }

  /** A start that awaits or binds claims nothing. */
  lemma StartCore(s: Node, c: CallId, k: Call)
    requires Core(s) && CallOk(s, k) && (k.StartAwaiting? || k.StartBinding?)
    ensures Core(Go(s, c, k))
  {
    GoCore(s, c, k);
  }

  lemma BindOrNotCore(s: Node, c: CallId, bound: bool)
    requires Core(s) && c in s.calls && s.calls[c].StartBinding?
    requires bound ==> !Held(s, s.calls[c].snapshot.address)
    ensures Core(BindOrNot(s, c, bound))
  {
    var p := s.calls[c].pod;
    var x := s.calls[c].snapshot;
    if bound {
      var t := Spawned(s, p, x.address);
      SpawnedCore(s, p, x.address);
      var k := StartSpawned(p, x, |s.servers|);
      forall d <- s.calls ensures Agree(k, s.calls[d]) { assert CallOk(s, s.calls[d]); }
      forall q <- s.pods ensures Fits(q, s.pods[q], k) { assert PodOk(s, q, s.pods[q]); }
      assert CallOk(t, k);
      hide Core, CallOk, Agree, Fits;
      GoCore(t, c, k);
    } else {
      MilderCore(s, c, StartUnbound(p));
    }
  }

  lemma RollBackCore(s: Node, c: CallId)
    requires Core(s) && c in s.calls && s.calls[c].StartUnbound?
    ensures Core(RollBack(s, c))
  {
    var p := s.calls[c].pod;
    DoneCore(s, c);
    if p in s.pods && s.pods[p].state.Starting? {
      var x := s.pods[p].(state := Created);
      assert PodOk(s, p, s.pods[p]);
      RewriteCore(s, p, x);
      hide Core;
      DoneCore(Put(s, p, x), c);
    }
  }

  lemma CommitCore(s: Node, c: CallId)
    requires Core(s) && c in s.calls && s.calls[c].StartSpawned?
    ensures Core(Commit(s, c))
  {
    var StartSpawned(p, snapshot, l) := s.calls[c];
    if p in s.pods && s.pods[p].state.Starting? {
      var x := snapshot.(state := Running, killer := Some(l));
      forall d <- s.calls | d != c ensures Fits(p, x, s.calls[d]) {
        assert Agree(s.calls[c], s.calls[d]) && Fits(p, s.pods[p], s.calls[d]);
      }
      forall q <- s.pods | q != p ensures PodsApart(x, s.pods[q]) { assert PodsApart(s.pods[p], s.pods[q]); }
      DoneCore(s, c);
      assert PodOk(Done(s, c), p, x);
      hide Core, Fits, PodsApart, PodOk;
      PutCore(Done(s, c), p, x);
    } else {
      MilderCore(s, c, StartAborting(p, l));
    }
  }

  lemma AbortCore(s: Node, c: CallId)
    requires Core(s) && c in s.calls && s.calls[c].StartAborting?
    ensures Core(Abort(s, c))
  {
    var l := s.calls[c].server;
    var ended := Done(s, c);
    DoneCore(s, c);
    forall d <- ended.calls ensures !Nurses(ended.calls[d], l) && !Aims(ended.calls[d], l) {
      assert Agree(s.calls[c], s.calls[d]);
    }
    forall p <- s.pods ensures s.pods[p].killer != Some(l) { assert Fits(p, s.pods[p], s.calls[c]); }
    assert l in s.armed;
    hide Core;
    DisarmCore(ended, l, ByStart);
    SilenceCore(Disarm(ended, l, ByStart), l);
  }

  lemma StopCore(s: Node, c: CallId, p: PodId)
    requires Core(s) && c !in s.calls
    ensures Core(Stop(s, c, p))
  {
    if p in s.pods && (s.pods[p].state.Starting? || s.pods[p].state.Running?) {
      var x := s.pods[p].(state := Stopped);
      RewriteCore(s, p, x);
      var t := Put(s, p, x);
      if s.pods[p].state.Running? {
        var k := StopTaking(p, x.killer);
        assert PodOk(s, p, s.pods[p]);
        forall d <- s.calls ensures Agree(k, s.calls[d]) { assert Fits(p, s.pods[p], s.calls[d]); }
        forall q <- t.pods ensures Fits(q, t.pods[q], k) { assert q in s.pods && PodOk(s, q, s.pods[q]); }
        assert CallOk(t, k);
        hide Core, CallOk, Agree, Fits, PodOk;
        GoCore(t, c, k);
      }
    }
  }

  /** Whoever aims at a full cell may empty it, once its own stop is off the books. */
  lemma TakenCore(s: Node, c: CallId, l: ServerId, taker: Taker)
    requires Core(s) && c in s.calls && Aims(s.calls[c], l) && l in s.armed
    requires taker.ByKill? || s.calls[c].StopTaking?
    ensures Core(Disarm(Done(s, c), l, taker))
    ensures forall d <- s.calls :: d != c ==> !Nurses(s.calls[d], l) && !Wields(s.calls[d], l)
  {
    forall d <- s.calls | d != c
      ensures !Nurses(s.calls[d], l) && !Wields(s.calls[d], l)
      ensures s.calls[d].StopTaking? && Aims(s.calls[d], l) ==> taker.ByKill?
    {
      assert Agree(s.calls[c], s.calls[d]);
    }
    forall p <- s.pods ensures s.pods[p].state.Running? ==> s.pods[p].killer != Some(l) {
      assert Fits(p, s.pods[p], s.calls[c]);
    }
    DoneCore(s, c);
    hide Core;
    DisarmCore(Done(s, c), l, taker);
  }

  /** The stop or the kill goes on with the killer it took. */
  predicate TakesOver(j: Call, k: Call, taker: Taker) {
    || (j.StopTaking? && j.killer.Some? && taker.ByStop? && k == StopKilling(j.pod, j.killer.value))
    || (j.KillTaking? && j.killer.Some? && taker.ByKill? && k == KillKilling(j.pod, j.address, j.killer.value))
  }

  lemma TakesOverAgrees(j: Call, k: Call, taker: Taker, d: Call)
    requires TakesOver(j, k, taker) && Agree(j, d) && !Nurses(d, k.server) && !Wields(d, k.server)
    ensures Agree(k, d)
  {
  }

  lemma TakesOverOk(s: Node, j: Call, k: Call, taker: Taker, c: CallId)
    requires TakesOver(j, k, taker) && CallOk(s, j)
    ensures CallOk(Disarm(Done(s, c), k.server, taker), k)
    ensures forall p, x :: Fits(p, x, j) ==> Fits(p, x, k)
  {
  }

  lemma WieldCore(s: Node, c: CallId, k: Call, taker: Taker)
    requires Core(s) && c in s.calls && TakesOver(s.calls[c], k, taker) && k.server in s.armed
    ensures Core(Go(Disarm(s, k.server, taker), c, k))
  {
    hide Core, CallOk, Agree, Fits;
    var t := Disarm(Done(s, c), k.server, taker);
    TakenCore(s, c, k.server, taker);
    WieldAgrees(s, c, k, taker);
    hide TakesOver;
    GoCore(t, c, k);
    assert t.calls[c := k] == s.calls[c := k];
  }

  /** The call that took the killer gets on with everyone else. */
  lemma WieldAgrees(s: Node, c: CallId, k: Call, taker: Taker)
    requires Core(s) && c in s.calls && TakesOver(s.calls[c], k, taker) && k.server in s.armed
    requires forall d <- s.calls :: d != c ==> !Nurses(s.calls[d], k.server) && !Wields(s.calls[d], k.server)
    ensures CallOk(Disarm(Done(s, c), k.server, taker), k)
    ensures forall d <- s.calls :: d != c ==> Agree(k, s.calls[d])
    ensures forall p <- s.pods :: Fits(p, s.pods[p], k)
  {
    hide CallOk, Grounded, OneListener, PodOk, Agree, Fits;
    TakesOverOk(s, s.calls[c], k, taker, c);
    forall d <- s.calls | d != c ensures Agree(k, s.calls[d]) { TakesOverAgrees(s.calls[c], k, taker, s.calls[d]); }
  }

  lemma TakeForStopCore(s: Node, c: CallId)
    requires Core(s) && c in s.calls && s.calls[c].StopTaking?
    ensures Core(TakeForStop(s, c))
  {
    hide Core;
    DoneCore(s, c);
    var StopTaking(p, killer) := s.calls[c];
    if IsArmed(s, killer) { WieldCore(s, c, StopKilling(p, killer.value), ByStop); }
  }

  lemma TakeForKillCore(s: Node, c: CallId)
    requires Core(s) && c in s.calls && s.calls[c].KillTaking?
    ensures Core(TakeForKill(s, c))
  {
    var KillTaking(p, a, killer) := s.calls[c];
    if IsArmed(s, killer) {
      hide Core;
      WieldCore(s, c, KillKilling(p, a, killer.value), ByKill);
    } else {
      MilderCore(s, c, KillDeactivating(p, a));
    }
  }

  lemma EndStopCore(s: Node, c: CallId)
    requires Core(s) && c in s.calls && s.calls[c].StopKilling?
    ensures Core(EndStop(s, c))
  {
    SilenceCore(s, s.calls[c].server);
    hide Core;
    DoneCore(Silence(s, s.calls[c].server), c);
  }

  lemma KillCore(s: Node, c: CallId, p: PodId)
    requires Core(s) && c !in s.calls
    ensures Core(Kill(s, c, p))
  {
    if p in s.pods && !s.pods[p].state.Killed? {
      var x := s.pods[p].(state := Killed);
      var t := Put(s, p, x);
      var k := KillTaking(p, x.address, x.killer);
      RewriteCore(s, p, x);
      assert PodOk(s, p, s.pods[p]);
      forall d <- s.calls ensures Agree(k, s.calls[d]) { assert Fits(p, s.pods[p], s.calls[d]); }
      forall q <- t.pods ensures Fits(q, t.pods[q], k) {
        assert q in s.pods && PodOk(s, q, s.pods[q]);
        assert q != p ==> PodsApart(s.pods[p], s.pods[q]);
      }
      assert CallOk(t, k);
      hide Core, CallOk, Agree, Fits, PodOk;
      GoCore(t, c, k);
    }
  }

  lemma EndKillCore(s: Node, c: CallId)
    requires Core(s) && c in s.calls && s.calls[c].KillKilling?
    ensures Core(EndKill(s, c))
  {
    SilenceCore(s, s.calls[c].server);
    MilderCore(Silence(s, s.calls[c].server), c, KillDeactivating(s.calls[c].pod, s.calls[c].address));
  }

  lemma QuietCore(s: Node, c: CallId, done: bool)
    requires Core(s) && c in s.calls && s.calls[c].KillDeactivating?
    ensures Core(Quiet(s, c, done))
  {
    DoneCore(s, c);
    MilderCore(s, c, KillDeallocating(s.calls[c].pod, s.calls[c].address));
  }

  lemma ReleaseCore(s: Node, c: CallId, done: bool)
    requires Core(s) && c in s.calls && s.calls[c].KillDeallocating?
    ensures Core(Release(s, c, done))
  {
    var a := s.calls[c].address;
    DoneCore(s, c);
    forall d <- s.calls | d != c && HoldsAddress(s.calls[d]) ensures s.calls[d].address != a {
      assert Agree(s.calls[c], s.calls[d]);
    }
    forall p <- s.pods | !s.pods[p].state.Killed? ensures s.pods[p].address != a {
      assert Fits(p, s.pods[p], s.calls[c]);
    }
    hide Core;
    ReleasedCore(Done(s, c), a);
  }

  lemma RemoveCore(s: Node, p: PodId)
    requires Core(s)
    ensures Core(Remove(s, p))
  {
    if p in s.pods && s.pods[p].state.Stopped? { RewriteCore(s, p, s.pods[p].(state := Removed)); }
  }

  lemma DeleteCore(s: Node, p: PodId)
    requires Core(s)
    ensures Core(Delete(s, p))
  {
    hide Grounded, OneListener, CallOk, Agree, PodOk, Fits, PodsApart;
    GroundOnly(s, Delete(s, p));
  }

  // ---------------------------------------------------------------------------------------
  // No step loses a server
  // ---------------------------------------------------------------------------------------

  /** The calls other than `c`, the servers and what was in their cells are as they were. */
  ghost predicate Around(s: Node, t: Node, c: CallId) {
    && t.calls - {c} == s.calls - {c}
    && |s.servers| <= |t.servers| && t.servers[..|s.servers|] == s.servers
  }

  predicate Steady(s: Node, t: Node, c: CallId) {
    c in s.calls && c in t.calls && t.calls[c] == s.calls[c]
  }

  lemma OtherCall(s: Node, t: Node, c: CallId, d: CallId)
    requires Around(s, t, c) && d in s.calls && (d != c || Steady(s, t, c))
    ensures Steady(s, t, d)
  {
    if d != c {
      assert d in s.calls - {c};
      assert (t.calls - {c})[d] == (s.calls - {c})[d];
    }
  }

  predicate SameKiller(s: Node, t: Node, p: PodId) {
    p in s.pods ==> p in t.pods && t.pods[p].killer == s.pods[p].killer
  }

  lemma StillKept(s: Node, t: Node, c: CallId, l: ServerId)
    requires Around(s, t, c) && l < |s.servers| && Kept(s, l)
    requires l in s.armed ==> l in t.armed
    requires KeptByPod(s, l) ==> SameKiller(s, t, s.servers[l].pod)
    requires c in s.calls ==> !Minds(s, s.calls[c], l) || Steady(s, t, c)
    ensures Kept(t, l)
  {
    if KeptByPod(s, l) {
      assert t.servers[l] == t.servers[..|s.servers|][l];
      assert KeptByPod(t, l);
    } else {
      var d :| d in s.calls && Minds(s, s.calls[d], l);
      OtherCall(s, t, c, d);
      assert Minds(t, t.calls[d], l);
    }
  }

  lemma StillWatched(s: Node, t: Node, c: CallId, p: PodId)
    requires Around(s, t, c) && Watched(s, p)
    requires SameKiller(s, t, p)
    requires c in s.calls ==> !s.calls[c].KillTaking? || s.calls[c].pod != p || Steady(s, t, c)
    ensures Watched(t, p)
  {
    var d :| d in s.calls && s.calls[d].KillTaking? && s.calls[d].pod == p
      && p in s.pods && s.calls[d].killer == s.pods[p].killer;
    OtherCall(s, t, c, d);
    assert d in t.calls && t.calls[d].KillTaking? && t.calls[d].pod == p
      && p in t.pods && t.calls[d].killer == t.pods[p].killer;
  }

  /** The call has no killer in sight. */
  predicate Harmless(k: Call) {
    !k.StartSpawned? && !k.StartAborting? && !StopCall(k) && !k.KillTaking? && !k.KillKilling?
  }

  /** Steps that leave cells and killers alone, and kill nothing. */
  lemma CalmSafe(s: Node, t: Node, c: CallId)
    requires Safe(s) && Around(s, t, c)
    requires t.armed == s.armed && t.listening <= s.listening
    requires c in s.calls ==> Harmless(s.calls[c]) || Steady(s, t, c)
    requires forall p <- s.pods :: SameKiller(s, t, p)
    requires forall p <- t.pods :: t.pods[p].state.Killed? ==> p in s.pods && s.pods[p].state.Killed?
    ensures Safe(t)
  {
    hide Kept, Watched;
    forall l <- t.listening ensures Kept(t, l) { StillKept(s, t, c, l); }
    forall p <- t.pods | t.pods[p].state.Killed? && IsArmed(t, t.pods[p].killer) ensures Watched(t, p) {
      StillWatched(s, t, c, p);
    }
  }

  lemma GoSafe(s: Node, c: CallId, k: Call)
    requires Safe(s) && (c in s.calls ==> Harmless(s.calls[c]))
    ensures Safe(Go(s, c, k))
  {
    hide Safe;
    assert Go(s, c, k).calls - {c} == s.calls - {c};
    CalmSafe(s, Go(s, c, k), c);
  }

  lemma DoneSafe(s: Node, c: CallId)
    requires Safe(s) && (c in s.calls ==> Harmless(s.calls[c]))
    ensures Safe(Done(s, c))
  {
    hide Safe;
    CalmSafe(s, Done(s, c), c);
  }

  lemma PutSafe(s: Node, p: PodId, x: Pod)
    requires Safe(s)
    requires p in s.pods ==> x.killer == s.pods[p].killer
    requires x.state.Killed? ==> p in s.pods && s.pods[p].state.Killed?
    ensures Safe(Put(s, p, x))
  {
    hide Safe;
    CalmSafe(s, Put(s, p, x), 0);
  }

  /** Changes of the ground that cells and servers do not see. */
  lemma ElsewhereSafe(s: Node, t: Node)
    requires Safe(s) && t.pods == s.pods && t.calls == s.calls && t.servers == s.servers
    requires t.armed == s.armed && t.listening <= s.listening
    ensures Safe(t)
  {
    hide Safe;
    CalmSafe(s, t, 0);
  }

  lemma CreateSafe(s: Node, p: PodId, params: Params)
    requires Safe(s)
    ensures Safe(Create(s, p, params))
  {
    if p in s.pods && !s.pods[p].state.Killed? {
      hide Safe, SameParams, RoutesUnusable, LaterAttempt;
      var x := s.pods[p].(state := Created, params := params);
      var t := s.(routes := s.routes + [Pending]);
      PutSafe(s, p, x);
      ElsewhereSafe(s, t);
      PutSafe(t, p, x.(routes := Some(|s.routes|)));
    }
  }

  lemma BeginInitSafe(s: Node, c: CallId)
    requires Safe(s) && c !in s.calls
    ensures Safe(BeginInit(s, c))
  {
    hide Safe;
    var t := s.(nextPod := s.nextPod + 1);
    ElsewhereSafe(s, t);
    GoSafe(t, c, InitAwaiting(s.nextPod));
  }

  lemma LeaseSafe(s: Node, c: CallId, given: Option<Address>)
    requires Safe(s) && c in s.calls && s.calls[c].InitAwaiting?
    ensures Safe(Lease(s, c, given))
  {
    hide Safe;
    DoneSafe(s, c);
    if given.Some? {
      var t := s.(leased := s.leased + {given.value});
      ElsewhereSafe(s, t);
      GoSafe(t, c, InitAddressed(s.calls[c].pod, given.value));
    }
  }

  lemma InsertSafe(s: Node, c: CallId)
    requires Safe(s) && c in s.calls && s.calls[c].InitAddressed?
    ensures Safe(Insert(s, c))
  {
    hide Safe;
    var InitAddressed(p, a) := s.calls[c];
    DoneSafe(s, c);
    if p !in s.pods {
      var t := Done(s, c).(addressOf := s.addressOf[p := a]);
      ElsewhereSafe(Done(s, c), t);
      PutSafe(t, p, NewPod(a));
    }
  }

  lemma TryStartSafe(s: Node, c: CallId, p: PodId, awaited: Option<RoutesId>)
    requires Safe(s) && (c in s.calls ==> s.calls[c].StartAwaiting?)
    ensures Safe(TryStart(s, c, p, awaited))
  {
    hide Safe;
    DoneSafe(s, c);
    if p in s.pods && s.pods[p].state.Created? && s.pods[p].routes.Some? {
      var x := s.pods[p].(state := Starting);
      PutSafe(s, p, x);
      GoSafe(Put(s, p, x), c, StartBinding(p, x));
      GoSafe(s, c, StartAwaiting(p, x.routes.value));
    }
  }

  lemma BindOrNotSafe(s: Node, c: CallId, bound: bool)
    requires Core(s) && Safe(s) && c in s.calls && s.calls[c].StartBinding?
    ensures Safe(BindOrNot(s, c, bound))
  {
    hide Core, Safe;
    var p, x := s.calls[c].pod, s.calls[c].snapshot;
    if bound {
      SpawnSafe(s, c, StartSpawned(p, x, |s.servers|), x.address);
    } else {
      GoSafe(s, c, StartUnbound(p));
    }
  }

  lemma SpawnSafe(s: Node, c: CallId, k: Call, a: Address)
    requires Core(s) && Safe(s) && c in s.calls && Harmless(s.calls[c])
    requires Nurses(k, |s.servers|)
    ensures Safe(Go(Spawned(s, k.pod, a), c, k))
  {
    var t := Go(Spawned(s, k.pod, a), c, k);
    assert t.calls - {c} == s.calls - {c};
    hide Watched, Kept;
    forall l <- t.listening ensures l < |t.servers| && Kept(t, l) {
      if l in s.listening { StillKept(s, t, c, l); } else { KeptBy(t, c, l); }
    }
    forall q <- t.pods | t.pods[q].state.Killed? && IsArmed(t, t.pods[q].killer) ensures Watched(t, q) {
      assert PodOk(s, q, s.pods[q]);
      StillWatched(s, t, c, q);
    }
  }

  lemma KeptBy(s: Node, c: CallId, l: ServerId)
    requires c in s.calls && Minds(s, s.calls[c], l)
    ensures Kept(s, l)
  {
  }

  lemma RollBackSafe(s: Node, c: CallId)
    requires Safe(s) && c in s.calls && s.calls[c].StartUnbound?
    ensures Safe(RollBack(s, c))
  {
    hide Safe;
    var p := s.calls[c].pod;
    DoneSafe(s, c);
    if p in s.pods && s.pods[p].state.Starting? {
      var x := s.pods[p].(state := Created);
      PutSafe(s, p, x);
      DoneSafe(Put(s, p, x), c);
    }
  }

  /**
    * Publishing a server overwrites the killer of the entry it finds, which loses the server of
    * that killer exactly when it still listens and no stop or kill has it in sight.
    */
  lemma PublishExact(s: Node, c: CallId)
    requires Core(s) && Safe(s) && c in s.calls && s.calls[c].StartSpawned?
    requires s.calls[c].pod in s.pods && s.pods[s.calls[c].pod].state.Starting?
    ensures AllWatched(Commit(s, c))
    ensures NoneLost(Commit(s, c)) <==> CleanCommit(s, c)
  {
    var StartSpawned(p, snapshot, l) := s.calls[c];
    var t := Commit(s, c);
    assert CallOk(s, s.calls[c]) && Fits(p, s.pods[p], s.calls[c]);
    forall d <- s.calls | d != c ensures !Nurses(s.calls[d], l) && !Wields(s.calls[d], l) {
      assert Agree(s.calls[c], s.calls[d]);
    }
    if NoneLost(t) { CleanAfter(s, c); }
    hide Core, CallOk, Kept, Watched, Agree, Fits;
    forall q <- t.pods | t.pods[q].state.Killed? && IsArmed(t, t.pods[q].killer) ensures Watched(t, q) {
      StillWatched(s, t, c, q);
    }
    if CleanCommit(s, c) {
      forall m <- t.listening ensures Kept(t, m) {
        if m == l {
          KeptInPod(t, m);
        } else if KeptByPod(s, m) && s.servers[m].pod == p {
          var d :| d in s.calls && Aims(s.calls[d], m);
          OtherCall(s, t, c, d);
          KeptBy(t, d, m);
        } else {
          StillKept(s, t, c, m);
        }
      }
    }
  }

  lemma CleanAfter(s: Node, c: CallId)
    requires Core(s) && c in s.calls && s.calls[c].StartSpawned?
    requires NoneLost(Commit(s, c))
    ensures CleanCommit(s, c)
  {
    var StartSpawned(p, snapshot, l) := s.calls[c];
    var t := Commit(s, c);
    if Overwrites(s, p) {
      var m := s.pods[p].killer.value;
      assert Kept(t, m);
      assert PodOk(s, p, s.pods[p]) && Fits(p, s.pods[p], s.calls[c]);
      var d :| d in t.calls && Minds(t, t.calls[d], m);
      assert CallOk(s, s.calls[d]) && Fits(p, s.pods[p], s.calls[d]);
      assert Aims(s.calls[d], m);
    }
  }

  lemma OneServerPerPod(s: Node, l: ServerId, m: ServerId)
    requires Core(s) && l in s.listening && m in s.listening
    requires l < |s.servers| && m < |s.servers| && s.servers[l].pod == s.servers[m].pod
    ensures l == m
  {
    assert HasAddress(s, s.servers[l].pod, s.servers[l].address);
    assert HasAddress(s, s.servers[m].pod, s.servers[m].address);
  }

  /** A server that listens until it is published leaves no other server of the pod to lose. */
  lemma SpawnsListenClean(s: Node, c: CallId)
    requires Core(s) && SpawnsListen(s) && c in s.calls && s.calls[c].StartSpawned?
    ensures CleanCommit(s, c)
  {
    var StartSpawned(p, snapshot, l) := s.calls[c];
    assert CallOk(s, s.calls[c]);
    assert Grounded(s);
    if p in s.pods {
      assert PodOk(s, p, s.pods[p]) && Fits(p, s.pods[p], s.calls[c]);
    }
    hide Core;
    forall m <- s.listening | s.servers[m].pod == p ensures m == l { OneServerPerPod(s, l, m); }
  }

  lemma KeptInPod(s: Node, l: ServerId)
    requires KeptByPod(s, l)
    ensures Kept(s, l)
  {
  }

  lemma CommitExact(s: Node, c: CallId)
    requires Core(s) && Safe(s) && c in s.calls && s.calls[c].StartSpawned?
    ensures Safe(Commit(s, c)) <==> CleanCommit(s, c)
  {
    var StartSpawned(p, snapshot, l) := s.calls[c];
    if p in s.pods && s.pods[p].state.Starting? {
      PublishExact(s, c);
    } else {
      PassSafe(s, c, StartAborting(p, l), l);
    }
  }

  /** A call hands the one server it minds to its successor. */
  lemma PassSafe(s: Node, c: CallId, k: Call, l: ServerId)
    requires Safe(s) && c in s.calls && !s.calls[c].KillTaking?
    requires forall m: nat :: Minds(s, s.calls[c], m) ==> m == l
    requires Minds(s, k, l)
    ensures Safe(Go(s, c, k))
  {
    var t := Go(s, c, k);
    assert t.calls - {c} == s.calls - {c};
    assert Minds(t, t.calls[c], l);
    hide Kept, Watched;
    forall m <- t.listening ensures Kept(t, m) {
      if m != l { StillKept(s, t, c, m); } else { KeptBy(t, c, l); }
    }
    forall q <- t.pods | t.pods[q].state.Killed? && IsArmed(t, t.pods[q].killer) ensures Watched(t, q) {
      StillWatched(s, t, c, q);
    }
  }

  /** A call whose server is silent can end. */
  lemma ReleaseSafe(s: Node, c: CallId)
    requires Safe(s) && c in s.calls && !s.calls[c].KillTaking?
    requires forall m <- s.listening :: !Minds(s, s.calls[c], m)
    ensures Safe(Done(s, c))
  {
    var t := Done(s, c);
    hide Kept, Watched;
    forall m <- t.listening ensures Kept(t, m) { StillKept(s, t, c, m); }
    forall q <- t.pods | t.pods[q].state.Killed? && IsArmed(t, t.pods[q].killer) ensures Watched(t, q) {
      StillWatched(s, t, c, q);
    }
  }

  /** The cell of a server that does not listen, or that another call minds, may be emptied. */
  lemma DisarmSafe(s: Node, l: ServerId, taker: Taker)
    requires Safe(s)
    requires l in s.listening ==> exists c :: c in s.calls && (Nurses(s.calls[c], l) || Wields(s.calls[c], l))
    ensures Safe(Disarm(s, l, taker))
  {
    var t := Disarm(s, l, taker);
    forall m <- t.listening ensures Kept(t, m) {
      if m != l {
        hide Kept;
        StillKept(s, t, 0, m);
      } else {
        var c :| c in s.calls && (Nurses(s.calls[c], l) || Wields(s.calls[c], l));
        assert Minds(t, t.calls[c], l);
      }
    }
    hide Kept, Watched;
    forall q <- t.pods | t.pods[q].state.Killed? && IsArmed(t, t.pods[q].killer) ensures Watched(t, q) {
      StillWatched(s, t, 0, q);
    }
  }

  lemma AbortSafe(s: Node, c: CallId)
    requires Safe(s) && c in s.calls && s.calls[c].StartAborting?
    ensures Safe(Abort(s, c))
  {
    hide Safe;
    var l := s.calls[c].server;
    DisarmSafe(s, l, ByStart);
    var t := if l in s.armed then Disarm(s, l, ByStart) else s;
    ElsewhereSafe(t, Silence(t, l));
    ReleaseSafe(Silence(t, l), c);
  }

  lemma StopSafe(s: Node, c: CallId, p: PodId)
    requires Safe(s) && c !in s.calls
    ensures Safe(Stop(s, c, p))
  {
    hide Safe;
    if p in s.pods {
      var x := s.pods[p].(state := Stopped);
      PutSafe(s, p, x);
      GoSafe(Put(s, p, x), c, StopTaking(p, x.killer));
    }
  }

  lemma TakeForStopSafe(s: Node, c: CallId)
    requires Safe(s) && c in s.calls && s.calls[c].StopTaking?
    ensures Safe(TakeForStop(s, c))
  {
    hide Safe;
    var StopTaking(p, killer) := s.calls[c];
    if IsArmed(s, killer) {
      var l, k := killer.value, StopKilling(p, killer.value);
      PassSafe(s, c, k, l);
      var t := Go(s, c, k);
      assert Wields(t.calls[c], l);
      DisarmSafe(t, l, ByStop);
    } else {
      ReleaseSafe(s, c);
    }
  }

  lemma EndStopSafe(s: Node, c: CallId)
    requires Safe(s) && c in s.calls && s.calls[c].StopKilling?
    ensures Safe(EndStop(s, c))
  {
    hide Safe;
    var l := s.calls[c].server;
    ElsewhereSafe(s, Silence(s, l));
    ReleaseSafe(Silence(s, l), c);
  }

  lemma KillSafe(s: Node, c: CallId, p: PodId)
    requires Safe(s) && c !in s.calls
    ensures Safe(Kill(s, c, p))
  {
    if p in s.pods && !s.pods[p].state.Killed? {
      var t := Kill(s, c, p);
      assert t.calls - {c} == s.calls - {c};
      assert Watched(t, p) by {
        assert c in t.calls && t.calls[c].KillTaking? && t.calls[c].pod == p
          && p in t.pods && t.calls[c].killer == t.pods[p].killer;
      }
      hide Kept, Watched;
      forall m <- t.listening ensures Kept(t, m) { StillKept(s, t, c, m); }
      forall q <- t.pods | t.pods[q].state.Killed? && IsArmed(t, t.pods[q].killer) ensures Watched(t, q) {
        if q != p { StillWatched(s, t, c, q); }
      }
    }
  }

  lemma TakeForKillKeeps(s: Node, c: CallId)
    requires NoneLost(s) && c in s.calls && s.calls[c].KillTaking?
    ensures NoneLost(TakeForKill(s, c))
  {
    var KillTaking(p, a, killer) := s.calls[c];
    var t := TakeForKill(s, c);
    assert t.calls - {c} == s.calls - {c};
    hide Kept;
    forall m <- t.listening ensures Kept(t, m) {
      if killer == Some(m) && m in s.armed {
        assert Minds(t, t.calls[c], m);
        KeptBy(t, c, m);
      } else {
        StillKept(s, t, c, m);
      }
    }
  }

  /** The kill of a pod takes its killer, or finds the cell empty: the pod needs no watch then. */
  lemma TakeForKillSafe(s: Node, c: CallId)
    requires Safe(s) && c in s.calls && s.calls[c].KillTaking?
    ensures Safe(TakeForKill(s, c))
  {
    TakeForKillKeeps(s, c);
    hide NoneLost;
    var t := TakeForKill(s, c);
    assert t.calls - {c} == s.calls - {c};
    forall q <- t.pods | t.pods[q].state.Killed? && IsArmed(t, t.pods[q].killer) ensures Watched(t, q) {
      var d :| d in s.calls && s.calls[d].KillTaking? && s.calls[d].pod == q
        && q in s.pods && s.calls[d].killer == s.pods[q].killer;
      assert d != c;
      OtherCall(s, t, c, d);
    }
  }

  lemma EndKillSafe(s: Node, c: CallId)
    requires Safe(s) && c in s.calls && s.calls[c].KillKilling?
    ensures Safe(EndKill(s, c))
  {
    hide Safe;
    var l := s.calls[c].server;
    var k := KillDeactivating(s.calls[c].pod, s.calls[c].address);
    ElsewhereSafe(s, Silence(s, l));
    ReleaseSafe(Silence(s, l), c);
    GoSafe(Done(Silence(s, l), c), c, k);
    assert Done(Silence(s, l), c).calls[c := k] == s.calls[c := k];
  }

  lemma QuietSafe(s: Node, c: CallId, done: bool)
    requires Safe(s) && c in s.calls && s.calls[c].KillDeactivating?
    ensures Safe(Quiet(s, c, done))
  {
    hide Safe;
    DoneSafe(s, c);
    GoSafe(s, c, KillDeallocating(s.calls[c].pod, s.calls[c].address));
  }

  lemma DeallocateSafe(s: Node, c: CallId, done: bool)
    requires Safe(s) && c in s.calls && s.calls[c].KillDeallocating?
    ensures Safe(Release(s, c, done))
  {
    hide Safe;
    var t := s.(leased := s.leased - {s.calls[c].address});
    ElsewhereSafe(s, t);
    DoneSafe(s, c);
    DoneSafe(t, c);
  }

  lemma RemoveSafe(s: Node, p: PodId)
    requires Safe(s)
    ensures Safe(Remove(s, p))
  {
    hide Safe;
    if p in s.pods && s.pods[p].state.Stopped? { PutSafe(s, p, s.pods[p].(state := Removed)); }
  }

  /** A pod is deleted after it was killed, and then its kill has the killer in sight. */
  lemma DeleteSafe(s: Node, p: PodId)
    requires Safe(s)
    ensures Safe(Delete(s, p))
  {
    var t := Delete(s, p);
    forall m <- t.listening ensures Kept(t, m) {
      if KeptByPod(s, m) && s.servers[m].pod == p && t != s {
        var d :| d in s.calls && s.calls[d].KillTaking? && s.calls[d].pod == p
          && p in s.pods && s.calls[d].killer == s.pods[p].killer;
        assert Minds(t, t.calls[d], m);
      } else {
        hide Kept;
        StillKept(s, t, 0, m);
      }
    }
    hide Kept, Watched;
    forall q <- t.pods | t.pods[q].state.Killed? && IsArmed(t, t.pods[q].killer) ensures Watched(t, q) {
      StillWatched(s, t, 0, q);
    }
  }

  // ---------------------------------------------------------------------------------------
  // All steps together
  // ---------------------------------------------------------------------------------------

  lemma CoreKept(s: Node, step: Step)
    requires Core(s) && Enabled(s, step)
    ensures Core(Apply(s, step))
  {
    hide Core;
    match step
    case InitPod(c) => BeginInitCore(s, c);
    case ObtainAddress(c, given) => LeaseCore(s, c, given);
    case InsertPod(c) => InsertCore(s, c);
    case CreateContainer(p, params) => CreateCore(s, p, params);
    case StartContainer(c, p) => TryStartCore(s, c, p, None);
    case RetryStart(c) => TryStartCore(s, c, s.calls[c].pod, Some(s.calls[c].awaited));
    case Bind(c, bound) => BindOrNotCore(s, c, bound);
    case RollBackStart(c) => RollBackCore(s, c);
    case CommitStart(c) => CommitCore(s, c);
    case AbortServer(c) => AbortCore(s, c);
    case StopContainer(c, p) => StopCore(s, c, p);
    case TakeToStop(c) => TakeForStopCore(s, c);
    case FinishStop(c) => EndStopCore(s, c);
    case RemoveContainer(p) => RemoveCore(s, p);
    case KillPod(c, p) => KillCore(s, c, p);
    case TakeToKill(c) => TakeForKillCore(s, c);
    case FinishKill(c) => EndKillCore(s, c);
    case Deactivate(c, done) => QuietCore(s, c, done);
    case Deallocate(c, done) => ReleaseCore(s, c, done);
    case DeletePod(p) => DeleteCore(s, p);
    case ResolveRoutes(r, ready) => RoutesCore(s, Resolve(s, r, ready).routes);
    case EndServer(l) => SilenceCore(s, l);
  }

  /** The one step that can lose a server is a commit, and then only one that is not clean. */
  lemma SafeKept(s: Node, step: Step)
    requires Core(s) && Safe(s) && Enabled(s, step)
    ensures Safe(Apply(s, step)) <==> (step.CommitStart? ==> CleanCommit(s, step.call))
  {
    hide Core, Safe, CleanCommit;
    match step
    case InitPod(c) => BeginInitSafe(s, c);
    case ObtainAddress(c, given) => LeaseSafe(s, c, given);
    case InsertPod(c) => InsertSafe(s, c);
    case CreateContainer(p, params) => CreateSafe(s, p, params);
    case StartContainer(c, p) => TryStartSafe(s, c, p, None);
    case RetryStart(c) => TryStartSafe(s, c, s.calls[c].pod, Some(s.calls[c].awaited));
    case Bind(c, bound) => BindOrNotSafe(s, c, bound);
    case RollBackStart(c) => RollBackSafe(s, c);
    case CommitStart(c) => CommitExact(s, c);
    case AbortServer(c) => AbortSafe(s, c);
    case StopContainer(c, p) => StopSafe(s, c, p);
    case TakeToStop(c) => TakeForStopSafe(s, c);
    case FinishStop(c) => EndStopSafe(s, c);
    case RemoveContainer(p) => RemoveSafe(s, p);
    case KillPod(c, p) => KillSafe(s, c, p);
    case TakeToKill(c) => TakeForKillSafe(s, c);
    case FinishKill(c) => EndKillSafe(s, c);
    case Deactivate(c, done) => QuietSafe(s, c, done);
    case Deallocate(c, done) => DeallocateSafe(s, c, done);
    case DeletePod(p) => DeleteSafe(s, p);
    case ResolveRoutes(r, ready) => ElsewhereSafe(s, Resolve(s, r, ready));
    case EndServer(l) => ElsewhereSafe(s, Silence(s, l));
  }

  /** The step ends, from outside, a server that its start has yet to publish. */
  predicate EndsEarly(s: Node, step: Step) {
    step.EndServer? && exists c :: c in s.calls && s.calls[c].StartSpawned? && s.calls[c].server == step.server
  }

  /**
    * What becomes of one call: a start with a server had it before or has just spawned it, and a
    * kill was one before, no further on its way, or has just killed its pod.
    */
  predicate CallOnward(s: Node, t: Node, c: CallId) {
    c in t.calls && !Steady(s, t, c) ==>
      && (t.calls[c].StartSpawned? ==> t.calls[c].server in t.listening)
      && (KillCall(t.calls[c]) ==>
            if c in s.calls then
              KillCall(s.calls[c]) && s.calls[c].pod == t.calls[c].pod && !s.calls[c].KillDeallocating?
            else
              t.calls[c].pod in s.pods && !s.pods[t.calls[c].pod].state.Killed?)
  }

  lemma InitOnward(s: Node, d: CallId, given: Option<Address>, c: CallId)
    ensures d !in s.calls ==> CallOnward(s, BeginInit(s, d), c)
    ensures d in s.calls && s.calls[d].InitAwaiting? ==> CallOnward(s, Lease(s, d, given), c)
    ensures d in s.calls && s.calls[d].InitAddressed? ==> CallOnward(s, Insert(s, d), c)
  {
  }

  lemma TryStartOnward(s: Node, d: CallId, p: PodId, awaited: Option<RoutesId>, c: CallId)
    ensures CallOnward(s, TryStart(s, d, p, awaited), c)
  {
  }

  lemma PublishOnward(s: Node, d: CallId, bound: bool, c: CallId)
    requires d in s.calls
    ensures s.calls[d].StartBinding? ==> CallOnward(s, BindOrNot(s, d, bound), c)
    ensures s.calls[d].StartUnbound? ==> CallOnward(s, RollBack(s, d), c)
    ensures s.calls[d].StartSpawned? ==> CallOnward(s, Commit(s, d), c)
    ensures s.calls[d].StartAborting? ==> CallOnward(s, Abort(s, d), c)
  {
  }

  lemma StopCallOnward(s: Node, d: CallId, p: PodId, c: CallId)
    ensures d !in s.calls ==> CallOnward(s, Stop(s, d, p), c)
    ensures d in s.calls && s.calls[d].StopTaking? ==> CallOnward(s, TakeForStop(s, d), c)
    ensures d in s.calls && s.calls[d].StopKilling? ==> CallOnward(s, EndStop(s, d), c)
  {
  }

  lemma KillCallOnward(s: Node, d: CallId, p: PodId, done: bool, c: CallId)
    ensures d !in s.calls ==> CallOnward(s, Kill(s, d, p), c)
    ensures d in s.calls && s.calls[d].KillTaking? ==> CallOnward(s, TakeForKill(s, d), c)
    ensures d in s.calls && s.calls[d].KillKilling? ==> CallOnward(s, EndKill(s, d), c)
    ensures d in s.calls && s.calls[d].KillDeactivating? ==> CallOnward(s, Quiet(s, d, done), c)
    ensures d in s.calls && s.calls[d].KillDeallocating? ==> CallOnward(s, Release(s, d, done), c)
  {
  }

  lemma CreateCalls(s: Node, p: PodId, params: Params)
    ensures Create(s, p, params).calls == s.calls
  {
  }

  lemma CallsSame(s: Node, t: Node, c: CallId)
    requires t.calls == s.calls
    ensures CallOnward(s, t, c)
  {
  }

  lemma CallsOnward(s: Node, step: Step, c: CallId)
    requires Enabled(s, step)
    ensures CallOnward(s, Apply(s, step), c)
  {
    hide CallOnward, BeginInit, Lease, Insert, Create, TryStart, BindOrNot, RollBack, Commit, Abort;
    hide Stop, TakeForStop, EndStop, Kill, TakeForKill, EndKill, Quiet, Release, Held;
    match step
    case InitPod(d) => InitOnward(s, d, None, c);
    case ObtainAddress(d, given) => InitOnward(s, d, given, c);
    case InsertPod(d) => InitOnward(s, d, None, c);
    case StartContainer(d, p) => TryStartOnward(s, d, p, None, c);
    case RetryStart(d) => TryStartOnward(s, d, s.calls[d].pod, Some(s.calls[d].awaited), c);
    case Bind(d, bound) => PublishOnward(s, d, bound, c);
    case RollBackStart(d) => PublishOnward(s, d, false, c);
    case CommitStart(d) => PublishOnward(s, d, false, c);
    case AbortServer(d) => PublishOnward(s, d, false, c);
    case StopContainer(d, p) => StopCallOnward(s, d, p, c);
    case TakeToStop(d) => StopCallOnward(s, d, 0, c);
    case FinishStop(d) => StopCallOnward(s, d, 0, c);
    case KillPod(d, p) => KillCallOnward(s, d, p, false, c);
    case TakeToKill(d) => KillCallOnward(s, d, 0, false, c);
    case FinishKill(d) => KillCallOnward(s, d, 0, false, c);
    case Deactivate(d, done) => KillCallOnward(s, d, 0, done, c);
    case Deallocate(d, done) => KillCallOnward(s, d, 0, done, c);
    case CreateContainer(p, params) =>
      CreateCalls(s, p, params);
      CallsSame(s, Create(s, p, params), c);
    case _ => CallsSame(s, Apply(s, step), c);
  }

  lemma ListeningSame(s: Node, d: CallId, p: PodId, awaited: Option<RoutesId>, params: Params)
    ensures TryStart(s, d, p, awaited).listening == s.listening
    ensures Create(s, p, params).listening == s.listening
    ensures Stop(s, d, p).listening == s.listening
    ensures Kill(s, d, p).listening == s.listening
  {
  }

  /** A server goes silent by its own end, or by a call that has its killer. */
  lemma OthersListen(s: Node, step: Step, l: ServerId)
    requires Enabled(s, step) && l in s.listening && step != EndServer(l)
    requires forall d <- s.calls :: !Wields(s.calls[d], l) && !(s.calls[d].StartAborting? && s.calls[d].server == l)
    ensures l in Apply(s, step).listening
  {
    hide TryStart, Create, Stop, Kill, Held, IsArmed;
    var none := NewPod(0).params;
    match step
    case StartContainer(d, p) => ListeningSame(s, d, p, None, none);
    case RetryStart(d) => ListeningSame(s, d, s.calls[d].pod, Some(s.calls[d].awaited), none);
    case CreateContainer(p, params) => ListeningSame(s, 0, p, None, params);
    case StopContainer(d, p) => ListeningSame(s, d, p, None, none);
    case KillPod(d, p) => ListeningSame(s, d, p, None, none);
    case _ =>
  }

  lemma SpawnsListenKept(s: Node, step: Step)
    requires Core(s) && SpawnsListen(s) && Enabled(s, step) && !EndsEarly(s, step)
    ensures SpawnsListen(Apply(s, step))
  {
    var t := Apply(s, step);
    hide Apply, Enabled;
    forall c <- t.calls | t.calls[c].StartSpawned? ensures t.calls[c].server in t.listening {
      CallsOnward(s, step, c);
      if Steady(s, t, c) {
        var l := s.calls[c].server;
        forall d <- s.calls | d != c ensures !Nurses(s.calls[d], l) && !Wields(s.calls[d], l) {
          assert Agree(s.calls[c], s.calls[d]);
        }
        hide Core;
        OthersListen(s, step, l);
      }
    }
  }
}

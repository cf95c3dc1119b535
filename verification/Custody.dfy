/**
  * What every step of the pod lifecycle keeps. The invariant says who has custody of each
  * server's killer and of each address, at every point of every interleaving. It is made of
  * local agreements, on one call or pod or on a pair of them, so that a step has to answer only
  * for the call and the pod it touches.
  */
module Custody {
  import opened Prelude
  import opened Lifecycle

  // ---------------------------------------------------------------------------------------
  // Who holds what
  // ---------------------------------------------------------------------------------------

  predicate InitCall(k: Call) { k.InitAwaiting? || k.InitAddressed? }

  predicate KillCall(k: Call) {
    k.KillTaking? || k.KillKilling? || k.KillDeactivating? || k.KillDeallocating?
  }

  predicate StartCall(k: Call) {
    k.StartAwaiting? || k.StartBinding? || k.StartUnbound? || k.StartSpawned? || k.StartAborting?
  }

  predicate StopCall(k: Call) { k.StopTaking? || k.StopKilling? }

  /** The call spawned the server and alone knows the cell of its killer. */
  predicate Nurses(k: Call, l: ServerId) {
    (k.StartSpawned? || k.StartAborting?) && k.server == l
  }

  /** The call took the killer of the server out of its cell and is using it. */
  predicate Wields(k: Call, l: ServerId) {
    (k.StopKilling? || k.KillKilling?) && k.server == l
  }

  /** The call is about to take the killer of the server, if it is still there. */
  predicate Aims(k: Call, l: ServerId) {
    (k.StopTaking? || k.KillTaking?) && k.killer == Some(l)
  }

  /** The call has an address that no pod lives with: not yet, or no longer. */
  predicate HoldsAddress(k: Call) { k.InitAddressed? || KillCall(k) }

  predicate ServerOf(s: Node, l: ServerId, p: PodId) {
    l < |s.servers| && s.servers[l].pod == p
  }

  predicate HasRoutes(s: Node, routes: Option<RoutesId>) {
    routes.Some? && routes.value < |s.routes|
  }

  predicate HasAddress(s: Node, p: PodId, a: Address) {
    p in s.addressOf && s.addressOf[p] == a
  }

  // ---------------------------------------------------------------------------------------
  // Local agreements
  // ---------------------------------------------------------------------------------------

  /** What a call in flight can rely on, whatever the others do. */
  predicate CallOk(s: Node, k: Call) {
    && k.pod < s.nextPod
    && (InitCall(k) <==> k.pod !in s.addressOf)
    && (k.InitAddressed? ==> k.address in s.leased)
    && (k.StartAwaiting? ==> k.awaited < |s.routes|)
    && (k.StartBinding? || k.StartSpawned? ==>
          HasAddress(s, k.pod, k.snapshot.address) && HasRoutes(s, k.snapshot.routes))
    && (k.StartSpawned? || k.StartAborting? ==> ServerOf(s, k.server, k.pod) && k.server in s.armed)
    && (k.StopKilling? || k.KillKilling? ==> ServerOf(s, k.server, k.pod) && k.server !in s.armed)
    && (k.StopTaking? ==> k.killer.Some? && StoppableOrKilled(s, k.killer.value))
    && ((k.StopTaking? || k.KillTaking?) && k.killer.Some? ==> ServerOf(s, k.killer.value, k.pod))
    && (KillCall(k) ==> HasAddress(s, k.pod, k.address) && k.address in s.leased)
  }

  /** Nobody but a kill gets to the killer before the stop. */
  predicate StoppableOrKilled(s: Node, l: ServerId) {
    l in s.armed || (l in s.taken && s.taken[l].ByKill?)
  }

  /** What two calls in flight cannot both do. */
  predicate Agree(j: Call, k: Call) {
    && (InitCall(j) && InitCall(k) ==> j.pod != k.pod)
    && (KillCall(j) && KillCall(k) ==> j.pod != k.pod)
    && (HoldsAddress(j) && HoldsAddress(k) ==> j.address != k.address)
    && (j.StopTaking? && k.StopTaking? ==> j.killer != k.killer)
    && Leaves(j, k) && Leaves(k, j)
  }

  /** The second call leaves alone the server that is the first one's. */
  predicate Leaves(j: Call, k: Call) {
    && (j.StartSpawned? || j.StartAborting? ==>
          !Nurses(k, j.server) && !Wields(k, j.server) && !Aims(k, j.server))
    && (j.StopKilling? || j.KillKilling? ==> !Wields(k, j.server))
  }

  predicate PodOk(s: Node, p: PodId, x: Pod) {
    && HasAddress(s, p, x.address)
    && (x.killer.Some? ==> ServerOf(s, x.killer.value, p))
    && (x.state.Running? ==> IsArmed(s, x.killer))
    && (x.state.Created? || x.state.Starting? || x.state.Running? ==> HasRoutes(s, x.routes))
    && (!x.state.Killed? ==> x.address in s.leased)
  }

  predicate PodsApart(x: Pod, y: Pod) {
    !x.state.Killed? && !y.state.Killed? ==> x.address != y.address
  }

  predicate Fits(p: PodId, x: Pod, k: Call) {
    && (k.StartSpawned? || k.StartAborting? ==> x.killer != Some(k.server))
    && (x.state.Running? && x.killer.Some? ==> !Aims(k, x.killer.value))
    && (KillCall(k) && k.pod == p ==> x.state.Killed?)
    && (!x.state.Killed? && HoldsAddress(k) ==> k.address != x.address)
  }

  ghost predicate Grounded(s: Node) {
    && (forall p <- s.addressOf :: p < s.nextPod)
    && (forall l <- s.listening :: l < |s.servers|)
    && (forall l <- s.armed :: l < |s.servers| && l !in s.taken)
    && (forall l <- s.taken :: l < |s.servers|)
    && (forall l: nat | l < |s.servers| :: HasAddress(s, s.servers[l].pod, s.servers[l].address))
  }

  /** No two listening servers share an address. */
  ghost predicate OneListener(s: Node) {
    forall l: nat, m: nat |
      && l in s.listening && m in s.listening && l < |s.servers| && m < |s.servers|
      && s.servers[l].address == s.servers[m].address :: l == m
  }

  ghost predicate CallsOk(s: Node) {
    && (forall c <- s.calls :: CallOk(s, s.calls[c]))
    && (forall c <- s.calls, d <- s.calls :: c != d ==> Agree(s.calls[c], s.calls[d]))
  }

  ghost predicate PodsOk(s: Node) {
    && (forall p <- s.pods :: PodOk(s, p, s.pods[p]))
    && (forall p <- s.pods, q <- s.pods :: p != q ==> PodsApart(s.pods[p], s.pods[q]))
  }

  ghost predicate AllFit(s: Node) {
    forall p <- s.pods, c <- s.calls :: Fits(p, s.pods[p], s.calls[c])
  }

  ghost predicate Core(s: Node) {
    Grounded(s) && OneListener(s) && CallsOk(s) && PodsOk(s) && AllFit(s)
  }

  /** A server that its start has yet to publish listens. */
  ghost predicate SpawnsListen(s: Node) {
    forall c <- s.calls :: s.calls[c].StartSpawned? ==> s.calls[c].server in s.listening
  }

  // ---------------------------------------------------------------------------------------
  // No server is lost
  // ---------------------------------------------------------------------------------------

  /** The call has the killer of the server, or will get it unless someone else does first. */
  predicate Minds(s: Node, k: Call, l: ServerId) {
    Nurses(k, l) || Wields(k, l) || (l in s.armed && Aims(k, l))
  }

  predicate KeptByPod(s: Node, l: ServerId) {
    l in s.armed && l < |s.servers| && s.servers[l].pod in s.pods && s.pods[s.servers[l].pod].killer == Some(l)
  }

  ghost predicate Kept(s: Node, l: ServerId) {
    KeptByPod(s, l) || exists c :: c in s.calls && Minds(s, s.calls[c], l)
  }

  ghost predicate NoneLost(s: Node) {
    forall l <- s.listening :: l < |s.servers| && Kept(s, l)
  }

  /** A killed pod that still has its killer has a kill on its way to it. */
  ghost predicate Watched(s: Node, p: PodId) {
    exists c :: c in s.calls && s.calls[c].KillTaking? && s.calls[c].pod == p
      && p in s.pods && s.calls[c].killer == s.pods[p].killer
  }

  ghost predicate AllWatched(s: Node) {
    forall p <- s.pods :: s.pods[p].state.Killed? && IsArmed(s, s.pods[p].killer) ==> Watched(s, p)
  }

  ghost predicate Safe(s: Node) {
    NoneLost(s) && AllWatched(s)
  }

  /** The entry of the pod awaits a start, and has the killer of a server that listens. */
  predicate Overwrites(s: Node, p: PodId) {
    p in s.pods && s.pods[p].state.Starting? && IsArmed(s, s.pods[p].killer) && s.pods[p].killer.value in s.listening
  }

  /** Publishing the server of the start would cost no listening server its killer. */
  ghost predicate CleanCommit(s: Node, c: CallId)
    requires c in s.calls && s.calls[c].StartSpawned?
  {
    var p := s.calls[c].pod;
    Overwrites(s, p) ==> Aimed(s, s.pods[p].killer.value)
  }

  ghost predicate Aimed(s: Node, l: ServerId) {
    exists c :: c in s.calls && Aims(s.calls[c], l)
  }

  // ---------------------------------------------------------------------------------------
  // Framing: a step answers for what it touches
  // ---------------------------------------------------------------------------------------

  /** Nothing but the ground changes, and everyone can still rely on it. */
  lemma GroundCore(s: Node, t: Node)
    requires Core(s) && t.pods == s.pods && t.calls == s.calls && Grounded(t) && OneListener(t)
    requires forall c <- s.calls :: CallOk(t, s.calls[c])
    requires forall p <- s.pods :: PodOk(t, p, s.pods[p])
    ensures Core(t)
  {
    hide Grounded, OneListener, CallOk, Agree, PodOk, Fits, PodsApart;
  }

  ghost predicate SameGround(s: Node, t: Node) {
    && t.nextPod == s.nextPod && t.servers == s.servers && t.armed == s.armed && t.listening == s.listening
    && t.taken == s.taken && t.routes == s.routes && t.leased == s.leased && t.addressOf == s.addressOf
  }

  lemma GroundOnly(s: Node, t: Node)
    requires SameGround(s, t)
    ensures Grounded(s) ==> Grounded(t)
    ensures OneListener(s) ==> OneListener(t)
    ensures forall k :: CallOk(s, k) ==> CallOk(t, k)
    ensures forall p, x :: PodOk(s, p, x) ==> PodOk(t, p, x)
  {
  }

  /** A call that ends takes nothing the others rely on with it. */
  lemma DoneCore(s: Node, c: CallId)
    requires Core(s)
    ensures Core(Done(s, c))
  {
    hide Grounded, OneListener, CallOk, Agree, PodOk, Fits, PodsApart;
    GroundOnly(s, Done(s, c));
  }

  /** A call may go on as `k` when `k` is compatible with everyone else. */
  lemma GoCore(s: Node, c: CallId, k: Call)
    requires Core(s) && CallOk(s, k)
    requires forall d <- s.calls :: d != c ==> Agree(k, s.calls[d])
    requires forall p <- s.pods :: Fits(p, s.pods[p], k)
    ensures Core(Go(s, c, k))
  {
    forall d <- s.calls | d != c ensures Agree(s.calls[d], k) {}
    hide Grounded, OneListener, CallOk, Agree, PodOk, Fits, PodsApart;
    GroundOnly(s, Go(s, c, k));
  }

  function Put(s: Node, p: PodId, x: Pod): Node {
    s.(pods := s.pods[p := x])
  }

  lemma PutCore(s: Node, p: PodId, x: Pod)
    requires Core(s) && PodOk(s, p, x)
    requires forall q <- s.pods :: q != p ==> PodsApart(x, s.pods[q])
    requires forall c <- s.calls :: Fits(p, x, s.calls[c])
    ensures Core(Put(s, p, x))
  {
    forall q <- s.pods | q != p ensures PodsApart(s.pods[q], x) {}
    hide Grounded, OneListener, CallOk, Agree, PodOk, Fits, PodsApart;
    GroundOnly(s, Put(s, p, x));
  }

  /** The successor of a call claims nothing that the call did not. */
  predicate Milder(k: Call, j: Call) {
    && j.pod == k.pod && (InitCall(j) <==> InitCall(k))
    && (HoldsAddress(j) ==> HoldsAddress(k) && j.address == k.address)
    && (KillCall(j) ==> KillCall(k))
    && (j.StartSpawned? || j.StartAborting? ==> Nurses(k, j.server))
    && !j.StopTaking? && !j.KillTaking? && !j.StopKilling? && !j.KillKilling?
  }

  lemma MilderAgrees(k: Call, j: Call, d: Call)
    requires Milder(k, j) && Agree(k, d)
    ensures Agree(j, d)
  {
  }

  lemma MilderCore(s: Node, c: CallId, j: Call)
    requires Core(s) && c in s.calls && Milder(s.calls[c], j) && CallOk(s, j)
    ensures Core(Go(s, c, j))
  {
    hide CallOk, Grounded, OneListener, PodOk, Agree;
    forall d <- s.calls | d != c ensures Agree(j, s.calls[d]) { MilderAgrees(s.calls[c], j, s.calls[d]); }
    forall p <- s.pods ensures Fits(p, s.pods[p], j) { assert Fits(p, s.pods[p], s.calls[c]); }
    hide Core;
    GoCore(s, c, j);
  }
}

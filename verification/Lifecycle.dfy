/**
  * The pod lifecycle (`runtime/state.rs`) as a transition system. Each `compute` on the pod map,
  * each `take` of a killer, each bind and each call into the address manager is one step, and
  * steps of any number of calls interleave freely. The environment resolves routes, refuses
  * binds, hands out addresses and may end a server at any time.
  */
module Lifecycle {
  import opened Prelude

  type PodId = nat
  type CallId = nat
  type ServerId = nat
  type RoutesId = nat
  type Address = nat

  datatype PodState = Initiated | Created | Starting | Running | Stopped | Removed | Killed

  datatype Metadata = Metadata(name: string, attempt: nat)

  datatype Params = Params(
    metadata: Option<Metadata>,
    labels: map<string, string>,
    annotations: map<string, string>,
    environment: map<string, string>,
    image: Option<string>)

  /**
    * A pod. The killer is a handle to a single-use cell: `None` is the empty cell a pod starts
    * with, `Some(server)` the cell made for that server. Copies of the pod share the cell.
    */
  datatype Pod = Pod(
    state: PodState,
    address: Address,
    params: Params,
    routes: Option<RoutesId>,
    killer: Option<ServerId>)

  datatype RoutesStatus = Pending | Ready | Failed

  datatype Server = Server(pod: PodId, address: Address)

  /** Who emptied the cell of a killer. */
  datatype Taker = ByStart | ByStop | ByKill

  /** A call in flight: what it will do next, and what it holds. */
  datatype Call =
    | InitAwaiting(pod: PodId)
    | InitAddressed(pod: PodId, address: Address)
    | StartAwaiting(pod: PodId, awaited: RoutesId)
    | StartBinding(pod: PodId, snapshot: Pod)
    | StartUnbound(pod: PodId)
    | StartSpawned(pod: PodId, snapshot: Pod, server: ServerId)
    | StartAborting(pod: PodId, server: ServerId)
    | StopTaking(pod: PodId, killer: Option<ServerId>)
    | StopKilling(pod: PodId, server: ServerId)
    | KillTaking(pod: PodId, address: Address, killer: Option<ServerId>)
    | KillKilling(pod: PodId, address: Address, server: ServerId)
    | KillDeactivating(pod: PodId, address: Address)
    | KillDeallocating(pod: PodId, address: Address)

  datatype Node = Node(
    pods: map<PodId, Pod>,
    nextPod: PodId,
    calls: map<CallId, Call>,
    // Every server ever spawned, by id; those whose cell still holds the killer; those that
    // listen on their address; and who emptied the cells of the others.
    servers: seq<Server>,
    armed: set<ServerId>,
    listening: set<ServerId>,
    taken: map<ServerId, Taker>,
    routes: seq<RoutesStatus>,
    leased: set<Address>,
    // The address each pod was inserted with.
    addressOf: map<PodId, Address>)

  const START := Node(map[], 0, map[], [], {}, {}, map[], [], {}, map[])

  // ---------------------------------------------------------------------------------------
  // Parameters of a container
  // ---------------------------------------------------------------------------------------

  const RESTART_COUNT := "io.kubernetes.container.restartCount"

  /** Equality of parameters up to the attempt and the restart count. */
  predicate SameParams(a: Params, b: Params) {
    && (a.metadata.Some? <==> b.metadata.Some?)
    && (a.metadata.Some? ==> a.metadata.value.name == b.metadata.value.name)
    && a.labels == b.labels
    && a.annotations - {RESTART_COUNT} == b.annotations - {RESTART_COUNT}
    && a.environment == b.environment
    && a.image == b.image
  }

  predicate LaterAttempt(old_: Params, new_: Params) {
    old_.metadata.Some? && new_.metadata.Some? && new_.metadata.value.attempt > old_.metadata.value.attempt
  }

  // ---------------------------------------------------------------------------------------
  // Steps
  // ---------------------------------------------------------------------------------------

  datatype Step =
    | InitPod(call: CallId)
    | ObtainAddress(call: CallId, given: Option<Address>)
    | InsertPod(call: CallId)
    | CreateContainer(pod: PodId, params: Params)
    | StartContainer(call: CallId, pod: PodId)
    | RetryStart(call: CallId)
    | Bind(call: CallId, bound: bool)
    | RollBackStart(call: CallId)
    | CommitStart(call: CallId)
    | AbortServer(call: CallId)
    | StopContainer(call: CallId, pod: PodId)
    | TakeToStop(call: CallId)
    | FinishStop(call: CallId)
    | RemoveContainer(pod: PodId)
    | KillPod(call: CallId, pod: PodId)
    | TakeToKill(call: CallId)
    | FinishKill(call: CallId)
    | Deactivate(call: CallId, done: bool)
    | Deallocate(call: CallId, done: bool)
    | DeletePod(pod: PodId)
    | ResolveRoutes(routes: RoutesId, ready: bool)
    | EndServer(server: ServerId)

  /** Some listening server holds the address, so that binding to it fails. */
  predicate Held(s: Node, address: Address) {
    exists l :: l in s.listening && l < |s.servers| && s.servers[l].address == address
  }

  predicate Enabled(s: Node, step: Step) {
    match step
    case InitPod(c) => c !in s.calls
    case ObtainAddress(c, given) =>
      c in s.calls && s.calls[c].InitAwaiting? && (given.Some? ==> given.value !in s.leased)
    case InsertPod(c) => c in s.calls && s.calls[c].InitAddressed?
    case CreateContainer(_, _) => true
    case StartContainer(c, _) => c !in s.calls
    case RetryStart(c) =>
      c in s.calls && s.calls[c].StartAwaiting? &&
      s.calls[c].awaited < |s.routes| && !s.routes[s.calls[c].awaited].Pending?
    case Bind(c, bound) =>
      c in s.calls && s.calls[c].StartBinding? && (bound ==> !Held(s, s.calls[c].snapshot.address))
    case RollBackStart(c) => c in s.calls && s.calls[c].StartUnbound?
    case CommitStart(c) => c in s.calls && s.calls[c].StartSpawned?
    case AbortServer(c) => c in s.calls && s.calls[c].StartAborting?
    case StopContainer(c, _) => c !in s.calls
    case TakeToStop(c) => c in s.calls && s.calls[c].StopTaking?
    case FinishStop(c) => c in s.calls && s.calls[c].StopKilling?
    case RemoveContainer(_) => true
    case KillPod(c, _) => c !in s.calls
    case TakeToKill(c) => c in s.calls && s.calls[c].KillTaking?
    case FinishKill(c) => c in s.calls && s.calls[c].KillKilling?
    case Deactivate(c, _) => c in s.calls && s.calls[c].KillDeactivating?
    case Deallocate(c, _) => c in s.calls && s.calls[c].KillDeallocating?
    case DeletePod(_) => true
    case ResolveRoutes(r, _) => r < |s.routes| && s.routes[r].Pending?
    case EndServer(l) => l in s.listening
  }

  function Done(s: Node, c: CallId): Node {
    s.(calls := s.calls - {c})
  }

  function Go(s: Node, c: CallId, call: Call): Node {
    s.(calls := s.calls[c := call])
  }

  function SetState(s: Node, p: PodId, state: PodState): Node
    requires p in s.pods
  {
    s.(pods := s.pods[p := s.pods[p].(state := state)])
  }

  function Create(s: Node, p: PodId, params: Params): Node {
    if p !in s.pods then s
    else
      var pod := s.pods[p];
      match pod.state
      case Initiated => Recreate(s, p, pod, params)
      case Removed => Recreate(s, p, pod, params)
      case Stopped => s
      case Killed => s
      case _ =>
        if !SameParams(pod.params, params) then s
        else if RoutesUnusable(s, pod.routes) && LaterAttempt(pod.params, params) then
          Recreate(s, p, pod, params)
        else
          s.(pods := s.pods[p := pod.(state := Created, params := params)])
  }

  /** No routes, or routes that have not become ready yet or never will. */
  predicate RoutesUnusable(s: Node, routes: Option<RoutesId>) {
    routes.Some? && routes.value < |s.routes| ==> !s.routes[routes.value].Ready?
  }

  /** The container with routes of its own, whose initialization begins. */
  function Recreate(s: Node, p: PodId, pod: Pod, params: Params): Node {
    s.(pods := s.pods[p := pod.(state := Created, params := params, routes := Some(|s.routes|))],
       routes := s.routes + [Pending])
  }

  /** The first compute of a start; `awaited` are the routes it already waited for, if any. */
  function TryStart(s: Node, c: CallId, p: PodId, awaited: Option<RoutesId>): Node {
    if p !in s.pods || !s.pods[p].state.Created? then Done(s, c)
    else
      var pod := s.pods[p];
      if pod.routes.None? || pod.routes.value >= |s.routes| then Done(s, c)
      else
        match s.routes[pod.routes.value]
        case Ready => Go(SetState(s, p, Starting), c, StartBinding(p, pod.(state := Starting)))
        case Failed => Done(s, c)
        case Pending =>
          if awaited.None? then Go(s, c, StartAwaiting(p, pod.routes.value)) else Done(s, c)
  }

  function BindOrNot(s: Node, c: CallId, bound: bool): Node
    requires c in s.calls && s.calls[c].StartBinding?
  {
    var p := s.calls[c].pod;
    var snapshot := s.calls[c].snapshot;
    if !bound then Go(s, c, StartUnbound(p))
    else
      var l := |s.servers|;
      Go(s.(servers := s.servers + [Server(p, snapshot.address)],
            armed := s.armed + {l}, listening := s.listening + {l}),
         c, StartSpawned(p, snapshot, l))
  }

  function RollBack(s: Node, c: CallId): Node
    requires c in s.calls && s.calls[c].StartUnbound?
  {
    var p := s.calls[c].pod;
    if p in s.pods && s.pods[p].state.Starting? then Done(SetState(s, p, Created), c) else Done(s, c)
  }

  /** The second compute of a start publishes its snapshot, not the entry it finds. */
  function Commit(s: Node, c: CallId): Node
    requires c in s.calls && s.calls[c].StartSpawned?
  {
    var StartSpawned(p, snapshot, l) := s.calls[c];
    if p in s.pods && s.pods[p].state.Starting? then
      Done(s.(pods := s.pods[p := snapshot.(state := Running, killer := Some(l))]), c)
    else
      Go(s, c, StartAborting(p, l))
  }

  function Stop(s: Node, c: CallId, p: PodId): Node {
    if p !in s.pods then s
    else
      match s.pods[p].state
      case Starting => SetState(s, p, Stopped)
      case Running => Go(SetState(s, p, Stopped), c, StopTaking(p, s.pods[p].killer))
      case _ => s
  }

  function Kill(s: Node, c: CallId, p: PodId): Node {
    if p !in s.pods || s.pods[p].state.Killed? then s
    else Go(SetState(s, p, Killed), c, KillTaking(p, s.pods[p].address, s.pods[p].killer))
  }

  predicate IsArmed(s: Node, killer: Option<ServerId>) {
    killer.Some? && killer.value in s.armed
  }

  /** Empties the cell of a server. */
  function Disarm(s: Node, l: ServerId, taker: Taker): Node {
    s.(armed := s.armed - {l}, taken := s.taken[l := taker])
  }

  function Silence(s: Node, l: ServerId): Node {
    s.(listening := s.listening - {l})
  }

  // Initialization: an id from the counter, an address for it, an entry in the map.

  function BeginInit(s: Node, c: CallId): Node {
    Go(s.(nextPod := s.nextPod + 1), c, InitAwaiting(s.nextPod))
  }

  function Lease(s: Node, c: CallId, given: Option<Address>): Node
    requires c in s.calls && s.calls[c].InitAwaiting?
  {
    if given.None? then Done(s, c)
    else Go(s.(leased := s.leased + {given.value}), c, InitAddressed(s.calls[c].pod, given.value))
  }

  function NewPod(a: Address): Pod {
    Pod(Initiated, a, Params(None, map[], map[], map[], None), None, None)
  }

  function Insert(s: Node, c: CallId): Node
    requires c in s.calls && s.calls[c].InitAddressed?
  {
    var InitAddressed(p, a) := s.calls[c];
    if p in s.pods then Done(s, c)
    else Done(s.(pods := s.pods[p := NewPod(a)], addressOf := s.addressOf[p := a]), c)
  }

  // Taking the killer out of its cell and using it.

  function Abort(s: Node, c: CallId): Node
    requires c in s.calls && s.calls[c].StartAborting?
  {
    var l := s.calls[c].server;
    Done(Silence(if l in s.armed then Disarm(s, l, ByStart) else s, l), c)
  }

  function TakeForStop(s: Node, c: CallId): Node
    requires c in s.calls && s.calls[c].StopTaking?
  {
    var StopTaking(p, killer) := s.calls[c];
    if IsArmed(s, killer) then Go(Disarm(s, killer.value, ByStop), c, StopKilling(p, killer.value))
    else Done(s, c)
  }

  function EndStop(s: Node, c: CallId): Node
    requires c in s.calls && s.calls[c].StopKilling?
  {
    Done(Silence(s, s.calls[c].server), c)
  }

  function TakeForKill(s: Node, c: CallId): Node
    requires c in s.calls && s.calls[c].KillTaking?
  {
    var KillTaking(p, a, killer) := s.calls[c];
    if IsArmed(s, killer) then Go(Disarm(s, killer.value, ByKill), c, KillKilling(p, a, killer.value))
    else Go(s, c, KillDeactivating(p, a))
  }

  function EndKill(s: Node, c: CallId): Node
    requires c in s.calls && s.calls[c].KillKilling?
  {
    Go(Silence(s, s.calls[c].server), c, KillDeactivating(s.calls[c].pod, s.calls[c].address))
  }

  // Giving the address back: an error on the way ends the call.

  function Quiet(s: Node, c: CallId, done: bool): Node
    requires c in s.calls && s.calls[c].KillDeactivating?
  {
    if done then Go(s, c, KillDeallocating(s.calls[c].pod, s.calls[c].address)) else Done(s, c)
  }

  function Release(s: Node, c: CallId, done: bool): Node
    requires c in s.calls && s.calls[c].KillDeallocating?
  {
    Done(if done then s.(leased := s.leased - {s.calls[c].address}) else s, c)
  }

  function Remove(s: Node, p: PodId): Node {
    if p in s.pods && s.pods[p].state.Stopped? then SetState(s, p, Removed) else s
  }

  function Delete(s: Node, p: PodId): Node {
    if p in s.pods && s.pods[p].state.Killed? then s.(pods := s.pods - {p}) else s
  }

  function Resolve(s: Node, r: RoutesId, ready: bool): Node
    requires r < |s.routes|
  {
    s.(routes := s.routes[r := if ready then Ready else Failed])
  }

  function Apply(s: Node, step: Step): Node
    requires Enabled(s, step)
  {
    match step
    case InitPod(c) => BeginInit(s, c)
    case ObtainAddress(c, given) => Lease(s, c, given)
    case InsertPod(c) => Insert(s, c)
    case CreateContainer(p, params) => Create(s, p, params)
    case StartContainer(c, p) => TryStart(s, c, p, None)
    case RetryStart(c) => TryStart(s, c, s.calls[c].pod, Some(s.calls[c].awaited))
    case Bind(c, bound) => BindOrNot(s, c, bound)
    case RollBackStart(c) => RollBack(s, c)
    case CommitStart(c) => Commit(s, c)
    case AbortServer(c) => Abort(s, c)
    case StopContainer(c, p) => Stop(s, c, p)
    case TakeToStop(c) => TakeForStop(s, c)
    case FinishStop(c) => EndStop(s, c)
    case RemoveContainer(p) => Remove(s, p)
    case KillPod(c, p) => Kill(s, c, p)
    case TakeToKill(c) => TakeForKill(s, c)
    case FinishKill(c) => EndKill(s, c)
    case Deactivate(c, done) => Quiet(s, c, done)
    case Deallocate(c, done) => Release(s, c, done)
    case DeletePod(p) => Delete(s, p)
    case ResolveRoutes(r, ready) => Resolve(s, r, ready)
    case EndServer(l) => Silence(s, l)
  }

  // ---------------------------------------------------------------------------------------
  // Replies
  // ---------------------------------------------------------------------------------------

  datatype Fault =
    | PodNotFound
    | BadPriorState(state: PodState)
    | DifferentParams
    | RoutesMissing
    | RoutesFailed
    | RoutesJuggled
    | RestartUnsupported
    | AddressRefused
    | IdCollision
    | BindFailed
    | Overtaken
    | Unkillable
    | AddressStuck

  datatype Reply = Continues | Succeeds | Fails(fault: Fault)

  function CreateReply(s: Node, p: PodId, params: Params): Reply {
    if p !in s.pods then Fails(PodNotFound)
    else
      match s.pods[p].state
      case Initiated => Succeeds
      case Removed => Succeeds
      case Stopped => Fails(BadPriorState(Stopped))
      case Killed => Fails(BadPriorState(Killed))
      case _ => if SameParams(s.pods[p].params, params) then Succeeds else Fails(DifferentParams)
  }

  function StartReply(s: Node, p: PodId, awaited: Option<RoutesId>): Reply {
    if p !in s.pods then Fails(PodNotFound)
    else
      var pod := s.pods[p];
      match pod.state
      case Created =>
        if pod.routes.None? || pod.routes.value >= |s.routes| then Fails(RoutesMissing)
        else if s.routes[pod.routes.value].Failed? then Fails(RoutesFailed)
        else if s.routes[pod.routes.value].Pending? && awaited.Some? then Fails(RoutesJuggled)
        else Continues
      case Starting => Succeeds
      case Running => Succeeds
      case Stopped => Fails(RestartUnsupported)
      case _ => Fails(BadPriorState(pod.state))
  }

  function StopReply(s: Node, p: PodId): Reply {
    if p !in s.pods then Fails(PodNotFound)
    else
      match s.pods[p].state
      case Starting => Succeeds
      case Stopped => Succeeds
      case Running => Continues
      case _ => Fails(BadPriorState(s.pods[p].state))
  }

  function RemoveReply(s: Node, p: PodId): Reply {
    if p !in s.pods then Fails(PodNotFound)
    else if s.pods[p].state.Stopped? || s.pods[p].state.Removed? then Succeeds
    else Fails(BadPriorState(s.pods[p].state))
  }

  function KillReply(s: Node, p: PodId): Reply {
    if p !in s.pods then Fails(PodNotFound) else if s.pods[p].state.Killed? then Succeeds else Continues
  }

  function DeleteReply(s: Node, p: PodId): Reply {
    if p !in s.pods then Fails(PodNotFound)
    else if s.pods[p].state.Killed? then Succeeds
    else Fails(BadPriorState(s.pods[p].state))
  }

  /** What the caller is told by the step, if the step ends the call. */
  function ReplyTo(s: Node, step: Step): Reply
    requires Enabled(s, step)
  {
    match step
    case ObtainAddress(_, given) => if given.None? then Fails(AddressRefused) else Continues
    case InsertPod(c) => if s.calls[c].pod in s.pods then Fails(IdCollision) else Succeeds
    case CreateContainer(p, params) => CreateReply(s, p, params)
    case StartContainer(_, p) => StartReply(s, p, None)
    case RetryStart(c) => StartReply(s, s.calls[c].pod, Some(s.calls[c].awaited))
    case RollBackStart(_) => Fails(BindFailed)
    case CommitStart(c) =>
      var p := s.calls[c].pod;
      if p in s.pods && s.pods[p].state.Starting? then Succeeds else Continues
    case AbortServer(_) => Fails(Overtaken)
    case StopContainer(_, p) => StopReply(s, p)
    case TakeToStop(c) => if IsArmed(s, s.calls[c].killer) then Continues else Fails(Unkillable)
    case FinishStop(_) => Succeeds
    case RemoveContainer(p) => RemoveReply(s, p)
    case KillPod(_, p) => KillReply(s, p)
    case Deactivate(_, done) => if done then Continues else Fails(AddressStuck)
    case Deallocate(_, done) => if done then Succeeds else Fails(AddressStuck)
    case DeletePod(p) => DeleteReply(s, p)
    case _ => Continues
  }

  // ---------------------------------------------------------------------------------------
  // Runs
  // ---------------------------------------------------------------------------------------

  /** A run from an empty node: every step is enabled where it is taken. */
  ghost predicate IsRun(steps: seq<Step>) {
    steps != [] ==>
      var n := |steps| - 1;
      IsRun(steps[..n]) && Enabled(After(steps[..n]), steps[n])
  }

  /** The node after a run. */
  ghost function After(steps: seq<Step>): Node {
    if steps == [] then START
    else
      var before := After(steps[..|steps| - 1]);
      if Enabled(before, steps[|steps| - 1]) then Apply(before, steps[|steps| - 1]) else before
  }
}

/**
  * The table of states and transitions that the documentation of the runtime promises, and where
  * the code keeps to it: everywhere but in three cells.
  */
module LifecycleTable {
  import opened Prelude
  import opened Lifecycle
  import opened Custody
  import opened CustodyKept

  /** The calls that ask for a state, by the column they ask for. */
  datatype Operation =
    | AskCreated(params: Params)
    | AskStarting
    | AskStopped
    | AskRemoved
    | AskKilled
    | AskGone

  /** A transition, an error, or a call that has been answered already. */
  datatype Cell = Transition | Refusal | Repetition

  /** The table, row by row. */
  function Documented(state: PodState, op: Operation): Cell {
    match state
    case Initiated => if op.AskCreated? || op.AskKilled? then Transition else Refusal
    case Created =>
      if op.AskCreated? then Repetition else if op.AskStarting? || op.AskKilled? then Transition else Refusal
    case Starting =>
      if op.AskCreated? || op.AskStarting? then Repetition
      else if op.AskStopped? || op.AskKilled? then Transition else Refusal
    case Running =>
      if op.AskCreated? || op.AskStarting? then Repetition
      else if op.AskStopped? || op.AskKilled? then Transition else Refusal
    case Stopped =>
      if op.AskStopped? then Repetition
      else if op.AskStarting? || op.AskRemoved? || op.AskKilled? then Transition else Refusal
    case Removed =>
      if op.AskRemoved? then Repetition else if op.AskCreated? || op.AskKilled? then Transition else Refusal
    case Killed => if op.AskKilled? then Repetition else if op.AskGone? then Transition else Refusal
  }

  /** What the call does first, under the id of a call that is not in use. */
  function First(s: Node, op: Operation, c: CallId, p: PodId): Node {
    match op
    case AskCreated(params) => Create(s, p, params)
    case AskStarting => TryStart(s, c, p, None)
    case AskStopped => Stop(s, c, p)
    case AskRemoved => Remove(s, p)
    case AskKilled => Kill(s, c, p)
    case AskGone => Delete(s, p)
  }

  function FirstReply(s: Node, op: Operation, p: PodId): Reply {
    match op
    case AskCreated(params) => CreateReply(s, p, params)
    case AskStarting => StartReply(s, p, None)
    case AskStopped => StopReply(s, p)
    case AskRemoved => RemoveReply(s, p)
    case AskKilled => KillReply(s, p)
    case AskGone => DeleteReply(s, p)
  }

  /** The cells in which the code is not what the table says. */
  predicate Departs(state: PodState, op: Operation) {
    || (op.AskCreated? && (state.Starting? || state.Running?))
    || (op.AskStarting? && state.Stopped?)
  }

  predicate StateOr(s: Node, p: PodId, op: Operation) {
    match op
    case AskCreated(_) => p in s.pods && s.pods[p].state.Created?
    case AskStarting => p in s.pods && s.pods[p].state.Starting?
    case AskStopped => p in s.pods && s.pods[p].state.Stopped?
    case AskRemoved => p in s.pods && s.pods[p].state.Removed?
    case AskKilled => p in s.pods && s.pods[p].state.Killed?
    case AskGone => p !in s.pods
  }

  /** A created container whose routes are not ready waits for them or learns that they failed. */
  predicate NotReady(s: Node, p: PodId, op: Operation) {
    op.AskStarting? && p in s.pods && s.pods[p].routes.Some? && s.pods[p].routes.value < |s.routes|
    && !s.routes[s.pods[p].routes.value].Ready?
  }

  predicate ParamsDiffer(s: Node, p: PodId, op: Operation) {
    op.AskCreated? && p in s.pods && !SameParams(s.pods[p].params, op.params)
  }

  /**
    * Outside the three cells the first step of every call is what the table says: a refusal fails,
    * naming the state, and changes nothing; a repetition changes no state and succeeds, unless its parameters differ,
    * when it fails; a transition does not fail and reaches the state asked for, or else the routes
    * are not ready and no pod changes.
    */
  lemma TableHolds(s: Node, op: Operation, c: CallId, p: PodId)
    requires Core(s) && c !in s.calls && p in s.pods && !Departs(s.pods[p].state, op)
    ensures var t, reply := First(s, op, c, p), FirstReply(s, op, p);
      match Documented(s.pods[p].state, op)
      case Refusal => reply == Fails(BadPriorState(s.pods[p].state)) && t == s
      case Repetition =>
        if ParamsDiffer(s, p, op) then reply == Fails(DifferentParams) && t == s
        else reply == Succeeds && p in t.pods && t.pods[p].state == s.pods[p].state && t.calls == s.calls
      case Transition =>
        if NotReady(s, p, op) then t.pods == s.pods && reply in {Continues, Fails(RoutesFailed)}
        else !reply.Fails? && StateOr(t, p, op)
  {
    assert PodOk(s, p, s.pods[p]);
    hide Core, SameParams, RoutesUnusable, LaterAttempt;
    if op.AskStarting? { NoCall(s, c); }
  }

  lemma NoCall(s: Node, c: CallId)
    requires c !in s.calls
    ensures Done(s, c) == s
  {
    assert s.calls - {c} == s.calls;
  }

  /**
    * In the three cells: a container that is starting or running is not left alone by an equal
    * creation but becomes created again, with its killer; and a stopped one is not started again.
    */
  lemma WhereCodeDeparts(s: Node, op: Operation, c: CallId, p: PodId)
    requires Core(s) && c !in s.calls && p in s.pods && Departs(s.pods[p].state, op)
    ensures var t, reply := First(s, op, c, p), FirstReply(s, op, p);
      if op.AskStarting? then reply == Fails(RestartUnsupported) && t == s
      else if ParamsDiffer(s, p, op) then reply == Fails(DifferentParams) && t == s
      else
        reply == Succeeds && p in t.pods && t.pods[p].state.Created? && t.calls == s.calls
        && t.pods[p].killer == s.pods[p].killer && t.pods[p].address == s.pods[p].address
  {
    hide Core, SameParams, RoutesUnusable, LaterAttempt;
    if op.AskStarting? { NoCall(s, c); }
  }

  /** Nothing is done to a pod that does not exist. */
  lemma AbsentIsRefused(s: Node, op: Operation, c: CallId, p: PodId)
    requires c !in s.calls && p !in s.pods
    ensures FirstReply(s, op, p) == Fails(PodNotFound) && First(s, op, c, p) == s
  {
    NoCall(s, c);
  }

  // ---------------------------------------------------------------------------------------
  // Every step moves a pod along the table
  // ---------------------------------------------------------------------------------------

  function StateOf(s: Node, p: PodId): Option<PodState> {
    if p in s.pods then Some(s.pods[p].state) else None
  }

  /** The transitions there are: those of the table but restarts, and two back to `Created`. */
  predicate Moves(from: Option<PodState>, to: Option<PodState>) {
    match from
    case None => to == Some(Initiated)
    case Some(Initiated) => to == Some(Created) || to == Some(Killed)
    case Some(Created) => to == Some(Starting) || to == Some(Killed)
    case Some(Starting) => to in {Some(Created), Some(Running), Some(Stopped), Some(Killed)}
    case Some(Running) => to in {Some(Created), Some(Stopped), Some(Killed)}
    case Some(Stopped) => to == Some(Removed) || to == Some(Killed)
    case Some(Removed) => to == Some(Created) || to == Some(Killed)
    case Some(Killed) => to == None
  }

  predicate Along(s: Node, t: Node, p: PodId) {
    StateOf(t, p) == StateOf(s, p) || Moves(StateOf(s, p), StateOf(t, p))
  }

  lemma StartAlong(s: Node, c: CallId, q: PodId, awaited: Option<RoutesId>, p: PodId)
    ensures Along(s, TryStart(s, c, q, awaited), p)
    ensures c in s.calls && s.calls[c].StartUnbound? ==> Along(s, RollBack(s, c), p)
    ensures c in s.calls && s.calls[c].StartSpawned? ==> Along(s, Commit(s, c), p)
  {
  }

  lemma CreateAlong(s: Node, c: CallId, q: PodId, params: Params, p: PodId)
    ensures Along(s, Create(s, q, params), p)
    ensures c in s.calls && s.calls[c].InitAddressed? ==> Along(s, Insert(s, c), p)
  {
  }

  lemma StopAlong(s: Node, c: CallId, q: PodId, p: PodId)
    ensures Along(s, Stop(s, c, q), p)
    ensures Along(s, Remove(s, q), p)
    ensures Along(s, Kill(s, c, q), p)
    ensures Along(s, Delete(s, q), p)
  {
  }

  lemma SameAlong(s: Node, t: Node, p: PodId)
    requires t.pods == s.pods
    ensures Along(s, t, p)
  {
  }

  lemma EveryStepAlong(s: Node, step: Step, p: PodId)
    requires Enabled(s, step)
    ensures Along(s, Apply(s, step), p)
  {
    hide Along, Insert, Create, TryStart, RollBack, Commit, Stop, Remove, Kill, Delete;
    var none := NewPod(0).params;
    match step
    case InsertPod(c) => CreateAlong(s, c, 0, none, p);
    case CreateContainer(q, params) => CreateAlong(s, 0, q, params, p);
    case StartContainer(c, q) => StartAlong(s, c, q, None, p);
    case RetryStart(c) => StartAlong(s, c, s.calls[c].pod, Some(s.calls[c].awaited), p);
    case RollBackStart(c) => StartAlong(s, c, 0, None, p);
    case CommitStart(c) => StartAlong(s, c, 0, None, p);
    case StopContainer(c, q) => StopAlong(s, c, q, p);
    case RemoveContainer(q) => StopAlong(s, 0, q, p);
    case KillPod(c, q) => StopAlong(s, c, q, p);
    case DeletePod(q) => StopAlong(s, 0, q, p);
    case _ => SameAlong(s, Apply(s, step), p);
  }
}

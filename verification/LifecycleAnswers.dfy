/**
  * What callers are told: a call is answered when it ends and not before, with success exactly if what
  * it asked for is so.
  */
module LifecycleAnswers {
  import opened Prelude
  import opened Lifecycle
  import opened Custody
  import opened CustodyKept
  import opened LifecycleRuns

  /** The calls that take more than one step. */
  predicate IsCall(step: Step) {
    !step.CreateContainer? && !step.RemoveContainer? && !step.DeletePod? && !step.ResolveRoutes? && !step.EndServer?
  }

  predicate InState(s: Node, p: PodId, state: PodState) {
    p in s.pods && s.pods[p].state == state
  }

  /** The call has what it asked for, after its last step. */
  predicate Granted(s: Node, step: Step, t: Node)
    requires Enabled(s, step)
  {
    match step
    case InsertPod(c) => InState(t, s.calls[c].pod, Initiated)
    case CreateContainer(p, params) => InState(t, p, PodState.Created) && t.pods[p].params == params
    case StartContainer(_, p) => InState(t, p, Starting) || InState(t, p, Running)
    case RetryStart(c) => InState(t, s.calls[c].pod, Starting) || InState(t, s.calls[c].pod, Running)
    case CommitStart(c) => InState(t, s.calls[c].pod, Running) && t.pods[s.calls[c].pod].killer == Some(s.calls[c].server)
    case StopContainer(_, p) => InState(t, p, Stopped)
    case FinishStop(c) => s.calls[c].server !in t.listening
    case RemoveContainer(p) => InState(t, p, Removed)
    case KillPod(_, p) => InState(t, p, Killed)
    case Deactivate(c, _) => s.calls[c].address !in t.leased
    case Deallocate(c, _) => s.calls[c].address !in t.leased
    case DeletePod(p) => p in s.pods && p !in t.pods
    case _ => false
  }

  /** The answer of a step, given the node after it. */
  predicate Answers(s: Node, step: Step, t: Node)
    requires Enabled(s, step)
  {
    && (IsCall(step) ==> (ReplyTo(s, step).Continues? <==> step.call in t.calls))
    && (!ReplyTo(s, step).Continues? ==> (ReplyTo(s, step).Succeeds? <==> Granted(s, step, t)))
  }

  lemma StartAnswers(s: Node, c: CallId, p: PodId)
    requires Enabled(s, StartContainer(c, p))
    ensures Answers(s, StartContainer(c, p), TryStart(s, c, p, None))
  {
  }

  lemma RetryAnswers(s: Node, c: CallId)
    requires Enabled(s, RetryStart(c))
    ensures Answers(s, RetryStart(c), TryStart(s, c, s.calls[c].pod, Some(s.calls[c].awaited)))
  {
  }

  lemma CommitAnswers(s: Node, c: CallId)
    requires Enabled(s, CommitStart(c))
    ensures Answers(s, CommitStart(c), Commit(s, c))
  {
  }

  lemma CreateAnswers(s: Node, p: PodId, params: Params)
    ensures Answers(s, CreateContainer(p, params), Create(s, p, params))
  {
    hide RoutesUnusable, LaterAttempt;
  }

  lemma InsertAnswers(s: Node, c: CallId)
    requires Core(s) && Enabled(s, InsertPod(c))
    ensures Answers(s, InsertPod(c), Insert(s, c))
  {
    InsertCore(s, c);
    hide Core;
  }

  lemma StopAnswers(s: Node, c: CallId, p: PodId)
    ensures Enabled(s, StopContainer(c, p)) ==> Answers(s, StopContainer(c, p), Stop(s, c, p))
    ensures Enabled(s, KillPod(c, p)) ==> Answers(s, KillPod(c, p), Kill(s, c, p))
    ensures Answers(s, RemoveContainer(p), Remove(s, p))
    ensures Answers(s, DeletePod(p), Delete(s, p))
  {
  }

  lemma TakeAnswers(s: Node, c: CallId)
    ensures Enabled(s, TakeToStop(c)) ==> Answers(s, TakeToStop(c), TakeForStop(s, c))
    ensures Enabled(s, FinishStop(c)) ==> Answers(s, FinishStop(c), EndStop(s, c))
    ensures Enabled(s, TakeToKill(c)) ==> Answers(s, TakeToKill(c), TakeForKill(s, c))
    ensures Enabled(s, FinishKill(c)) ==> Answers(s, FinishKill(c), EndKill(s, c))
  {
  }

  lemma ReleaseAnswers(s: Node, c: CallId, done: bool)
    requires Core(s)
    ensures Enabled(s, Deactivate(c, done)) ==> Answers(s, Deactivate(c, done), Quiet(s, c, done))
    ensures Enabled(s, Deallocate(c, done)) ==> Answers(s, Deallocate(c, done), Release(s, c, done))
  {
    if c in s.calls { assert CallOk(s, s.calls[c]); }
    hide Core;
  }

  lemma InitAnswers(s: Node, c: CallId, given: Option<Address>, bound: bool)
    ensures Enabled(s, InitPod(c)) ==> Answers(s, InitPod(c), BeginInit(s, c))
    ensures Enabled(s, ObtainAddress(c, given)) ==> Answers(s, ObtainAddress(c, given), Lease(s, c, given))
    ensures Enabled(s, Bind(c, bound)) ==> Answers(s, Bind(c, bound), BindOrNot(s, c, bound))
    ensures Enabled(s, RollBackStart(c)) ==> Answers(s, RollBackStart(c), RollBack(s, c))
    ensures Enabled(s, AbortServer(c)) ==> Answers(s, AbortServer(c), Abort(s, c))
  {
    hide Held;
  }

  lemma OtherAnswers(s: Node, step: Step)
    requires Enabled(s, step) && (step.ResolveRoutes? || step.EndServer?)
    ensures Answers(s, step, Apply(s, step))
  {
  }

  /**
    * Over every run: a call is answered by the step that ends it and by no other, and the answer is
    * success if and only if the call has what it asked for.
    */
  lemma AnsweredExactly(steps: seq<Step>, step: Step)
    requires IsRun(steps) && Enabled(After(steps), step)
    ensures Answers(After(steps), step, Apply(After(steps), step))
  {
    var s := After(steps);
    RunCore(steps);
    hide Core, Answers, After, IsRun, Held, BeginInit, Lease, Insert, Create, TryStart, BindOrNot, RollBack, Commit, Abort;
    hide Stop, TakeForStop, EndStop, Kill, TakeForKill, EndKill, Quiet, Release, Remove, Delete;
    match step
    case InitPod(c) => InitAnswers(s, c, None, true);
    case ObtainAddress(c, given) => InitAnswers(s, c, given, true);
    case InsertPod(c) => InsertAnswers(s, c);
    case CreateContainer(p, params) => CreateAnswers(s, p, params);
    case StartContainer(c, p) => StartAnswers(s, c, p);
    case RetryStart(c) => RetryAnswers(s, c);
    case Bind(c, bound) => InitAnswers(s, c, None, bound);
    case RollBackStart(c) => InitAnswers(s, c, None, true);
    case CommitStart(c) => CommitAnswers(s, c);
    case AbortServer(c) => InitAnswers(s, c, None, true);
    case StopContainer(c, p) => StopAnswers(s, c, p);
    case TakeToStop(c) => TakeAnswers(s, c);
    case FinishStop(c) => TakeAnswers(s, c);
    case RemoveContainer(p) => StopAnswers(s, 0, p);
    case KillPod(c, p) => StopAnswers(s, c, p);
    case TakeToKill(c) => TakeAnswers(s, c);
    case FinishKill(c) => TakeAnswers(s, c);
    case Deactivate(c, done) => ReleaseAnswers(s, c, done);
    case Deallocate(c, done) => ReleaseAnswers(s, c, done);
    case DeletePod(p) => StopAnswers(s, 0, p);
    case ResolveRoutes(_, _) => OtherAnswers(s, step);
    case EndServer(_) => OtherAnswers(s, step);
  }
}

/**
  * What the kubelet may change when it creates a container again: the attempt, and the annotation in
  * which it counts restarts. Anything else is refused.
  */
module LifecycleCreate {
  import opened Prelude
  import opened Lifecycle

  /** The same container, for another attempt and with another count of restarts, or none. */
  function Again(old_: Params, attempt: nat, count: Option<string>): Params {
    var key := "io.kubernetes.container.restartCount";
    Params(
      match old_.metadata case None => None case Some(m) => Some(Metadata(m.name, attempt)),
      old_.labels,
      if count.Some? then old_.annotations[key := count.value] else old_.annotations - {key},
      old_.environment,
      old_.image)
  }

  predicate Lives(s: Node, p: PodId) {
    p in s.pods && (s.pods[p].state.Created? || s.pods[p].state.Starting? || s.pods[p].state.Running?)
  }

  function At(annotations: map<string, string>, key: string): Option<string> {
    if key in annotations then Some(annotations[key]) else None
  }

  /** A difference that counts. */
  ghost predicate Differs(old_: Params, new_: Params) {
    || old_.labels != new_.labels || old_.environment != new_.environment || old_.image != new_.image
    || old_.metadata.Some? != new_.metadata.Some?
    || (old_.metadata.Some? && new_.metadata.Some? && old_.metadata.value.name != new_.metadata.value.name)
    || DiffersAt(old_.annotations, new_.annotations)
  }

  ghost predicate DiffersAt(old_: map<string, string>, new_: map<string, string>) {
    exists key :: (key in old_ || key in new_) && key != "io.kubernetes.container.restartCount" && At(old_, key) != At(new_, key)
  }

  lemma AnnotationsAgree(old_: map<string, string>, new_: map<string, string>)
    ensures !DiffersAt(old_, new_) <==>
      old_ - {"io.kubernetes.container.restartCount"} == new_ - {"io.kubernetes.container.restartCount"}
  {
    var key := "io.kubernetes.container.restartCount";
    if !DiffersAt(old_, new_) {
      forall k ensures k in old_ - {key} <==> k in new_ - {key}
      {
        assert k != key ==> (k in old_ || k in new_ ==> At(old_, k) == At(new_, k));
      }
      forall k | k in old_ - {key} ensures (old_ - {key})[k] == (new_ - {key})[k] {
        assert At(old_, k) == At(new_, k);
      }
    }
    if old_ - {key} == new_ - {key} {
      forall k | (k in old_ || k in new_) && k != key ensures At(old_, k) == At(new_, k) {
        assert k in old_ <==> k in old_ - {key};
        assert k in new_ <==> k in new_ - {key};
        assert k in old_ - {key} ==> (old_ - {key})[k] == old_[k] && (new_ - {key})[k] == new_[k];
      }
    }
  }

  lemma AgainAnnotations(old_: map<string, string>, new_: map<string, string>)
    requires old_ - {"io.kubernetes.container.restartCount"} == new_ - {"io.kubernetes.container.restartCount"}
    ensures var key := "io.kubernetes.container.restartCount";
      new_ == if key in new_ then old_[key := new_[key]] else old_ - {key}
  {
    var key := "io.kubernetes.container.restartCount";
    assert key !in new_ ==> new_ - {key} == new_;
    forall k ensures k != key ==> (k in old_ <==> k in new_) && (k in old_ ==> old_[k] == new_[k]) {
      assert k != key ==> (k in old_ <==> k in old_ - {key}) && (k in new_ <==> k in new_ - {key});
      assert k in old_ - {key} ==> (old_ - {key})[k] == old_[k] && (new_ - {key})[k] == new_[k];
    }
  }

  /** The attempt and the count under which the container was created again. */
  lemma AgainWith(old_: Params, new_: Params) returns (attempt: nat, count: Option<string>)
    requires !Differs(old_, new_)
    ensures new_ == Again(old_, attempt, count)
  {
    AnnotationsAgree(old_.annotations, new_.annotations);
    AgainAnnotations(old_.annotations, new_.annotations);
    attempt := if new_.metadata.Some? then new_.metadata.value.attempt else 0;
    count := At(new_.annotations, "io.kubernetes.container.restartCount");
  }

  lemma AgainAgrees(old_: Params, attempt: nat, count: Option<string>)
    ensures !Differs(old_, Again(old_, attempt, count))
  {
    var key := "io.kubernetes.container.restartCount";
    var new_ := Again(old_, attempt, count).annotations;
    assert old_.annotations - {key} == new_ - {key};
    AnnotationsAgree(old_.annotations, new_);
  }

  /**
    * A container that was created, starts or runs is created again if and only if it is the same up to
    * the attempt and the count. Otherwise the creation fails for its parameters and changes nothing.
    */
  lemma CreatedAgainExact(s: Node, p: PodId, params: Params)
    requires Lives(s, p)
    ensures CreateReply(s, p, params) == Succeeds <==> exists attempt, count :: params == Again(s.pods[p].params, attempt, count)
    ensures CreateReply(s, p, params) == Fails(DifferentParams) <==> Differs(s.pods[p].params, params)
    ensures CreateReply(s, p, params) in {Succeeds, Fails(DifferentParams)}
    ensures CreateReply(s, p, params) != Succeeds ==> Create(s, p, params) == s
  {
    var old_ := s.pods[p].params;
    AnnotationsAgree(old_.annotations, params.annotations);
    assert SameParams(old_, params) <==> !Differs(old_, params);
    if !Differs(old_, params) { var attempt, count := AgainWith(old_, params); }
    forall attempt, count | params == Again(old_, attempt, count) ensures !Differs(old_, params) {
      AgainAgrees(old_, attempt, count);
    }
    hide SameParams, Differs, Again, RoutesUnusable, LaterAttempt;
  }

  /** The container has no routes, or they are not ready, for whatever reason. */
  predicate Unready(s: Node, x: Pod) {
    x.routes.None? || x.routes.value >= |s.routes| || s.routes[x.routes.value] in {Pending, Failed}
  }

  /**
    * Created again, a container is in `Created` with the new parameters, whatever it was doing. It gets
    * routes of its own if and only if it has no ready ones and this is a later attempt. Nothing else changes.
    */
  lemma CreatedAgainState(s: Node, p: PodId, attempt: nat, count: Option<string>)
    requires Lives(s, p)
    ensures var x := s.pods[p];
      var params := Again(x.params, attempt, count);
      Create(s, p, params) ==
        if Unready(s, x) && x.params.metadata.Some? && attempt > x.params.metadata.value.attempt then
          s.(pods := s.pods[p := Pod(PodState.Created, x.address, params, Some(|s.routes|), x.killer)],
             routes := s.routes + [Pending])
        else s.(pods := s.pods[p := Pod(PodState.Created, x.address, params, x.routes, x.killer)])
  {
    var old_ := s.pods[p].params;
    var params := Again(old_, attempt, count);
    AgainAgrees(old_, attempt, count);
    AnnotationsAgree(old_.annotations, params.annotations);
    assert SameParams(old_, params);
    assert RoutesUnusable(s, s.pods[p].routes) <==> Unready(s, s.pods[p]);
    hide SameParams, Differs;
  }

  /** A pod without a container gets one with routes of its own. */
  lemma CreatedAnew(s: Node, p: PodId, params: Params)
    requires p in s.pods && (s.pods[p].state.Initiated? || s.pods[p].state.Removed?)
    ensures CreateReply(s, p, params) == Succeeds
    ensures var x := s.pods[p];
      Create(s, p, params) ==
        s.(pods := s.pods[p := Pod(PodState.Created, x.address, params, Some(|s.routes|), x.killer)],
           routes := s.routes + [Pending])
  {
    hide SameParams;
  }
}

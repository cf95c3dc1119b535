/**
  * The runtime of a work node as the object whose methods update the pod map, the id counter and
  * the killer cells in place. Each method is one atomic part of a call; what it does to the node
  * is the step of the same name in `Lifecycle`, and the agreements of `Custody` survive it
  * whatever other parts run in between.
  */
module WorkRuntimes {
  import opened Prelude
  import opened Lifecycle
  import opened Custody
  import opened CustodyKept

  lemma RunningArmed(s: Node, p: PodId)
    requires Core(s) && p in s.pods && s.pods[p].state.Running?
    ensures IsArmed(s, s.pods[p].killer)
  {
    assert PodOk(s, p, s.pods[p]);
  }

  class WorkRuntime {
    var pods: map<PodId, Pod>
    var nextPod: PodId
    var calls: map<CallId, Call>
    var servers: seq<Server>
    var armed: set<ServerId>
    var listening: set<ServerId>
    var taken: map<ServerId, Taker>
    var routes: seq<RoutesStatus>
    var leased: set<Address>
    var addressOf: map<PodId, Address>

    function View(): Node
      reads this
    {
      Node(pods, nextPod, calls, servers, armed, listening, taken, routes, leased, addressOf)
    }

    ghost predicate Valid()
      reads this
    {
      Core(View())
    }

    constructor ()
      ensures View() == START && Valid()
    {
      pods, nextPod, calls, servers := map[], 0, map[], [];
      armed, listening, taken := {}, {}, map[];
      routes, leased, addressOf := [], {}, map[];
    }

    // -------------------------------------------------------------------------------------
    // init_pod
    // -------------------------------------------------------------------------------------

    method InitPod(c: CallId)
      requires Valid() && c !in calls
      modifies this
      ensures Valid() && View() == BeginInit(old(View()), c)
    {
      hide Core;
      BeginInitCore(View(), c);
      calls := calls[c := InitAwaiting(nextPod)];
      nextPod := nextPod + 1;
    }

    method ObtainAddress(c: CallId, given: Option<Address>) returns (reply: Reply)
      requires Valid() && c in calls && calls[c].InitAwaiting?
      requires given.Some? ==> given.value !in leased
      modifies this
      ensures Valid() && View() == Lease(old(View()), c, given)
      ensures reply == ReplyTo(old(View()), Step.ObtainAddress(c, given))
    {
      hide Core;
      LeaseCore(View(), c, given);
      match given
      case None =>
        calls := calls - {c};
        reply := Fails(AddressRefused);
      case Some(a) =>
        leased := leased + {a};
        calls := calls[c := InitAddressed(calls[c].pod, a)];
        reply := Continues;
    }

    /** The insertion cannot collide. */
    method InsertPod(c: CallId) returns (reply: Reply)
      requires Valid() && c in calls && calls[c].InitAddressed?
      modifies this
      ensures Valid() && View() == Insert(old(View()), c)
      ensures reply == Succeeds == ReplyTo(old(View()), Step.InsertPod(c))
      ensures old(calls[c].pod) in pods
      ensures pods[old(calls[c].pod)] ==
              Pod(Initiated, old(calls[c].address), Params(None, map[], map[], map[], None), None, None)
    {
      hide Core;
      InsertCore(View(), c);
      var p, a := calls[c].pod, calls[c].address;
      reply := if p in pods then Fails(IdCollision) else Succeeds;
      if p !in pods {
        pods := pods[p := NewPod(a)];
        addressOf := addressOf[p := a];
      }
      calls := calls - {c};
    }

    // -------------------------------------------------------------------------------------
    // create_container
    // -------------------------------------------------------------------------------------

    method CreateContainer(p: PodId, params: Params) returns (reply: Reply)
      requires Valid()
      modifies this
      ensures Valid() && View() == Create(old(View()), p, params) && reply == CreateReply(old(View()), p, params)
    {
      hide Core;
      CreateCore(View(), p, params);
      if p !in pods {
        return Fails(PodNotFound);
      }
      var pod := pods[p];
      var reinitialize := false;
      match pod.state {
        case Stopped => return Fails(BadPriorState(Stopped));
        case Killed => return Fails(BadPriorState(Killed));
        case Initiated => reinitialize := true;
        case Removed => reinitialize := true;
        case _ =>
          if !SameParams(pod.params, params) {
            return Fails(DifferentParams);
          }
          reinitialize := RoutesUnusable(View(), pod.routes) && LaterAttempt(pod.params, params);
      }
      pod := pod.(state := Created, params := params);
      if reinitialize {
        pod := pod.(routes := Some(|routes|));
        routes := routes + [Pending];
      }
      pods := pods[p := pod];
      reply := Succeeds;
    }

    // -------------------------------------------------------------------------------------
    // start_container
    // -------------------------------------------------------------------------------------

    method StartContainerWithoutWait(c: CallId, p: PodId, awaited: Option<RoutesId>) returns (reply: Reply)
      requires Valid()
      modifies this
      ensures Valid() && View() == TryStart(old(View()), c, p, awaited) && reply == StartReply(old(View()), p, awaited)
    {
      hide Core;
      TryStartCore(View(), c, p, awaited);
      reply := Continues;
      if p !in pods {
        reply := Fails(PodNotFound);
      } else {
        var pod := pods[p];
        match pod.state {
          case Starting => reply := Succeeds;
          case Running => reply := Succeeds;
          case Stopped => reply := Fails(RestartUnsupported);
          case Created =>
            if pod.routes.None? || pod.routes.value >= |routes| {
              reply := Fails(RoutesMissing);
            } else if routes[pod.routes.value].Failed? {
              reply := Fails(RoutesFailed);
            } else if routes[pod.routes.value].Ready? {
              pod := pod.(state := Starting);
              pods := pods[p := pod];
              calls := calls[c := StartBinding(p, pod)];
            } else if awaited.None? {
              calls := calls[c := StartAwaiting(p, pod.routes.value)];
            } else {
              reply := Fails(RoutesJuggled);
            }
          case _ => reply := Fails(BadPriorState(pod.state));
        }
      }
      if reply != Continues { calls := calls - {c}; }
    }

    method Bind(c: CallId, bound: bool)
      requires Valid() && c in calls && calls[c].StartBinding?
      requires bound ==> !Held(View(), calls[c].snapshot.address)
      modifies this
      ensures Valid() && View() == BindOrNot(old(View()), c, bound)
    {
      hide Core;
      BindOrNotCore(View(), c, bound);
      var p, pod := calls[c].pod, calls[c].snapshot;
      if bound {
        var l := |servers|;
        servers := servers + [Server(p, pod.address)];
        armed := armed + {l};
        listening := listening + {l};
        calls := calls[c := StartSpawned(p, pod, l)];
      } else {
        calls := calls[c := StartUnbound(p)];
      }
    }

    method RollBackStart(c: CallId) returns (reply: Reply)
      requires Valid() && c in calls && calls[c].StartUnbound?
      modifies this
      ensures Valid() && View() == RollBack(old(View()), c)
      ensures reply == ReplyTo(old(View()), Step.RollBackStart(c))
    {
      hide Core;
      RollBackCore(View(), c);
      var p := calls[c].pod;
      if p in pods && pods[p].state.Starting? {
        pods := pods[p := pods[p].(state := Created)];
      }
      calls := calls - {c};
      reply := Fails(BindFailed);
    }

    /** Publishes the server, or finds that the start was overtaken. */
    method CommitStart(c: CallId) returns (reply: Reply)
      requires Valid() && c in calls && calls[c].StartSpawned?
      modifies this
      ensures Valid() && View() == Commit(old(View()), c) && reply == ReplyTo(old(View()), Step.CommitStart(c))
      ensures reply == Succeeds ==> old(calls[c].pod) in pods && pods[old(calls[c].pod)].state.Running?
      ensures reply == Succeeds ==> pods[old(calls[c].pod)].killer == Some(old(calls[c].server))
      ensures reply != Succeeds ==> reply == Continues && c in calls && calls[c].StartAborting? && pods == old(pods)
    {
      hide Core;
      CommitCore(View(), c);
      var k := calls[c];
      if k.pod in pods && pods[k.pod].state.Starting? {
        pods := pods[k.pod := k.snapshot.(state := Running, killer := Some(k.server))];
        calls := calls - {c};
        reply := Succeeds;
      } else {
        calls := calls[c := StartAborting(k.pod, k.server)];
        reply := Continues;
      }
    }

    /** `SingleUse::take`: the killer, if it is still in its cell. */
    method Take(killer: Option<ServerId>, taker: Taker) returns (l: Option<ServerId>)
      modifies this`armed, this`taken
      ensures l == if IsArmed(old(View()), killer) then killer else None
      ensures l.Some? ==> View() == Disarm(old(View()), l.value, taker)
      ensures l.None? ==> View() == old(View())
    {
      l := None;
      if killer.Some? && killer.value in armed {
        armed := armed - {killer.value};
        taken := taken[killer.value := taker];
        l := killer;
      }
    }

    method AbortServer(c: CallId) returns (reply: Reply)
      requires Valid() && c in calls && calls[c].StartAborting?
      modifies this
      ensures Valid() && View() == Abort(old(View()), c) && reply == ReplyTo(old(View()), Step.AbortServer(c))
      ensures old(calls[c].server) !in listening
    {
      AbortCore(View(), c);
      assert CallOk(View(), calls[c]);
      var l := calls[c].server;
      var killer := Take(Some(l), ByStart);
      if killer.Some? { listening := listening - {l}; }
      calls := calls - {c};
      reply := Fails(Overtaken);
    }

    // -------------------------------------------------------------------------------------
    // stop_container
    // -------------------------------------------------------------------------------------

    method StopContainerWithoutWait(c: CallId, p: PodId) returns (reply: Reply)
      requires Valid() && c !in calls
      modifies this
      ensures Valid() && View() == Stop(old(View()), c, p) && reply == StopReply(old(View()), p)
    {
      hide Core;
      StopCore(View(), c, p);
      if p !in pods {
        return Fails(PodNotFound);
      }
      var pod := pods[p];
      match pod.state {
        case Starting =>
          pods := pods[p := pod.(state := Stopped)];
          reply := Succeeds;
        case Running =>
          pods := pods[p := pod.(state := Stopped)];
          calls := calls[c := StopTaking(p, pod.killer)];
          reply := Continues;
        case Stopped => reply := Succeeds;
        case _ => reply := Fails(BadPriorState(pod.state));
      }
    }

    method TakeToStop(c: CallId) returns (reply: Reply)
      requires Valid() && c in calls && calls[c].StopTaking?
      modifies this
      ensures Valid() && View() == TakeForStop(old(View()), c)
      ensures reply == ReplyTo(old(View()), Step.TakeToStop(c))
    {
      hide Core;
      TakeForStopCore(View(), c);
      var p := calls[c].pod;
      var killer := Take(calls[c].killer, ByStop);
      if killer.Some? {
        calls := calls[c := StopKilling(p, killer.value)];
        reply := Continues;
      } else {
        calls := calls - {c};
        reply := Fails(Unkillable);
      }
    }

    method FinishStop(c: CallId) returns (reply: Reply)
      requires Valid() && c in calls && calls[c].StopKilling?
      modifies this
      ensures Valid() && View() == EndStop(old(View()), c)
      ensures reply == Succeeds == ReplyTo(old(View()), Step.FinishStop(c))
    {
      hide Core;
      EndStopCore(View(), c);
      listening := listening - {calls[c].server};
      calls := calls - {c};
      reply := Succeeds;
    }

    // -------------------------------------------------------------------------------------
    // remove_container, kill_pod, delete_pod
    // -------------------------------------------------------------------------------------

    method RemoveContainer(p: PodId) returns (reply: Reply)
      requires Valid()
      modifies this
      ensures Valid() && View() == Remove(old(View()), p) && reply == RemoveReply(old(View()), p)
    {
      hide Core;
      RemoveCore(View(), p);
      if p !in pods {
        return Fails(PodNotFound);
      }
      match pods[p].state {
        case Stopped =>
          pods := pods[p := pods[p].(state := Removed)];
          reply := Succeeds;
        case Removed => reply := Succeeds;
        case _ => reply := Fails(BadPriorState(pods[p].state));
      }
    }

    method KillPodWithoutWait(c: CallId, p: PodId) returns (reply: Reply)
      requires Valid() && c !in calls
      modifies this
      ensures Valid() && View() == Kill(old(View()), c, p) && reply == KillReply(old(View()), p)
    {
      hide Core;
      KillCore(View(), c, p);
      if p !in pods {
        return Fails(PodNotFound);
      }
      if pods[p].state.Killed? {
        return Succeeds;
      }
      pods := pods[p := pods[p].(state := Killed)];
      calls := calls[c := KillTaking(p, pods[p].address, pods[p].killer)];
      reply := Continues;
    }

    method TakeToKill(c: CallId)
      requires Valid() && c in calls && calls[c].KillTaking?
      modifies this
      ensures Valid() && View() == TakeForKill(old(View()), c)
    {
      hide Core;
      TakeForKillCore(View(), c);
      var p, a := calls[c].pod, calls[c].address;
      var killer := Take(calls[c].killer, ByKill);
      calls := calls[c := if killer.Some? then KillKilling(p, a, killer.value) else KillDeactivating(p, a)];
    }

    method FinishKill(c: CallId)
      requires Valid() && c in calls && calls[c].KillKilling?
      modifies this
      ensures Valid() && View() == EndKill(old(View()), c)
    {
      hide Core;
      EndKillCore(View(), c);
      listening := listening - {calls[c].server};
      calls := calls[c := KillDeactivating(calls[c].pod, calls[c].address)];
    }

    method Deactivate(c: CallId, done: bool) returns (reply: Reply)
      requires Valid() && c in calls && calls[c].KillDeactivating?
      modifies this
      ensures Valid() && View() == Quiet(old(View()), c, done)
      ensures reply == ReplyTo(old(View()), Step.Deactivate(c, done))
    {
      hide Core;
      QuietCore(View(), c, done);
      if done {
        calls := calls[c := KillDeallocating(calls[c].pod, calls[c].address)];
        reply := Continues;
      } else {
        calls := calls - {c};
        reply := Fails(AddressStuck);
      }
    }

    method Deallocate(c: CallId, done: bool) returns (reply: Reply)
      requires Valid() && c in calls && calls[c].KillDeallocating?
      modifies this
      ensures Valid() && View() == Release(old(View()), c, done)
      ensures reply == ReplyTo(old(View()), Step.Deallocate(c, done))
    {
      hide Core;
      ReleaseCore(View(), c, done);
      reply := Fails(AddressStuck);
      if done {
        leased := leased - {calls[c].address};
        reply := Succeeds;
      }
      calls := calls - {c};
    }

    method DeletePod(p: PodId) returns (reply: Reply)
      requires Valid()
      modifies this
      ensures Valid() && View() == Delete(old(View()), p) && reply == DeleteReply(old(View()), p)
    {
      hide Core;
      DeleteCore(View(), p);
      if p !in pods {
        return Fails(PodNotFound);
      }
      if !pods[p].state.Killed? {
        return Fails(BadPriorState(pods[p].state));
      }
      pods := pods - {p};
      reply := Succeeds;
    }

    // -------------------------------------------------------------------------------------
    // Whole calls, when nothing comes between their parts
    // -------------------------------------------------------------------------------------

    /** Stopping a running pod silences its server and leaves its cell empty. */
    method StopContainer(c: CallId, p: PodId) returns (reply: Reply)
      requires Valid() && c !in calls
      modifies this
      ensures Valid() && calls == old(calls)
      ensures old(p in pods && pods[p].state.Running?) ==>
                && reply == Succeeds && pods == old(pods[p := pods[p].(state := Stopped)])
                && old(pods[p].killer).Some? && listening == old(listening) - {old(pods[p].killer).value}
                && armed == old(armed) - {old(pods[p].killer).value}
      ensures !old(p in pods && pods[p].state.Running?) ==>
                listening == old(listening) && armed == old(armed) && reply == StopReply(old(View()), p)
    {
      hide Core;
      if p in pods && pods[p].state.Running? { RunningArmed(View(), p); }
      reply := StopContainerWithoutWait(c, p);
      if reply == Continues {
        assert calls[c] == StopTaking(p, pods[p].killer);
        reply := TakeToStop(c);
        reply := FinishStop(c);
      }
    }

    method GiveUpAddress(c: CallId, deactivated: bool, deallocated: bool) returns (reply: Reply)
      requires Valid() && c in calls && calls[c].KillDeactivating?
      modifies this
      ensures Valid() && calls == old(calls) - {c}
      ensures pods == old(pods) && listening == old(listening) && armed == old(armed)
      ensures leased == if deactivated && deallocated then old(leased) - {old(calls[c].address)} else old(leased)
      ensures reply == if deactivated && deallocated then Succeeds else Fails(AddressStuck)
    {
      hide Core;
      reply := Deactivate(c, deactivated);
      if deactivated { reply := Deallocate(c, deallocated); }
    }

    /** Killing a pod silences its server before its address is given up. */
    method KillPod(c: CallId, p: PodId, deactivated: bool, deallocated: bool) returns (reply: Reply)
      requires Valid() && c !in calls
      modifies this
      ensures Valid() && calls == old(calls)
      ensures old(p in pods && !pods[p].state.Killed?) ==>
                && pods == old(pods[p := pods[p].(state := Killed)])
                && (IsArmed(old(View()), old(pods[p].killer)) ==>
                      old(pods[p].killer).value !in listening && old(pods[p].killer).value !in armed)
                && leased == (if deactivated && deallocated then old(leased) - {old(pods[p].address)} else old(leased))
                && reply == (if deactivated && deallocated then Succeeds else Fails(AddressStuck))
      ensures !old(p in pods && !pods[p].state.Killed?) ==>
                View() == old(View()) && reply == KillReply(old(View()), p)
    {
      hide Core;
      reply := KillPodWithoutWait(c, p);
      if reply == Continues {
        TakeToKill(c);
        if calls[c].KillKilling? { FinishKill(c); }
        reply := GiveUpAddress(c, deactivated, deallocated);
      }
    }
  }
}

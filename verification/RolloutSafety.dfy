/**
 * Safety of a staged rollout over every interleaving of ticks, node reports, gateway answers,
 * cancellations, new rollouts and commit hooks that settle late, well or badly.
 */
module RolloutSafety {
  import opened Chains
  import opened Wrappers
  import opened Rollout

  // ---- what the log promises ---------------------------------------------------------

  predicate Dispatch(ev: Event) { ev.OtaSent? || ev.ImagePushed? }

  /** What must have happened, and must not have, before a dispatch. */
  ghost predicate Justified(past: seq<Event>, ev: Event)
    requires Dispatch(ev)
  {
    Started(ev.rollout) in past &&
    Ended(ev.rollout) !in past &&
    (forall id: nat :: Started(id) in past ==> id <= ev.rollout) &&
    (ev.index > 0 ==> NodeConfirmed(ev.rollout, 0) in past) &&
    (ev.OtaSent? ==> NotAsked(past, ev.rollout, ev.index))
  }

  ghost predicate NotAsked(log: seq<Event>, id: nat, i: nat) {
    forall port :: OtaSent(id, i, port) !in log
  }

  ghost predicate LogSafe(log: seq<Event>) {
    forall j :: 0 <= j < |log| && Dispatch(log[j]) ==> Justified(log[..j], log[j])
  }

  // ---- the invariant -------------------------------------------------------------------

  ghost predicate NodeSafe(v: View, i: nat, log: seq<Event>)
    requires i < |v.nodes|
  {
    var n := v.nodes[i];
    (n.state.Queued? ==> n.startedAt.None? && NotAsked(log, v.id, i)) &&
    (!Terminal(n.state) && !n.state.Queued? ==> n.startedAt.Some?) &&
    (n.state.Confirmed? ==> NodeConfirmed(v.id, i) in log) &&
    (n.state.Skipped? ==> Over(v.stage)) &&
    (v.stage.Pilot? && i > 0 ==> n.startedAt.None?)
  }

  ghost predicate ViewSafe(v: View, log: seq<Event>, t: Timings) {
    |v.nodes| > 0 && Started(v.id) in log &&
    (forall i: nat :: i < |v.nodes| ==> NodeSafe(v, i, log)) &&
    (!Over(v.stage) ==> Ended(v.id) !in log) &&
    (v.stage.Rest? ==> v.nodes[0].state.Confirmed? && (Count(v.nodes) <= t.batch || Count(v.nodes) == 0))
  }

  ghost predicate TaskSafe(s: State, k: Task) {
    k.rollout < s.nextId &&
    (!k.SendReply? ==> (k.rollout, k.index) in s.launching) &&
    (!k.SendReply? && k.index > 0 ==> NodeConfirmed(k.rollout, 0) in s.log) &&
    (k.RequestHook? ==> (k.rollout, k.index) in s.awaiting && NotAsked(s.log, k.rollout, k.index)) &&
    (!k.ImageHook? ==> !CanDispatch(s, k.rollout, k.index, Queued))
  }

  ghost predicate OneEach(tasks: set<Task>) {
    forall a, b :: a in tasks && b in tasks && a.rollout == b.rollout && a.index == b.index ==> a == b
  }

  ghost predicate Inv(s: State, t: Timings) {
    LogSafe(s.log) && OneEach(s.tasks) &&
    (forall k :: k in s.tasks ==> TaskSafe(s, k)) &&
    (forall id: nat :: Started(id) in s.log ==> id < s.nextId) &&
    (forall id: nat :: Ended(id) in s.log ==> id < s.nextId) &&
    (forall id: nat, i: nat, port :: OtaSent(id, i, port) in s.log ==> id < s.nextId) &&
    (s.active.Some? ==> s.active.value.id + 1 == s.nextId && ViewSafe(s.active.value, s.log, t))
  }

  // ---- log and count lemmas ----------------------------------------------------------

  lemma LogSnoc(log: seq<Event>, ev: Event)
    requires LogSafe(log) && (Dispatch(ev) ==> Justified(log, ev))
    ensures LogSafe(log + [ev])
  {
    var next := log + [ev];
    forall j | 0 <= j < |next| && Dispatch(next[j]) ensures Justified(next[..j], next[j]) {
      if j < |log| { assert next[..j] == log[..j] && next[j] == log[j]; } else { assert next[..j] == log; }
    }
  }

  lemma {:induction false} CountUpdate(nodes: seq<Node>, i: nat, n: Node)
    requires i < |nodes|
    ensures Count(nodes[i := n]) + (if InFlight(nodes[i]) then 1 else 0) == Count(nodes) +
      (if InFlight(n) then 1 else 0)
  {
    var last := |nodes| - 1;
    if i < last {
      CountUpdate(nodes[..last], i, n);
      assert nodes[i := n][..last] == nodes[..last][i := n];
    } else {
      assert nodes[i := n][..last] == nodes[..last];
    }
  }

  lemma {:induction false} CountMonotone(a: seq<Node>, b: seq<Node>)
    requires |a| == |b| && forall i :: 0 <= i < |a| && InFlight(b[i]) ==> InFlight(a[i])
    ensures Count(b) <= Count(a)
  {
    if a != [] { CountMonotone(a[..|a| - 1], b[..|b| - 1]); }
  }

  /** Only the first node can be in flight when no other has started. */
  lemma {:induction false} CountPilot(nodes: seq<Node>)
    requires forall i :: 0 < i < |nodes| ==> nodes[i].startedAt.None?
    ensures Count(nodes) == if |nodes| > 0 && InFlight(nodes[0]) then 1 else 0
  {
    if |nodes| > 1 { CountPilot(nodes[..|nodes| - 1]); }
  }

  // ---- small steps that keep the invariant ----------------------------------------------

  /** Nodes may only go from unfinished to failed, or, once the rollout is over, be skipped. */
  ghost predicate Closes(v: View, nodes: seq<Node>) {
    |nodes| == |v.nodes| &&
    forall i :: 0 <= i < |nodes| ==>
      nodes[i] == v.nodes[i] ||
      (nodes[i].startedAt == v.nodes[i].startedAt &&
       if Over(v.stage) then nodes[i].state.Failed? || nodes[i].state.Skipped?
       else !Terminal(v.nodes[i].state) && nodes[i].state.Failed?)
  }

  lemma CloseKeeps(s: State, nodes: seq<Node>, t: Timings)
    requires Inv(s, t) && s.active.Some? && Closes(s.active.value, nodes)
    ensures Inv(PutNodes(s, nodes), t)
  {
    var u := PutNodes(s, nodes);
    CountMonotone(s.active.value.nodes, nodes);
    forall i: nat | i < |nodes| ensures NodeSafe(u.active.value, i, u.log) {
      assert NodeSafe(s.active.value, i, s.log);
    }
    forall k | k in u.tasks ensures TaskSafe(u, k) { assert TaskSafe(s, k); }
  }

  lemma FailKeeps(s: State, i: nat, now: int, t: Timings)
    requires Inv(s, t) && Running(s) && i < |s.active.value.nodes| && !Terminal(s.active.value.nodes[i].state)
    ensures Inv(Fail(s, i, now), t)
  {
    CloseKeeps(s, Fail(s, i, now).active.value.nodes, t);
  }

  /** A log entry that is neither a dispatch, a start nor an end. */
  lemma LogKeeps(s: State, ev: Event, t: Timings)
    requires Inv(s, t) && (Dispatch(ev) ==> Justified(s.log, ev))
    requires ev.ImagePushed? || ev.NodeConfirmed? ||
             (ev.Ended? && s.active.Some? && ev.rollout == s.active.value.id && Over(s.active.value.stage))
    ensures Inv(Log(s, ev), t)
  {
    var u := Log(s, ev);
    LogSnoc(s.log, ev);
    if s.active.Some? {
      forall i: nat | i < |s.active.value.nodes| ensures NodeSafe(u.active.value, i, u.log) {
        assert NodeSafe(s.active.value, i, s.log);
      }
    }
    forall k | k in u.tasks ensures TaskSafe(u, k) { assert TaskSafe(s, k); }
  }

  /** Dropping a task, and the claims it held, endangers nothing. */
  lemma DropTaskKeeps(s: State, u: State, task: Task, t: Timings)
    requires Inv(s, t) && task in s.tasks
    requires u == s.(tasks := s.tasks - {task}, launching := u.launching, awaiting := u.awaiting, asked := u.asked)
    requires s.launching - {(task.rollout, task.index)} <= u.launching
    requires s.awaiting - {(task.rollout, task.index)} <= u.awaiting
    ensures Inv(u, t)
  {
    forall k | k in u.tasks ensures TaskSafe(u, k) { assert TaskSafe(s, k); }
  }

  ghost predicate MayDispatch(s: State, i: nat) {
    Running(s) && i < |s.active.value.nodes| && (i == 0 || NodeConfirmed(s.active.value.id, 0) in s.log)
  }

  lemma PushKeeps(s: State, i: nat, g: int, env: Env, t: Timings)
    requires Inv(s, t) && MayDispatch(s, i) && !Terminal(s.active.value.nodes[i].state)
    ensures Inv(Push(s, i, g, env), t)
  {
    var ev := ImagePushed(s.active.value.id, i, g);
    LogKeeps(s, ev, t);
    if g !in env.connected { FailKeeps(Log(s, ev), i, env.now, t); }
  }

  /** sendOta, for a node in state `sending` that has not been asked before. */
  lemma SendKeeps(s: State, i: nat, port: int, t: Timings)
    requires Inv(s, t) && MayDispatch(s, i) && s.active.value.nodes[i].state.Sending?
    requires NotAsked(s.log, s.active.value.id, i)
    requires forall k :: k in s.tasks ==> !(k.rollout == s.active.value.id && k.index == i)
    ensures Inv(Send(s, s.active.value.id, i, port), t)
  {
    var id := s.active.value.id;
    var u := Send(s, id, i, port);
    LogSnoc(s.log, OtaSent(id, i, port));
    forall k: nat | k < |s.active.value.nodes| ensures NodeSafe(u.active.value, k, u.log) {
      assert NodeSafe(s.active.value, k, s.log);
    }
    forall k | k in u.tasks ensures TaskSafe(u, k) {
      if k in s.tasks { assert TaskSafe(s, k); }
    }
  }

  /** From queued to sending: the node is now in flight. */
  lemma StartSendingKeeps(s: State, i: nat, now: int, t: Timings)
    requires Inv(s, t) && MayDispatch(s, i) && s.active.value.nodes[i].state.Queued?
    requires i == 0 ==> s.active.value.stage.Pilot?
    requires s.active.value.stage.Rest? ==> Count(s.active.value.nodes) < t.batch
    requires i > 0 ==> s.active.value.stage.Rest?
    ensures Inv(PutNode(s, i, Set(s.active.value.nodes[i], Sending, now).(startedAt := Some(now))), t)
    ensures
      var u := PutNode(s, i, Set(s.active.value.nodes[i], Sending, now).(startedAt := Some(now)));
      Count(u.active.value.nodes) == Count(s.active.value.nodes) + 1
  {
    var v := s.active.value;
    var n := Set(v.nodes[i], Sending, now).(startedAt := Some(now));
    var u := PutNode(s, i, n);
    assert NodeSafe(v, i, s.log);
    CountUpdate(v.nodes, i, n);
    forall k: nat | k < |v.nodes| ensures NodeSafe(u.active.value, k, u.log) { assert NodeSafe(v, k, s.log); }
    forall k | k in u.tasks ensures TaskSafe(u, k) { assert TaskSafe(s, k); }
  }

  // ---- dispatching ---------------------------------------------------------------------

  /** Whose turn it is: the pilot alone, then any other node while there is room. */
  ghost predicate Turn(s: State, i: nat, t: Timings) {
    MayDispatch(s, i) && s.active.value.nodes[i].state.Queued? &&
    (if i == 0 then s.active.value.stage.Pilot?
     else s.active.value.stage.Rest? && Count(s.active.value.nodes) < t.batch)
  }

  ghost predicate Idle(s: State, id: nat, i: nat) {
    forall k :: k in s.tasks ==> !(k.rollout == id && k.index == i)
  }

  ghost predicate Counted(s: State, u: State, i: nat)
    requires SameView(s, u) && i < |s.active.value.nodes|
  {
    Count(u.active.value.nodes) ==
    Count(s.active.value.nodes) + (if u.active.value.nodes[i].startedAt.Some? then 1 else 0)
  }

  lemma RequestKeeps(s: State, i: nat, port: int, env: Env, t: Timings)
    requires Inv(s, t) && Turn(s, i, t) && Idle(s, s.active.value.id, i)
    ensures var r := Request(s, i, port, env.now);
      var u := if s.hook then r.(launching := r.launching + {(s.active.value.id, i)}) else r;
      Inv(u, t) && Counted(s, u, i)
  {
    var v := s.active.value;
    var a := PutNode(s, i, Set(v.nodes[i], Sending, env.now).(startedAt := Some(env.now)));
    assert NodeSafe(v, i, s.log);
    StartSendingKeeps(s, i, env.now, t);
    if s.hook {
      var r := Request(s, i, port, env.now);
      var u := r.(launching := r.launching + {(v.id, i)});
      forall k | k in u.tasks ensures TaskSafe(u, k) {
        if k in a.tasks { assert TaskSafe(a, k); }
      }
    } else {
      SendKeeps(a, i, port, t);
    }
  }

  lemma ImageStepKeeps(s: State, i: nat, g: int, t: Timings, env: Env)
    requires Inv(s, t) && Turn(s, i, t) && Idle(s, s.active.value.id, i)
    requires s.active.value.nodes[i].gateway == Some(g) && !s.active.value.nodes[i].transport.Direct? && env.image
    requires g !in s.ready
    ensures var (r, waiting) := BeginOnce(s, i, t, env);
      var u := if s.hook && waiting then r.(launching := r.launching + {(s.active.value.id, i)}) else r;
      SameView(s, u) && Inv(u, t) && Counted(s, u, i)
  {
    var v := s.active.value;
    var (r, waiting) := BeginOnce(s, i, t, env);
    assert NodeSafe(v, i, s.log);
    CountUpdate(v.nodes, i, Set(v.nodes[i], Failed, env.now));
    if g !in s.asked {
      var a := s.(asked := s.asked[g := env.now]);
      assert Inv(a, t) by { forall k | k in a.tasks ensures TaskSafe(a, k) { assert TaskSafe(s, k); } }
      if s.hook {
        var u := r.(launching := r.launching + {(v.id, i)});
        forall k | k in u.tasks ensures TaskSafe(u, k) {
          if k in s.tasks { assert TaskSafe(s, k); }
        }
      } else {
        PushKeeps(a, i, g, env, t);
      }
    } else if env.now - s.asked[g] > t.imageMs {
      FailKeeps(s, i, env.now, t);
    }
  }

  lemma BeginKeeps(s: State, i: nat, t: Timings, env: Env)
    requires Inv(s, t) && Turn(s, i, t)
    ensures Inv(Begin(s, i, t, env), t) && Counted(s, Begin(s, i, t, env), i)
  {
    var v := s.active.value;
    assert NodeSafe(v, i, s.log);
    var u := Begin(s, i, t, env);
    if (v.id, i) !in s.launching {
      assert Idle(s, v.id, i) by {
        forall k | k in s.tasks ensures !(k.rollout == v.id && k.index == i) { assert TaskSafe(s, k); }
      }
      assert Inv(u, t) && Counted(s, u, i) by {
        if !env.image {
          FailKeeps(s, i, env.now, t);
          CountUpdate(v.nodes, i, Set(v.nodes[i], Failed, env.now));
        } else if v.nodes[i].transport.Direct? {
          RequestKeeps(s, i, 443, env, t);
        } else if v.nodes[i].gateway.None? {
          RequestKeeps(s, i, t.directPort, env, t);
        } else if v.nodes[i].gateway.value in s.ready {
          RequestKeeps(s, i, s.ready[v.nodes[i].gateway.value], env, t);
        } else {
          ImageStepKeeps(s, i, v.nodes[i].gateway.value, t, env);
        }
      }
    }
  }

  lemma {:induction false} LaunchKeeps(s: State, i: nat, inFlight: int, t: Timings, env: Env)
    requires Inv(s, t) && s.active.Some? && s.active.value.stage.Rest? && 0 < i <= |s.active.value.nodes|
    requires inFlight == Count(s.active.value.nodes)
    ensures Inv(Launch(s, i, inFlight, t, env), t)
    decreases |s.active.value.nodes| - i
  {
    if i < |s.active.value.nodes| && inFlight < t.batch {
      if s.active.value.nodes[i].state.Queued? {
        assert NodeSafe(s.active.value, 0, s.log);
        assert NodeSafe(s.active.value, i, s.log);
        BeginKeeps(s, i, t, env);
        var u := Begin(s, i, t, env);
        LaunchKeeps(u, i + 1, if u.active.value.nodes[i].startedAt.Some? then inFlight + 1 else inFlight, t, env);
      } else {
        LaunchKeeps(s, i + 1, inFlight, t, env);
      }
    }
  }

  // ---- tick ----------------------------------------------------------------------------

  /** Ending a rollout: its state may change with it, since no more is asked of anyone. */
  lemma EndKeeps(s: State, nodes: seq<Node>, st: Stage, t: Timings)
    requires Inv(s, t) && Running(s) && Over(st)
    requires Closes(s.active.value.(stage := st), nodes)
    ensures Inv(Log(PutStage(PutNodes(s, nodes), st), Ended(s.active.value.id)), t)
  {
    var v := s.active.value;
    var a := PutStage(s, st);
    forall i: nat | i < |v.nodes| ensures NodeSafe(a.active.value, i, s.log) { assert NodeSafe(v, i, s.log); }
    forall k | k in a.tasks ensures TaskSafe(a, k) { assert TaskSafe(s, k); }
    CloseKeeps(a, nodes, t);
    LogKeeps(PutNodes(a, nodes), Ended(v.id), t);
  }

  /** The pilot confirmed: the rest may start. */
  lemma AdvanceKeeps(s: State, t: Timings)
    requires Inv(s, t) && s.active.Some? && s.active.value.stage.Pilot? && s.active.value.nodes[0].state.Confirmed?
    ensures Inv(PutStage(s, Rest), t)
  {
    var u := PutStage(s, Rest);
    var v := s.active.value;
    forall i: nat | i < |v.nodes| ensures NodeSafe(u.active.value, i, s.log) && (i > 0 ==> v.nodes[i].startedAt.None?) {
      assert NodeSafe(v, i, s.log);
    }
    CountPilot(v.nodes);
    forall k | k in u.tasks ensures TaskSafe(u, k) { assert TaskSafe(s, k); }
  }

  /** What a tick leaves before its last line: in order, or done with every node finished. */
  ghost predicate Nearly(s: State, t: Timings) {
    if s.active.Some? && s.active.value.stage.Done?
    then AllTerminal(s.active.value.nodes) && Inv(PutStage(s, Pilot), t)
    else Inv(s, t)
  }

  lemma PilotTurnKeeps(s: State, t: Timings, env: Env)
    requires Inv(s, t) && Running(s)
    ensures Nearly(PilotTurn(s, t, env), t)
  {
    var v := s.active.value;
    assert NodeSafe(v, 0, s.log);
    if v.stage.Pilot? {
      match v.nodes[0].state
      case Queued => BeginKeeps(s, 0, t, env);
      case Confirmed =>
        if |v.nodes| > 1 { AdvanceKeeps(s, t); } else { assert PutStage(PutStage(s, Done), Pilot) == s; }
      case Failed =>
        var nodes := SkipRest(v.nodes, env.now);
        EndKeeps(s, nodes, Stopped, t);
      case _ =>
    }
  }

  lemma ConcludeKeeps(s: State, t: Timings)
    requires Nearly(s, t) && s.active.Some?
    ensures Inv(Conclude(s), t)
  {
    var v := s.active.value;
    if !v.stage.Stopped? && AllTerminal(v.nodes) {
      var a := if v.stage.Done? then PutStage(s, Pilot) else s;
      EndKeeps(a, v.nodes, Done, t);
      assert PutNodes(a, v.nodes) == a;
      assert PutStage(a, Done) == PutStage(s, Done);
    }
  }

  lemma TickKeeps(s: State, t: Timings, env: Env)
    requires Inv(s, t)
    ensures Inv(Tick(s, t, env), t)
  {
    if Running(s) {
      CloseKeeps(s, Expire(s.active.value.nodes, t, env.now), t);
      var a := PutNodes(s, Expire(s.active.value.nodes, t, env.now));
      PilotTurnKeeps(a, t, env);
      var b := PilotTurn(a, t, env);
      if b.active.value.stage.Rest? {
        LaunchKeeps(b, 1, Count(b.active.value.nodes), t, env);
        ConcludeKeeps(Launch(b, 1, Count(b.active.value.nodes), t, env), t);
      } else {
        ConcludeKeeps(b, t);
      }
    }
  }

  // ---- the other entry points --------------------------------------------------------------

  lemma StartKeeps(s: State, build: int, chosen: seq<Node>, deferDispatch: bool, t: Timings, env: Env)
    requires Inv(s, t)
    ensures Inv(Start(s, build, chosen, deferDispatch, t, env), t)
  {
    if !Running(s) && env.image && chosen != [] {
      var u := Start(s, build, chosen, true, t, env);
      LogSnoc(s.log, Started(s.nextId));
      forall i: nat | i < |chosen| ensures NodeSafe(u.active.value, i, u.log) {}
      forall k | k in u.tasks ensures TaskSafe(u, k) { assert TaskSafe(s, k); }
      TickKeeps(u, t, env);
    }
  }

  lemma CancelKeeps(s: State, now: int, t: Timings)
    requires Inv(s, t)
    ensures Inv(Cancel(s, now), t)
  {
    if Running(s) {
      EndKeeps(s, CancelNodes(s.active.value.nodes, s.active.value.id, s.awaiting, now), Stopped, t);
    }
  }

  lemma ImageReadyKeeps(s: State, g: int, build: int, ok: bool, port: int, t: Timings, env: Env)
    requires Inv(s, t)
    ensures Inv(ImageReady(s, g, build, ok, port, t, env), t)
  {
    if Running(s) && s.active.value.build == build {
      if ok {
        var u := s.(ready := s.ready[g := port]);
        forall k | k in u.tasks ensures TaskSafe(u, k) { assert TaskSafe(s, k); }
        TickKeeps(u, t, env);
      } else {
        CloseKeeps(s, FailGateway(s.active.value.nodes, g, env.now), t);
        TickKeeps(PutNodes(s, FailGateway(s.active.value.nodes, g, env.now)), t, env);
      }
    }
  }

  /** Progress of a node that has started never takes it out of its place in line. */
  lemma ProgressKeeps(s: State, i: nat, st: NodeState, now: int, t: Timings)
    requires Inv(s, t) && s.active.Some? && i < |s.active.value.nodes|
    requires s.active.value.nodes[i].startedAt.Some? && !Terminal(s.active.value.nodes[i].state)
    requires !st.Queued? && !st.Skipped? && (st.Confirmed? ==> NodeConfirmed(s.active.value.id, i) in s.log)
    ensures Inv(PutNode(s, i, Set(s.active.value.nodes[i], st, now)), t)
  {
    var v := s.active.value;
    var u := PutNode(s, i, Set(v.nodes[i], st, now));
    CountMonotone(v.nodes, u.active.value.nodes);
    forall k: nat | k < |v.nodes| ensures NodeSafe(u.active.value, k, u.log) { assert NodeSafe(v, k, s.log); }
    forall k | k in u.tasks ensures TaskSafe(u, k) { assert TaskSafe(s, k); }
  }

  lemma OtaStatusKeeps(s: State, uid: int, build: int, r: Report, t: Timings, env: Env)
    requires Inv(s, t)
    ensures Inv(OtaStatus(s, uid, build, r, t, env), t)
  {
    if s.active.Some? {
      var v := s.active.value;
      var i := Find(v.nodes, uid);
      if i < |v.nodes| && !v.stage.Done? && v.nodes[i].startedAt.Some? && !Terminal(v.nodes[i].state) &&
        build == v.build {
        var st := Reported(r);
        if st == Some(Confirmed) {
          LogKeeps(s, NodeConfirmed(v.id, i), t);
          ProgressKeeps(Log(s, NodeConfirmed(v.id, i)), i, Confirmed, env.now, t);
          var u := PutNode(Log(s, NodeConfirmed(v.id, i)), i, Set(v.nodes[i], Confirmed, env.now));
          assert u == Log(PutNode(s, i, Set(v.nodes[i], Confirmed, env.now)), NodeConfirmed(v.id, i));
          TickKeeps(u, t, env);
        } else {
          if st.Some? { ProgressKeeps(s, i, st.value, env.now, t); }
          TickKeeps(if st.Some? then PutNode(s, i, Set(v.nodes[i], st.value, env.now)) else s, t, env);
        }
      }
    }
  }

  lemma ImageHookKeeps(s: State, task: Task, ok: bool, env: Env, t: Timings)
    requires Inv(s, t) && task in s.tasks && task.ImageHook?
    ensures Inv(HookDone(s, task, ok, env), t)
  {
    var id, i, g := task.rollout, task.index, task.gateway;
    assert TaskSafe(s, task);
    var d := s.(tasks := s.tasks - {task}, launching := s.launching - {(id, i)});
    DropTaskKeeps(s, d, task, t);
    if CanDispatch(d, id, i, Queued) {
      if ok { PushKeeps(d, i, g, env, t); } else {
        DropTaskKeeps(s, d.(asked := d.asked - {g}), task, t);
      }
    }
  }

  /** A failed commit hook takes the request back: the node is queued again, unasked. */
  lemma TakeBackKeeps(s: State, i: nat, t: Timings)
    requires Inv(s, t) && Running(s) && i < |s.active.value.nodes| && s.active.value.nodes[i].state.Sending?
    requires NotAsked(s.log, s.active.value.id, i) && Idle(s, s.active.value.id, i)
    ensures Inv(PutNode(s, i, s.active.value.nodes[i].(state := Queued, startedAt := None)), t)
  {
    var v := s.active.value;
    var u := PutNode(s, i, v.nodes[i].(state := Queued, startedAt := None));
    CountMonotone(v.nodes, u.active.value.nodes);
    forall k: nat | k < |v.nodes| ensures NodeSafe(u.active.value, k, u.log) { assert NodeSafe(v, k, s.log); }
    forall k | k in u.tasks ensures TaskSafe(u, k) { assert TaskSafe(s, k); }
  }

  lemma RequestHookKeeps(s: State, task: Task, ok: bool, env: Env, t: Timings)
    requires Inv(s, t) && task in s.tasks && task.RequestHook?
    ensures Inv(HookDone(s, task, ok, env), t)
  {
    var id, i, port := task.rollout, task.index, task.port;
    assert TaskSafe(s, task);
    var d := s.(tasks := s.tasks - {task}, awaiting := s.awaiting - {(id, i)});
    var e := d.(launching := d.launching - {(id, i)});
    DropTaskKeeps(s, d, task, t);
    DropTaskKeeps(s, e, task, t);
    if CanDispatch(d, id, i, Sending) {
      assert Idle(d, id, i);
      if ok { SendKeeps(d, i, port, t); } else { TakeBackKeeps(e, i, t); }
    }
  }

  lemma ReplyKeeps(s: State, task: Task, ok: bool, t: Timings, env: Env)
    requires Inv(s, t) && task in s.tasks && task.SendReply?
    ensures Inv(SendDone(s, task, ok, t, env), t)
  {
    var id, i := task.rollout, task.index;
    var u := s.(tasks := s.tasks - {task}, launching := s.launching - {(id, i)});
    DropTaskKeeps(s, u, task, t);
    if !ok && Current(u, id, i) && !Terminal(u.active.value.nodes[i].state) {
      FailKeeps(u, i, env.now, t);
      TickKeeps(Fail(u, i, env.now), t, env);
    }
  }

  // ---- the theorems ------------------------------------------------------------------------

  lemma StepKeeps(s: State, a: Action, t: Timings)
    requires Inv(s, t) && Enabled(s, a)
    ensures Inv(Step(s, a, t), t)
  {
    match a
    case DoStart(build, chosen, deferDispatch, env) => StartKeeps(s, build, chosen, deferDispatch, t, env);
    case DoTick(env) => TickKeeps(s, t, env);
    case DoCancel(now) => CancelKeeps(s, now, t);
    case DoImageReady(g, build, ok, port, env) => ImageReadyKeeps(s, g, build, ok, port, t, env);
    case DoOtaStatus(uid, build, r, env) => OtaStatusKeeps(s, uid, build, r, t, env);
    case DoHook(task, ok, env) =>
      if task.ImageHook? { ImageHookKeeps(s, task, ok, env, t); } else { RequestHookKeeps(s, task, ok, env, t); }
    case DoReply(task, ok, env) => ReplyKeeps(s, task, ok, t, env);
    case SetHook(h) =>
      var u := s.(hook := h);
      forall k | k in u.tasks ensures TaskSafe(u, k) { assert TaskSafe(s, k); }
  }

  /** The action is possible in s and leads to u. */
  function Leading(t: Timings): (State, Action, State) -> bool {
    (s: State, a: Action, u: State) => Enabled(s, a) && u == Step(s, a, t)
  }

  lemma StepLeads(s: State, a: Action, t: Timings) returns (u: State)
    requires Enabled(s, a)
    ensures u == Step(s, a, t) && Leading(t)(s, a, u)
  {
    u := Step(s, a, t);
  }

  lemma ChainIsRun(states: seq<State>, actions: seq<Action>, t: Timings)
    requires Chain(Leading(t), states, actions) && states[0] == Fresh
    ensures Run(states, actions, t)
  {
    forall i | 0 <= i < |actions|
      ensures Enabled(states[i], actions[i]) && states[i + 1] == Step(states[i], actions[i], t)
    {
      assert Leading(t)(states[i], actions[i], states[i + 1]);
    }
  }

  lemma {:induction false} Reachable(states: seq<State>, actions: seq<Action>, t: Timings, i: nat)
    requires Run(states, actions, t) && i < |states|
    ensures Inv(states[i], t)
  {
    if i > 0 {
      Reachable(states, actions, t, i - 1);
      StepKeeps(states[i - 1], actions[i - 1], t);
    }
  }

  /**
   * Over every run: no node but the first is asked, and no image pushed for one, before the
   * first node of that rollout confirmed; nothing is dispatched for a rollout that is done,
   * stopped or replaced; and no node is asked twice in one rollout.
   */
  lemma DispatchesAreJustified(states: seq<State>, actions: seq<Action>, t: Timings, j: nat)
    requires Run(states, actions, t)
    requires j < |states[|actions|].log| && Dispatch(states[|actions|].log[j])
    ensures Justified(states[|actions|].log[..j], states[|actions|].log[j])
  {
    Reachable(states, actions, t, |actions|);
  }

  /** While it runs, the pilot is alone in flight, and afterwards at most `batch` nodes are. */
  lemma FewInFlight(states: seq<State>, actions: seq<Action>, t: Timings, i: nat)
    requires Run(states, actions, t) && i < |states| && Running(states[i])
    ensures states[i].active.value.stage.Pilot? ==> Count(states[i].active.value.nodes) <= 1
    ensures states[i].active.value.stage.Rest? ==>
      Count(states[i].active.value.nodes) <= t.batch || Count(states[i].active.value.nodes) == 0
  {
    Reachable(states, actions, t, i);
    var v := states[i].active.value;
    if v.stage.Pilot? {
      forall k: nat | 0 < k < |v.nodes| ensures v.nodes[k].startedAt.None? { assert NodeSafe(v, k, states[i].log); }
      CountPilot(v.nodes);
    }
  }
}

/** The Rollouts object of src/edge/rollout.ts, updating its fields in place. */
module RolloutServer {
  import opened Wrappers
  import opened Rollout
  import opened RolloutReports

  /** Fail every node that has been silent for too long. */
  method ExpireNodes(nodes: seq<Node>, t: Timings, now: int) returns (r: seq<Node>)
    ensures r == Expire(nodes, t, now)
    ensures |r| == |nodes|
    ensures forall k :: 0 <= k < |r| ==> var n := nodes[k];
      r[k] ==
        if n.state !in {Confirmed, Failed, Skipped} && n.startedAt.Some? &&
           now - (if n.updatedAt != 0 then n.updatedAt else n.startedAt.value) >
             (if n.state == Rebooting then t.confirmMs else t.flashMs)
        then n.(state := Failed, updatedAt := now) else n
  {
    r := nodes;
    for i := 0 to |nodes|
      invariant |r| == |nodes|
      invariant forall k :: 0 <= k < i ==> r[k] == Expire(nodes, t, now)[k]
      invariant forall k :: i <= k < |nodes| ==> r[k] == nodes[k]
    {
      if Terminal(r[i].state) || r[i].startedAt.None? { continue; }
      var since := if r[i].updatedAt != 0 then r[i].updatedAt else r[i].startedAt.value;
      var limit := if r[i].state.Rebooting? then t.confirmMs else t.flashMs;
      if now - since > limit { r := r[i := Set(r[i], Failed, now)]; }
    }
  }

  /** Leave every other unfinished node alone: the pilot failed. */
  method SkipOthers(nodes: seq<Node>, now: int) returns (r: seq<Node>)
    ensures r == SkipRest(nodes, now)
    ensures |r| == |nodes| && (|r| > 0 ==> r[0] == nodes[0])
    ensures forall k :: 0 < k < |r| ==>
      r[k] == if nodes[k].state in {Confirmed, Failed, Skipped} then nodes[k]
              else nodes[k].(state := Skipped, updatedAt := now)
  {
    r := nodes;
    for i := 0 to |nodes|
      invariant |r| == |nodes|
      invariant forall k :: 0 <= k < i ==> r[k] == SkipRest(nodes, now)[k]
      invariant forall k :: i <= k < |nodes| ==> r[k] == nodes[k]
    {
      if i > 0 && !Terminal(r[i].state) { r := r[i := Set(r[i], Skipped, now)]; }
    }
  }

  /** Skip what is queued or not yet dispatched. */
  method CancelPending(nodes: seq<Node>, id: nat, awaiting: set<(nat, nat)>, now: int) returns (r: seq<Node>)
    ensures r == CancelNodes(nodes, id, awaiting, now)
    ensures |r| == |nodes|
    ensures forall k :: 0 <= k < |r| ==>
      r[k] == if nodes[k].state == Queued || (id, k) in awaiting then nodes[k].(state := Skipped, updatedAt := now)
              else nodes[k]
  {
    r := nodes;
    for i := 0 to |nodes|
      invariant |r| == |nodes|
      invariant forall k :: 0 <= k < i ==> r[k] == CancelNodes(nodes, id, awaiting, now)[k]
      invariant forall k :: i <= k < |nodes| ==> r[k] == nodes[k]
    {
      if r[i].state.Queued? || (id, i) in awaiting { r := r[i := Set(r[i], Skipped, now)]; }
    }
  }

  /** Fail the unfinished nodes of a gateway that refused the image. */
  method RefuseGateway(nodes: seq<Node>, g: int, now: int) returns (r: seq<Node>)
    ensures r == FailGateway(nodes, g, now)
    ensures |r| == |nodes|
    ensures forall k :: 0 <= k < |r| ==>
      r[k] == if nodes[k].gateway == Some(g) && nodes[k].state !in {Confirmed, Failed, Skipped}
              then nodes[k].(state := Failed, updatedAt := now) else nodes[k]
  {
    r := nodes;
    for i := 0 to |nodes|
      invariant |r| == |nodes|
      invariant forall k :: 0 <= k < i ==> r[k] == FailGateway(nodes, g, now)[k]
      invariant forall k :: i <= k < |nodes| ==> r[k] == nodes[k]
    {
      if r[i].gateway == Some(g) && !Terminal(r[i].state) { r := r[i := Set(r[i], Failed, now)]; }
    }
  }

  /** The object the edge runs: each method is one step, and leaves exactly the state it says. */
  class Rollouts {
    const timings: Timings
    var active: Option<View>
    var nextId: nat
    var ready: map<int, int>
    var asked: map<int, int>
    var launching: set<(nat, nat)>
    var awaiting: set<(nat, nat)>
    var hook: bool
    var tasks: set<Task>
    ghost var log: seq<Event>

    ghost function Now(): State reads this {
      State(active, nextId, ready, asked, launching, awaiting, hook, tasks, log)
    }

    constructor (t: Timings)
      ensures Now() == Fresh && timings == t
    {
      timings, active, nextId, ready, asked := t, None, 0, map[], map[];
      launching, awaiting, hook, tasks, log := {}, {}, false, {}, [];
    }

    method Put(i: nat, n: Node)
      requires active.Some? && i < |active.value.nodes|
      modifies this`active
      ensures Now() == PutNode(old(Now()), i, n)
    {
      active := Some(active.value.(nodes := active.value.nodes[i := n]));
    }

    method Send(id: nat, i: nat, port: int)
      modifies this`tasks, this`log
      ensures Now() == Rollout.Send(old(Now()), id, i, port)
    {
      tasks, log := tasks + {SendReply(id, i)}, log + [OtaSent(id, i, port)];
    }

    method Request(i: nat, port: int, now: int)
      requires Running(Now()) && i < |active.value.nodes|
      modifies this`active, this`awaiting, this`tasks, this`log
      ensures active == Some(old(active).value.(
        nodes := old(active).value.nodes[i :=
          old(active).value.nodes[i].(state := Sending, updatedAt := now, startedAt := Some(now))]))
      ensures hook ==>
        awaiting == old(awaiting) + {(active.value.id, i)} && log == old(log) &&
        tasks == old(tasks) + {RequestHook(active.value.id, i, port)}
      ensures !hook ==>
        awaiting == old(awaiting) && log == old(log) + [OtaSent(active.value.id, i, port)] &&
        tasks == old(tasks) + {SendReply(active.value.id, i)}
      ensures Now() == Rollout.Request(old(Now()), i, port, now)
    {
      var id := active.value.id;
      Put(i, Set(active.value.nodes[i], Sending, now).(startedAt := Some(now)));
      if hook {
        awaiting, tasks := awaiting + {(id, i)}, tasks + {RequestHook(id, i, port)};
      } else {
        Send(id, i, port);
      }
    }

    method Push(i: nat, gateway: int, env: Env)
      requires Running(Now()) && i < |active.value.nodes|
      modifies this`active, this`log
      ensures log == old(log) + [ImagePushed(old(active).value.id, i, gateway)]
      ensures active == if gateway in env.connected then old(active) else Some(old(active).value.(
        nodes := old(active).value.nodes[i :=
          old(active).value.nodes[i].(state := Failed, updatedAt := env.now)]))
      ensures Now() == Rollout.Push(old(Now()), i, gateway, env)
    {
      log := log + [ImagePushed(active.value.id, i, gateway)];
      if gateway !in env.connected { Put(i, Set(active.value.nodes[i], Failed, env.now)); }
    }

    method BeginOnce(i: nat, env: Env) returns (waiting: bool)
      requires Running(Now()) && i < |active.value.nodes|
      modifies this`active, this`asked, this`awaiting, this`tasks, this`log
      ensures var n := old(active).value.nodes[i];
        var asks := env.image && (n.transport == Direct || n.gateway == None || n.gateway.value in ready);
        asks ==>
          waiting && asked == old(asked) &&
          active == Some(old(active).value.(nodes := old(active).value.nodes[i :=
            n.(state := Sending, updatedAt := env.now, startedAt := Some(env.now))])) &&
          var id, port := active.value.id, if n.transport == Direct then 443
            else if n.gateway == None then timings.directPort else ready[n.gateway.value];
          if hook then
            awaiting == old(awaiting) + {(id, i)} && log == old(log) && tasks == old(tasks) + {RequestHook(id, i, port)}
          else
            awaiting == old(awaiting) && log == old(log) + [OtaSent(id, i, port)] &&
            tasks == old(tasks) + {SendReply(id, i)}
      ensures var n := old(active).value.nodes[i];
        var failed := Some(old(active).value.(nodes := old(active).value.nodes[i :=
          n.(state := Failed, updatedAt := env.now)]));
        (!env.image ==>
           !waiting && active == failed && asked == old(asked) && tasks == old(tasks) && log == old(log)) &&
        (env.image && n.transport != Direct && n.gateway.Some? && n.gateway.value !in ready ==>
           var id, g := old(active).value.id, n.gateway.value;
           if g in old(asked) then
             !waiting && asked == old(asked) && tasks == old(tasks) && log == old(log) &&
             active == (if env.now - asked[g] > timings.imageMs then failed else old(active))
           else if hook then
             waiting && asked == old(asked)[g := env.now] && active == old(active) && log == old(log) &&
             tasks == old(tasks) + {ImageHook(id, i, g)}
           else
             !waiting && asked == old(asked)[g := env.now] && log == old(log) + [ImagePushed(id, i, g)] &&
             tasks == old(tasks) && active == (if g in env.connected then old(active) else failed))
      ensures (Now(), waiting) == Rollout.BeginOnce(old(Now()), i, timings, env)
    {
      var n := active.value.nodes[i];
      if !env.image {
        Put(i, Set(n, Failed, env.now));
        return false;
      }
      if n.transport.Direct? {
        Request(i, 443, env.now);
        return true;
      }
      if n.gateway.None? {
        Request(i, timings.directPort, env.now);
        return true;
      }
      var g := n.gateway.value;
      if g in ready {
        Request(i, ready[g], env.now);
        return true;
      }
      if g !in asked {
        asked := asked[g := env.now];
        if hook {
          tasks := tasks + {ImageHook(active.value.id, i, g)};
          return true;
        }
        Push(i, g, env);
      } else if env.now - asked[g] > timings.imageMs {
        Put(i, Set(n, Failed, env.now));
      }
      return false;
    }

    method Begin(i: nat, env: Env)
      requires active.Some? && i < |active.value.nodes|
      modifies this`active, this`asked, this`awaiting, this`launching, this`tasks, this`log
      ensures !(old(active).value.stage in {Pilot, Rest} && old(active).value.nodes[i].state == Queued &&
                (old(active).value.id, i) !in old(launching)) ==>
        Now() == old(Now())
      ensures !hook ==> launching == old(launching)
      ensures Now() == Rollout.Begin(old(Now()), i, timings, env)
      ensures SameView(old(Now()), Now())
    {
      var id := active.value.id;
      if Over(active.value.stage) || !active.value.nodes[i].state.Queued? || (id, i) in launching { return; }
      var waiting := BeginOnce(i, env);
      if hook && waiting { launching := launching + {(id, i)}; }
    }

    method Tick(env: Env)
      modifies this`active, this`asked, this`awaiting, this`launching, this`tasks, this`log
      ensures Now() == Rollout.Tick(old(Now()), timings, env)
      ensures !Running(old(Now())) ==> Now() == old(Now())
      ensures old(active).Some? ==> SameRollout(old(Now()), Now())
    {
      if active.Some? { TickKeepsView(Now(), timings, env); }
      if active.None? || Over(active.value.stage) { return; }
      var expired := ExpireNodes(active.value.nodes, timings, env.now);
      active := Some(active.value.(nodes := expired));
      if |active.value.nodes| == 0 { return; }
      DecidePilot(env);
      if active.value.stage.Rest? { LaunchRest(env); }
      if !active.value.stage.Stopped? && AllTerminal(active.value.nodes) {
        active := Some(active.value.(stage := Done));
        log := log + [Ended(active.value.id)];
      }
    }

    /** The part of a tick that is about the pilot. */
    method DecidePilot(env: Env)
      requires active.Some? && |active.value.nodes| > 0
      modifies this`active, this`asked, this`awaiting, this`launching, this`tasks, this`log
      ensures old(active).value.stage != Pilot ==> Now() == old(Now())
      ensures old(active).value.stage == Pilot && old(active).value.nodes[0].state == Confirmed ==>
        log == old(log) && active ==
          Some(old(active).value.(stage := if |old(active).value.nodes| > 1 then Rest else Done))
      ensures old(active).value.stage == Pilot && old(active).value.nodes[0].state == Failed ==>
        active.Some? && active.value.stage == Stopped && log == old(log) + [Ended(old(active).value.id)]
      ensures old(active).value.stage == Pilot && old(active).value.nodes[0].state !in {Queued, Confirmed, Failed} ==>
        Now() == old(Now())
      ensures Now() == PilotTurn(old(Now()), timings, env)
    {
      var pilot := active.value.nodes[0];
      if active.value.stage.Pilot? {
        if pilot.state.Queued? {
          Begin(0, env);
        } else if pilot.state.Confirmed? {
          active := Some(active.value.(stage := if |active.value.nodes| > 1 then Rest else Done));
        } else if pilot.state.Failed? {
          var rest := SkipOthers(active.value.nodes, env.now);
          active := Some(active.value.(nodes := rest, stage := Stopped));
          log := log + [Ended(active.value.id)];
        }
      }
    }

    /** A few at a time, from the second node on. */
    method LaunchRest(env: Env)
      requires active.Some? && |active.value.nodes| > 0
      modifies this`active, this`asked, this`awaiting, this`launching, this`tasks, this`log
      ensures Now() == Launch(old(Now()), 1, Count(old(active).value.nodes), timings, env)
    {
      var inFlight := Count(active.value.nodes);
      var i := 1;
      while i < |active.value.nodes| && inFlight < timings.batch
        invariant active.Some? && 1 <= i <= |active.value.nodes|
        invariant Launch(Now(), i, inFlight, timings, env) ==
          Launch(old(Now()), 1, Count(old(active).value.nodes), timings, env)
        decreases |active.value.nodes| - i
      {
        if active.value.nodes[i].state.Queued? {
          Begin(i, env);
          if active.value.nodes[i].startedAt.Some? { inFlight := inFlight + 1; }
        }
        i := i + 1;
      }
    }

    method Start(build: int, chosen: seq<Node>, deferDispatch: bool, env: Env) returns (r: Result<nat>)
      modifies this
      ensures Now() == Rollout.Start(old(Now()), build, chosen, deferDispatch, timings, env)
      ensures r.Ok? <==> !Running(old(Now())) && env.image && chosen != []
      ensures r.Ok? ==> r.value == old(nextId) && nextId == r.value + 1
      ensures r.Ok? ==> active.Some? && active.value.id == r.value && active.value.build == build
      ensures r.Err? ==> Now() == old(Now())
      ensures r.Ok? ==> ready == map[] && |active.value.nodes| == |chosen|
      ensures r.Ok? && deferDispatch ==>
        active.value.stage == Pilot && asked == map[] && log == old(log) + [Started(r.value)] &&
        forall k :: 0 <= k < |chosen| ==> var n := active.value.nodes[k];
          n.uid == chosen[k].uid && n.state == Queued && n.startedAt == None && n.transport == chosen[k].transport &&
          n.gateway == if n.transport == Gateway then chosen[k].gateway else None
    {
      if active.Some? && !Over(active.value.stage) { return Err("an update is already running"); }
      if !env.image { return Err("build has no image"); }
      if chosen == [] { return Err("no node matches that target, or none is online"); }
      r := Ok(nextId);
      Replace(build, chosen, env.now);
      if !deferDispatch {
        TickKeepsIds(Now(), timings, env);
        TickKeepsView(Now(), timings, env);
        Tick(env);
      }
    }

    /** Put a new rollout in place of the old one. */
    method Replace(build: int, chosen: seq<Node>, now: int)
      modifies this
      ensures Now() == Begun(old(Now()), build, chosen, now)
    {
      ready, asked := map[], map[];
      active := Some(View(nextId, build, Pilot, FreshNodes(chosen, now)));
      log, nextId := log + [Started(nextId)], nextId + 1;
    }

    method Cancel(now: int)
      modifies this
      ensures Now() == Rollout.Cancel(old(Now()), now)
      ensures !Running(Now()) && (Running(old(Now())) ==> log == old(log) + [Ended(old(active).value.id)])
      ensures Running(old(Now())) ==>
        active.value.stage == Stopped && |active.value.nodes| == |old(active).value.nodes| &&
        forall i :: 0 <= i < |active.value.nodes| ==> var n := old(active).value.nodes[i];
          active.value.nodes[i] ==
            if n.state == Queued || (old(active).value.id, i) in awaiting then n.(state := Skipped, updatedAt := now)
            else n
    {
      if active.None? || Over(active.value.stage) { return; }
      var id := active.value.id;
      var nodes := CancelPending(active.value.nodes, id, awaiting, now);
      active := Some(active.value.(nodes := nodes, stage := Stopped));
      log := log + [Ended(id)];
    }

    method OnImageReady(g: int, build: int, ok: bool, port: int, env: Env)
      modifies this
      ensures Now() == ImageReady(old(Now()), g, build, ok, port, timings, env)
      ensures var heard := old(Running(Now())) && old(active).value.build == build;
        ready == (if heard && ok then old(ready)[g := port] else old(ready)) &&
        (!heard ==> Now() == old(Now())) &&
        (heard && !ok ==>
           active.Some? && |active.value.nodes| == |old(active).value.nodes| &&
           forall k :: 0 <= k < |active.value.nodes| && old(active).value.nodes[k].gateway == Some(g) &&
                       old(active).value.nodes[k].state !in {Confirmed, Failed, Skipped} ==>
             active.value.nodes[k].state == Failed)
    {
      if active.None? || Over(active.value.stage) || active.value.build != build { return; }
      if ok {
        ready := ready[g := port];
      } else {
        var nodes := RefuseGateway(active.value.nodes, g, env.now);
        active := Some(active.value.(nodes := nodes));
        GatewayStaysFailed(old(active).value.nodes, g, Now(), timings, env);
      }
      Tick(env);
    }

    method OnOtaStatus(uid: int, build: int, report: Report, env: Env)
      modifies this
      ensures Now() == OtaStatus(old(Now()), uid, build, report, timings, env)
      ensures (forall i: nat :: !Matches(old(Now()), i, uid, build)) ==> Now() == old(Now())
      ensures forall i: nat :: Matches(old(Now()), i, uid, build) ==> Heard(old(Now()), i, report, Now())
    {
      ReportsAre(Now(), uid, build, report, timings, env);
      if active.None? { return; }
      var i := Find(active.value.nodes, uid);
      if i == |active.value.nodes| || active.value.stage.Done? || active.value.nodes[i].startedAt.None? ||
         Terminal(active.value.nodes[i].state) || build != active.value.build
      {
        return;
      }
      Note(i, Reported(report), env.now);
      Tick(env);
    }

    /** Put a node in the state it reported, and confirmations on record. */
    method Note(i: nat, st: Option<NodeState>, now: int)
      requires active.Some? && i < |active.value.nodes|
      modifies this`active, this`log
      ensures active == if st.None? then old(active) else Some(old(active).value.(
        nodes := old(active).value.nodes[i := old(active).value.nodes[i].(state := st.value, updatedAt := now)]))
      ensures log == if st == Some(Confirmed) then old(log) + [NodeConfirmed(old(active).value.id, i)] else old(log)
    {
      if st.None? { return; }
      Put(i, Set(active.value.nodes[i], st.value, now));
      if st.value.Confirmed? { log := log + [NodeConfirmed(active.value.id, i)]; }
    }

    /** beforeDispatch settled for a dispatch that was waiting on it. */
    method OnHook(task: Task, ok: bool, env: Env)
      requires !task.SendReply?
      modifies this`active, this`asked, this`awaiting, this`launching, this`tasks, this`log
      ensures Now() == HookDone(old(Now()), task, ok, env)
      ensures task !in tasks && old(tasks) - {task} <= tasks
    {
      if task.ImageHook? { OnImageHook(task, ok, env); } else { OnRequestHook(task, ok, env); }
    }

    /** The state of the node the task is about, while its rollout is the running one. */
    function At(task: Task): Option<NodeState> reads this {
      if active.Some? && active.value.stage in {Pilot, Rest} && active.value.id == task.rollout &&
         task.index < |active.value.nodes|
      then Some(active.value.nodes[task.index].state) else None
    }

    /** The part of begin after the hook: push the image, or let a later tick ask again. */
    method OnImageHook(task: Task, ok: bool, env: Env)
      requires task.ImageHook?
      modifies this`active, this`asked, this`launching, this`tasks, this`log
      ensures Now() == HookDone(old(Now()), task, ok, env)
      ensures launching == old(launching) - {(task.rollout, task.index)} && tasks == old(tasks) - {task}
      ensures asked == if old(At(task)) == Some(Queued) && !ok then old(asked) - {task.gateway} else old(asked)
      ensures old(At(task)) == Some(Queued) && ok ==>
        log == old(log) + [ImagePushed(task.rollout, task.index, task.gateway)] &&
        active == if task.gateway in env.connected then old(active)
          else Some(old(active).value.(nodes := old(active).value.nodes[task.index :=
                 old(active).value.nodes[task.index].(state := Failed, updatedAt := env.now)]))
      ensures old(At(task)) != Some(Queued) || !ok ==> log == old(log) && active == old(active)
    {
      tasks, launching := tasks - {task}, launching - {(task.rollout, task.index)};
      if At(task) != Some(Queued) { return; }
      if ok { Push(task.index, task.gateway, env); } else { asked := asked - {task.gateway}; }
    }

    /** The part of request after the hook: send it, or put the node back in line. */
    method OnRequestHook(task: Task, ok: bool, env: Env)
      requires task.RequestHook?
      modifies this`active, this`awaiting, this`launching, this`tasks, this`log
      ensures Now() == HookDone(old(Now()), task, ok, env)
      ensures awaiting == old(awaiting) - {(task.rollout, task.index)}
      ensures old(At(task)) == Some(Sending) && ok ==>
        launching == old(launching) && log == old(log) + [OtaSent(task.rollout, task.index, task.port)] &&
        tasks == old(tasks) - {task} + {SendReply(task.rollout, task.index)} && active == old(active)
      ensures old(At(task)) != Some(Sending) || !ok ==>
        launching == old(launching) - {(task.rollout, task.index)} && log == old(log) && tasks == old(tasks) - {task}
      ensures old(At(task)) == Some(Sending) && !ok ==>
        active == Some(old(active).value.(nodes := old(active).value.nodes[task.index :=
          old(active).value.nodes[task.index].(state := Queued, startedAt := None)]))
      ensures old(At(task)) != Some(Sending) ==> active == old(active)
    {
      var id, i := task.rollout, task.index;
      tasks, awaiting := tasks - {task}, awaiting - {(id, i)};
      if At(task) != Some(Sending) {
        launching := launching - {(id, i)};
      } else if ok {
        Send(id, i, task.port);
      } else {
        Put(i, active.value.nodes[i].(state := Queued, startedAt := None));
        launching := launching - {(id, i)};
      }
    }

    method OnReply(task: Task, ok: bool, env: Env)
      requires task.SendReply?
      modifies this
      ensures Now() == SendDone(old(Now()), task, ok, timings, env)
      ensures ok ==>
        active == old(active) && log == old(log) && tasks == old(tasks) - {task} &&
        launching == old(launching) - {(task.rollout, task.index)}
      ensures !ok && old(Current(Now(), task.rollout, task.index)) ==>
        active.Some? && task.index < |active.value.nodes| && Terminal(active.value.nodes[task.index].state) &&
        (old(active).value.nodes[task.index].state == Sending ==> active.value.nodes[task.index].state == Failed)
    {
      var id, i := task.rollout, task.index;
      tasks, launching := tasks - {task}, launching - {(id, i)};
      if !ok && active.Some? && !Over(active.value.stage) && active.value.id == id && i < |active.value.nodes| &&
         !Terminal(active.value.nodes[i].state)
      {
        Put(i, Set(active.value.nodes[i], Failed, env.now));
        FailedStays(Now(), i, timings, env);
        Tick(env);
      }
    }
  }
}

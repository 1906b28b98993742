/**
 * The download grant of a direct node (src/edge/rollout.ts:149-156): how it follows the request
 * that was sent, or is about to be, and exactly when it does not.
 */
module RolloutGrants {
  import opened Chains
  import opened Wrappers
  import opened Rollout
  import opened RolloutSafety

  /** The node's request has been sent, or waits for the commit hook. */
  ghost predicate AskedFor(s: State, id: nat, i: nat) { (id, i) in s.awaiting || !NotAsked(s.log, id, i) }

  /** Node k of the active rollout is under way, was never asked, and will not be. */
  ghost predicate Overtaken(s: State, k: nat)
    requires s.active.Some? && k < |s.active.value.nodes|
  {
    var v := s.active.value;
    !AskedFor(s, v.id, k) && !v.nodes[k].state.Queued? && !v.nodes[k].state.Sending? &&
    forall port :: RequestHook(v.id, k, port) !in s.tasks
  }

  /** The action settles the hook of a request that is not wanted any more. */
  predicate Misses(s: State, a: Action, id: nat, k: nat) {
    a.DoHook? && a.task.RequestHook? && a.task.rollout == id && a.task.index == k && !CanDispatch(s, id, k, Sending)
  }

  // ---- one node over one step ------------------------------------------------------------------------

  /** s and u are of one rollout, and u does not run unless s does. */
  predicate Continues(s: State, u: State) {
    s.active.Some? && u.active.Some? && u.active.value.id == s.active.value.id &&
    |u.active.value.nodes| == |s.active.value.nodes| && (Running(u) ==> Running(s)) && u.nextId == s.nextId
  }

  /** From s to u node k is not in flight unless asked, does not lose its request, and stays overtaken. */
  ghost predicate NodeMoves(s: State, u: State, k: nat)
    requires Continues(s, u) && k < |s.active.value.nodes|
  {
    (InFlight(u.active.value.nodes[k]) ==>
       AskedFor(u, u.active.value.id, k) ||
         (InFlight(s.active.value.nodes[k]) && !AskedFor(s, s.active.value.id, k))) &&
    (Overtaken(s, k) ==> Overtaken(u, k))
  }

  ghost predicate Carries(s: State, u: State) {
    Continues(s, u) && forall k: nat :: k < |s.active.value.nodes| ==> NodeMoves(s, u, k)
  }

  lemma CarriesTrans(s: State, u: State, w: State)
    requires Carries(s, u) && Carries(u, w)
    ensures Carries(s, w)
  {
    forall k: nat | k < |s.active.value.nodes| ensures NodeMoves(s, w, k) {
      assert NodeMoves(s, u, k) && NodeMoves(u, w, k);
    }
  }

  /** Same nodes' requests: nothing about asking has changed. */
  lemma SameAsked(s: State, u: State, ev: Event)
    requires u.awaiting == s.awaiting && (u.log == s.log || u.log == s.log + [ev]) && !ev.OtaSent?
    ensures forall id: nat, i: nat :: AskedFor(u, id, i) <==> AskedFor(s, id, i)
  {
    forall id: nat, i: nat ensures NotAsked(u.log, id, i) <==> NotAsked(s.log, id, i) {
      forall port ensures OtaSent(id, i, port) in u.log <==> OtaSent(id, i, port) in s.log {}
    }
  }

  /** Nodes that only end, or only report, and a log without requests. */
  lemma QuietCarries(s: State, u: State, ev: Event)
    requires Continues(s, u) && u.awaiting == s.awaiting && u.tasks <= s.tasks
    requires (u.log == s.log || u.log == s.log + [ev]) && !ev.OtaSent?
    requires forall k: nat :: k < |s.active.value.nodes| ==> NodeQuiet(s.active.value.nodes[k], u.active.value.nodes[k])
    ensures Carries(s, u)
  {
    SameAsked(s, u, ev);
    forall k: nat | k < |s.active.value.nodes| ensures NodeMoves(s, u, k) {
      assert NodeQuiet(s.active.value.nodes[k], u.active.value.nodes[k]);
    }
  }

  predicate NodeQuiet(n: Node, m: Node) {
    m == n || Terminal(m.state) || (InFlight(n) && !m.state.Queued? && !m.state.Sending?)
  }

  // ---- every dispatch and every tick -----------------------------------------------------------------

  lemma RequestCarries(s: State, i: nat, port: int, now: int)
    requires Running(s) && i < |s.active.value.nodes| && s.active.value.nodes[i].state.Queued?
    ensures Carries(s, Request(s, i, port, now))
  {
    var u, id := Request(s, i, port, now), s.active.value.id;
    if !s.hook { assert OtaSent(id, i, port) in u.log; }
    assert AskedFor(u, id, i);
    forall k: nat | k < |s.active.value.nodes| ensures NodeMoves(s, u, k) {
      if k != i { OthersAsked(s, u, id, i, port, k); }
    }
  }

  /** What one request adds to the log and the waiting set is about its own node. */
  lemma OthersAsked(s: State, u: State, id: nat, i: nat, port: int, k: nat)
    requires k != i && (u.awaiting == s.awaiting || u.awaiting == s.awaiting + {(id, i)} ||
      u.awaiting == s.awaiting - {(id, i)})
    requires u.log == s.log || u.log == s.log + [OtaSent(id, i, port)]
    ensures AskedFor(u, id, k) <==> AskedFor(s, id, k)
  {
    forall p ensures OtaSent(id, k, p) in u.log <==> OtaSent(id, k, p) in s.log {}
  }

  lemma FailCarries(s: State, i: nat, now: int)
    requires s.active.Some? && i < |s.active.value.nodes|
    ensures Carries(s, Fail(s, i, now))
  {
    QuietCarries(s, Fail(s, i, now), Started(0));
  }

  lemma PushCarries(s: State, i: nat, g: int, env: Env)
    requires Running(s) && i < |s.active.value.nodes|
    ensures Carries(s, Push(s, i, g, env))
  {
    QuietCarries(s, Push(s, i, g, env), ImagePushed(s.active.value.id, i, g));
  }

  /** Nothing of this is about which gateways were asked, or who waits for a reply. */
  lemma AskingCarries(s: State, a: State, u: State)
    requires Carries(a, u) && s.active.Some? && a == s.(asked := a.asked)
    ensures Carries(s, u)
  {
    forall k: nat | k < |s.active.value.nodes| ensures NodeMoves(s, u, k) { assert NodeMoves(a, u, k); }
  }

  lemma ClaimCarries(s: State, a: State, u: State)
    requires Carries(s, a) && u == a.(launching := u.launching)
    ensures Carries(s, u)
  {
    forall k: nat | k < |s.active.value.nodes| ensures NodeMoves(s, u, k) { assert NodeMoves(s, a, k); }
  }

  /** Waiting to push an image asks nobody. */
  lemma HookCarries(s: State, i: nat, g: int)
    requires s.active.Some?
    ensures Carries(s, s.(tasks := s.tasks + {ImageHook(s.active.value.id, i, g)}))
  {
  }

  lemma BeginOnceCarries(s: State, i: nat, t: Timings, env: Env)
    requires Running(s) && i < |s.active.value.nodes| && s.active.value.nodes[i].state.Queued?
    ensures Carries(s, BeginOnce(s, i, t, env).0)
  {
    var n, u := s.active.value.nodes[i], BeginOnce(s, i, t, env).0;
    assert Carries(s, u) by {
      if !env.image {
        FailCarries(s, i, env.now);
      } else if n.transport.Direct? {
        RequestCarries(s, i, 443, env.now);
      } else if n.gateway.None? {
        RequestCarries(s, i, t.directPort, env.now);
      } else if n.gateway.value in s.ready {
        RequestCarries(s, i, s.ready[n.gateway.value], env.now);
      } else if n.gateway.value !in s.asked {
        var a := s.(asked := s.asked[n.gateway.value := env.now]);
        if s.hook { HookCarries(a, i, n.gateway.value); } else { PushCarries(a, i, n.gateway.value, env); }
        AskingCarries(s, a, u);
      } else {
        FailCarries(s, i, env.now);
        QuietCarries(s, s, Started(0));
      }
    }
  }

  lemma BeginCarries(s: State, i: nat, t: Timings, env: Env)
    requires s.active.Some? && i < |s.active.value.nodes|
    ensures Carries(s, Begin(s, i, t, env))
  {
    var id, u := s.active.value.id, Begin(s, i, t, env);
    if !CanDispatch(s, id, i, Queued) || (id, i) in s.launching {
      QuietCarries(s, s, Started(0));
    } else {
      BeginOnceCarries(s, i, t, env);
      ClaimCarries(s, BeginOnce(s, i, t, env).0, u);
    }
  }

  lemma {:induction false} LaunchCarries(s: State, i: nat, inFlight: int, t: Timings, env: Env)
    requires s.active.Some? && i <= |s.active.value.nodes|
    ensures Carries(s, Launch(s, i, inFlight, t, env))
    decreases |s.active.value.nodes| - i
  {
    var w := Launch(s, i, inFlight, t, env);
    assert Carries(s, w) by {
      if i == |s.active.value.nodes| || inFlight >= t.batch {
        QuietCarries(s, s, Started(0));
      } else if s.active.value.nodes[i].state.Queued? {
        var u := Begin(s, i, t, env);
        BeginCarries(s, i, t, env);
        LaunchCarries(u, i + 1, if u.active.value.nodes[i].startedAt.Some? then inFlight + 1 else inFlight, t, env);
        CarriesTrans(s, u, w);
      } else {
        LaunchCarries(s, i + 1, inFlight, t, env);
      }
    }
  }

  lemma PilotCarries(s: State, t: Timings, env: Env)
    requires s.active.Some? && |s.active.value.nodes| > 0 && Running(s)
    ensures Carries(s, PilotTurn(s, t, env))
  {
    var u := PilotTurn(s, t, env);
    assert Carries(s, u) by {
      if s.active.value.stage.Pilot? && s.active.value.nodes[0].state.Queued? {
        BeginCarries(s, 0, t, env);
      } else {
        QuietCarries(s, u, Ended(s.active.value.id));
      }
    }
  }

  lemma ExpireCarries(s: State, t: Timings, now: int)
    requires s.active.Some?
    ensures Carries(s, PutNodes(s, Expire(s.active.value.nodes, t, now)))
  {
    QuietCarries(s, PutNodes(s, Expire(s.active.value.nodes, t, now)), Started(0));
  }

  lemma RestCarries(b: State, t: Timings, env: Env)
    requires b.active.Some? && |b.active.value.nodes| > 0
    ensures
      var c := if b.active.value.stage.Rest? then Launch(b, 1, Count(b.active.value.nodes), t, env) else b;
      Carries(b, Conclude(c))
  {
    var c := if b.active.value.stage.Rest? then Launch(b, 1, Count(b.active.value.nodes), t, env) else b;
    assert Carries(b, c) by {
      if b.active.value.stage.Rest? {
        LaunchCarries(b, 1, Count(b.active.value.nodes), t, env);
      } else {
        QuietCarries(b, b, Started(0));
      }
    }
    QuietCarries(c, Conclude(c), Ended(c.active.value.id));
    CarriesTrans(b, c, Conclude(c));
  }

  lemma TickCarries(s: State, t: Timings, env: Env)
    requires s.active.Some?
    ensures Carries(s, Tick(s, t, env))
  {
    var u := Tick(s, t, env);
    assert Carries(s, u) by {
      if !Running(s) {
        QuietCarries(s, s, Started(0));
      } else {
        var a := PutNodes(s, Expire(s.active.value.nodes, t, env.now));
        ExpireCarries(s, t, env.now);
        if |a.active.value.nodes| > 0 {
          var b := PilotTurn(a, t, env);
          PilotCarries(a, t, env);
          RestCarries(b, t, env);
          CarriesTrans(s, a, b);
          CarriesTrans(s, b, u);
        }
      }
    }
  }

  /** A change that carries, and then a tick. */
  lemma ThenTick(s: State, a: State, t: Timings, env: Env)
    requires Carries(s, a)
    ensures Carries(s, Tick(a, t, env))
  {
    TickCarries(a, t, env);
    CarriesTrans(s, a, Tick(a, t, env));
  }

  // ---- every step --------------------------------------------------------------------------------------

  lemma StatusCarries(s: State, uid: int, build: int, r: Report, t: Timings, env: Env)
    requires s.active.Some?
    ensures Carries(s, OtaStatus(s, uid, build, r, t, env))
  {
    var v, w := s.active.value, OtaStatus(s, uid, build, r, t, env);
    var i, st := Find(v.nodes, uid), Reported(r);
    assert Carries(s, w) by {
      if i == |v.nodes| || v.stage.Done? || v.nodes[i].startedAt.None? || Terminal(v.nodes[i].state) ||
        build != v.build {
        QuietCarries(s, s, Started(0));
      } else {
        var u := if st.Some? then PutNode(s, i, Set(v.nodes[i], st.value, env.now)) else s;
        var a := if st == Some(Confirmed) then Log(u, NodeConfirmed(v.id, i)) else u;
        QuietCarries(s, a, NodeConfirmed(v.id, i));
        ThenTick(s, a, t, env);
      }
    }
  }

  lemma ImageCarries(s: State, g: int, build: int, ok: bool, port: int, t: Timings, env: Env)
    requires s.active.Some?
    ensures Carries(s, ImageReady(s, g, build, ok, port, t, env))
  {
    var w := ImageReady(s, g, build, ok, port, t, env);
    assert Carries(s, w) by {
      if !Running(s) || s.active.value.build != build {
        QuietCarries(s, s, Started(0));
      } else {
        var a := if ok then s.(ready := s.ready[g := port])
          else PutNodes(s, FailGateway(s.active.value.nodes, g, env.now));
        QuietCarries(s, a, Started(0));
        ThenTick(s, a, t, env);
      }
    }
  }

  lemma ReplyCarries(s: State, task: Task, ok: bool, t: Timings, env: Env)
    requires s.active.Some? && task.SendReply?
    ensures Carries(s, SendDone(s, task, ok, t, env))
  {
    var id, i, w := task.rollout, task.index, SendDone(s, task, ok, t, env);
    var u := s.(tasks := s.tasks - {task}, launching := s.launching - {(id, i)});
    assert Carries(s, w) by {
      QuietCarries(s, u, Started(0));
      if !ok && Current(u, id, i) && !Terminal(u.active.value.nodes[i].state) {
        FailCarries(u, i, env.now);
        CarriesTrans(s, u, Fail(u, i, env.now));
        ThenTick(s, Fail(u, i, env.now), t, env);
      }
    }
  }

  lemma ImageHookCarries(s: State, task: Task, ok: bool, env: Env)
    requires s.active.Some? && task.ImageHook?
    ensures Carries(s, HookDone(s, task, ok, env))
  {
    var id, i, g, u := task.rollout, task.index, task.gateway, HookDone(s, task, ok, env);
    var d := s.(tasks := s.tasks - {task}, launching := s.launching - {(id, i)});
    assert Carries(s, u) by {
      if CanDispatch(d, id, i, Queued) && ok {
        QuietCarries(s, d, Started(0));
        PushCarries(d, i, g, env);
        CarriesTrans(s, d, u);
      } else {
        QuietCarries(s, u, Started(0));
      }
    }
  }

  /** The hook of a request, as every node but its own sees it. */
  lemma RequestHookOthers(s: State, task: Task, ok: bool, env: Env, k: nat)
    requires s.active.Some? && task.RequestHook? && k < |s.active.value.nodes|
    requires s.active.value.id != task.rollout || k != task.index
    ensures Continues(s, HookDone(s, task, ok, env)) && NodeMoves(s, HookDone(s, task, ok, env), k)
  {
    var id, u := s.active.value.id, HookDone(s, task, ok, env);
    if id == task.rollout {
      OthersAsked(s, u, id, task.index, task.port, k);
    } else {
      assert AskedFor(u, id, k) <==> AskedFor(s, id, k);
    }
  }

  /** And as its own node sees it: asked, queued again, or overtaken. */
  lemma RequestHookOwn(s: State, task: Task, ok: bool, env: Env, t: Timings)
    requires Inv(s, t) && Running(s) && task.RequestHook? && task in s.tasks
    requires s.active.value.id == task.rollout && task.index < |s.active.value.nodes|
    ensures var u, k := HookDone(s, task, ok, env), task.index;
      Continues(s, u) && !Overtaken(s, k) &&
      if CanDispatch(s, task.rollout, k, Sending)
      then InFlight(u.active.value.nodes[k]) ==> AskedFor(u, task.rollout, k)
      else Overtaken(u, k)
  {
    var id, k, u := task.rollout, task.index, HookDone(s, task, ok, env);
    assert TaskSafe(s, task);
    if CanDispatch(s, id, k, Sending) {
      if ok { assert OtaSent(id, k, task.port) in u.log; }
    } else {
      forall port ensures RequestHook(id, k, port) !in u.tasks {
        if RequestHook(id, k, port) in s.tasks { assert RequestHook(id, k, port) == task; }
      }
    }
  }

  /** Every step but the start of a rollout, and but the hook of a request, carries. */
  lemma StepCarries(s: State, a: Action, t: Timings)
    requires s.active.Some? && Enabled(s, a) && !a.DoStart? && !(a.DoHook? && a.task.RequestHook?)
    ensures Carries(s, Step(s, a, t))
  {
    match a
    case DoTick(env) => TickCarries(s, t, env);
    case DoCancel(now) => if Running(s) { CancelCarries(s, now); } else { QuietCarries(s, s, Started(0)); }
    case DoImageReady(g, build, ok, port, env) => ImageCarries(s, g, build, ok, port, t, env);
    case DoOtaStatus(uid, build, r, env) => StatusCarries(s, uid, build, r, t, env);
    case DoHook(task, ok, env) => ImageHookCarries(s, task, ok, env);
    case DoReply(task, ok, env) => ReplyCarries(s, task, ok, t, env);
    case SetHook(h) => QuietCarries(s, s.(hook := h), Started(0));
  }

  lemma CancelCarries(s: State, now: int)
    requires Running(s)
    ensures Carries(s, Cancel(s, now))
  {
    QuietCarries(s, Cancel(s, now), Ended(s.active.value.id));
  }

  // ---- runs --------------------------------------------------------------------------------------------

  /** Before state i the hook of a request to node k was settled when it was not wanted any more. */
  ghost predicate Missed(states: seq<State>, actions: seq<Action>, i: nat, id: nat, k: nat)
    requires i <= |actions| < |states|
  {
    exists m: nat :: m < i && Misses(states[m], actions[m], id, k)
  }

  /** A node of the running rollout is overtaken if its hook was missed, and else asked while in flight. */
  ghost predicate Settles(s: State, k: nat, missed: bool)
    requires s.active.Some? && k < |s.active.value.nodes|
  {
    if missed then Overtaken(s, k) else InFlight(s.active.value.nodes[k]) ==> AskedFor(s, s.active.value.id, k)
  }

  ghost predicate RunsSettled(states: seq<State>, actions: seq<Action>, i: nat)
    requires i <= |actions| < |states|
  {
    var s := states[i];
    (forall id: nat, k: nat :: Missed(states, actions, i, id, k) ==> id < s.nextId) &&
    (Running(s) ==> forall k: nat :: k < |s.active.value.nodes| ==>
      Settles(s, k, Missed(states, actions, i, s.active.value.id, k)))
  }

  lemma MissedNext(states: seq<State>, actions: seq<Action>, i: nat, id: nat, k: nat)
    requires i < |actions| < |states|
    ensures Missed(states, actions, i + 1, id, k) <==>
      Missed(states, actions, i, id, k) || Misses(states[i], actions[i], id, k)
  {
  }

  /** The fresh rollout of a start has asked only those it has under way, and nobody's hook was missed yet. */
  lemma StartSettles(s: State, build: int, chosen: seq<Node>, deferDispatch: bool, t: Timings, env: Env, k: nat)
    requires Inv(s, t)
    requires var u := Start(s, build, chosen, deferDispatch, t, env);
      u != s && u.active.Some? && k < |u.active.value.nodes|
    ensures var u := Start(s, build, chosen, deferDispatch, t, env);
      u.active.value.id == s.nextId && u.nextId == s.nextId + 1 && Settles(u, k, false)
  {
    var b := Begun(s, build, chosen, env.now);
    if !deferDispatch {
      TickCarries(b, t, env);
      assert NodeMoves(b, Tick(b, t, env), k);
    }
  }

  lemma NodeSettles(s: State, a: Action, t: Timings, k: nat, missed: bool)
    requires Inv(s, t) && Enabled(s, a) && Running(s) && Running(Step(s, a, t)) &&
      Step(s, a, t).active.value.id == s.active.value.id
    requires k < |s.active.value.nodes| && Settles(s, k, missed)
    ensures k < |Step(s, a, t).active.value.nodes|
    ensures Settles(Step(s, a, t), k, missed || Misses(s, a, s.active.value.id, k))
  {
    var id, u := s.active.value.id, Step(s, a, t);
    if a.DoHook? && a.task.RequestHook? {
      if a.task.rollout == id && a.task.index == k {
        RequestHookOwn(s, a.task, a.ok, a.env, t);
      } else {
        RequestHookOthers(s, a.task, a.ok, a.env, k);
      }
    } else if !a.DoStart? {
      StepCarries(s, a, t);
      assert NodeMoves(s, u, k);
    }
  }

  /** No step takes a rollout number back, and a new rollout gets the next one. */
  lemma StepIds(s: State, a: Action, t: Timings)
    requires Inv(s, t) && Enabled(s, a)
    ensures var u := Step(s, a, t);
      s.nextId <= u.nextId &&
      (Running(u) && a.DoStart? && u != s ==> u.active.value.id == s.nextId) &&
      (Running(u) && !(a.DoStart? && u != s) ==>
         Running(s) && u.active.value.id == s.active.value.id && |u.active.value.nodes| == |s.active.value.nodes|)
  {
    var u := Step(s, a, t);
    if a.DoStart? {
      if u != s && !a.deferDispatch { TickCarries(Begun(s, a.build, a.chosen, a.env.now), t, a.env); }
    } else if s.active.Some? {
      if a.DoHook? && a.task.RequestHook? {
        assert Continues(s, u);
      } else {
        StepCarries(s, a, t);
      }
    }
  }

  lemma NextSettled(states: seq<State>, actions: seq<Action>, t: Timings, i: nat)
    requires Run(states, actions, t) && i < |actions| && RunsSettled(states, actions, i) && Inv(states[i], t)
    ensures RunsSettled(states, actions, i + 1)
  {
    var s, a, u, j := states[i], actions[i], states[i + 1], i + 1;
    StepIds(s, a, t);
    forall id: nat, k: nat | Missed(states, actions, j, id, k) ensures id < u.nextId {
      MissedNext(states, actions, i, id, k);
      if Misses(s, a, id, k) { assert TaskSafe(s, a.task); }
    }
    if Running(u) {
      forall k: nat | k < |u.active.value.nodes|
        ensures Settles(u, k, Missed(states, actions, j, u.active.value.id, k))
      {
        MissedNext(states, actions, i, u.active.value.id, k);
        if a.DoStart? && u != s {
          StartSettles(s, a.build, a.chosen, a.deferDispatch, t, a.env, k);
        } else {
          NodeSettles(s, a, t, k, Missed(states, actions, i, s.active.value.id, k));
        }
      }
    }
  }

  lemma {:induction false} RunSettles(states: seq<State>, actions: seq<Action>, t: Timings, i: nat)
    requires Run(states, actions, t) && i < |states|
    ensures RunsSettled(states, actions, i)
  {
    if i > 0 {
      RunSettles(states, actions, t, i - 1);
      Reachable(states, actions, t, i - 1);
      NextSettled(states, actions, t, i - 1);
    }
  }

  // ---- the grant -------------------------------------------------------------------------------------

  /**
   * In every state of every run, a node that may download belongs to a rollout that has started and
   * not ended, and its own step has started. Its request has been sent, or waits for its hook, exactly
   * unless that hook was settled while the node was no longer waiting to be sent to.
   */
  lemma GrantsFollowRequests(states: seq<State>, actions: seq<Action>, t: Timings, i: nat, uid: int, build: int)
    requires Run(states, actions, t) && i < |states| && WantsDownload(states[i], uid, build)
    ensures var s := states[i];
      var v := s.active.value;
      var k := Find(v.nodes, uid);
      Started(v.id) in s.log && Ended(v.id) !in s.log && v.nodes[k].startedAt.Some? &&
      (AskedFor(s, v.id, k) <==>
         !exists m: nat :: m < i && actions[m].DoHook? && actions[m].task.RequestHook? &&
           actions[m].task.rollout == v.id && actions[m].task.index == k && !CanDispatch(states[m], v.id, k, Sending))
  {
    Reachable(states, actions, t, i);
    RunSettles(states, actions, t, i);
    var v := states[i].active.value;
    var k := Find(v.nodes, uid);
    assert NodeSafe(v, k, states[i].log);
    assert Settles(states[i], k, Missed(states, actions, i, v.id, k));
  }

  /** While it lasts, the grant is exactly for a node that is being sent the request or is downloading. */
  lemma GrantedIff(s: State, k: nat, uid: int, build: int)
    requires s.active.Some? && k < |s.active.value.nodes| && s.active.value.nodes[k].uid == uid
    requires forall j :: 0 <= j < k ==> s.active.value.nodes[j].uid != uid
    ensures WantsDownload(s, uid, build) <==>
      s.active.value.build == build && s.active.value.stage in {Pilot, Rest} &&
      s.active.value.nodes[k].state in {Sending, Downloading}
  {
    assert !(Find(s.active.value.nodes, uid) < k);
  }

  /** Cancelling ends every grant on the spot. */
  lemma CancelEndsGrants(s: State, now: int, uid: int, build: int)
    ensures !WantsDownload(Cancel(s, now), uid, build)
  {
  }

  // ---- the exception -----------------------------------------------------------------------------------

  /** The one node of a rollout, while its hook is pending. */
  function Waiting(build: int, n: Node, now: int, st: NodeState): State {
    State(Some(View(0, build, Pilot, [n.(state := st, startedAt := Some(now), updatedAt := now)])), 1, map[], map[],
          {(0, 0)}, {(0, 0)}, true, {RequestHook(0, 0, 443)}, [Started(0)])
  }

  predicate Fit(n: Node, now: int) {
    n.transport.Direct? && n.state.Queued? && n.startedAt.None? && n.updatedAt == now && n.gateway.None?
  }

  lemma WaitsForHook(build: int, n: Node, t: Timings, env: Env)
    requires Fit(n, env.now) && env.image
    ensures Start(Fresh.(hook := true), build, [n], false, t, env) == Waiting(build, n, env.now, Sending)
  {
    var u := Begun(Fresh.(hook := true), build, [n], env.now);
    assert u.active.value.nodes == [n];
    assert Expire([n], t, env.now) == [n];
    assert [n][0 := Set(n, Sending, env.now).(startedAt := Some(env.now))] ==
      [Set(n, Sending, env.now).(startedAt := Some(env.now))];
    var b := Begin(u, 0, t, env);
    assert b == Waiting(build, n, env.now, Sending);
    assert PilotTurn(u, t, env) == b;
    assert !Terminal(b.active.value.nodes[0].state);
  }

  lemma ReportsEarly(build: int, n: Node, t: Timings, env: Env)
    requires t.flashMs >= 0
    ensures OtaStatus(Waiting(build, n, env.now, Sending), n.uid, build, SaysDownloading, t, env) ==
      Waiting(build, n, env.now, Downloading)
  {
    var s, u := Waiting(build, n, env.now, Sending), Waiting(build, n, env.now, Downloading);
    assert s.active.value.nodes[0].uid == n.uid && Find(s.active.value.nodes, n.uid) == 0;
    assert s.active.value.nodes[0 := Set(s.active.value.nodes[0], Downloading, env.now)] == u.active.value.nodes;
    assert Expire(u.active.value.nodes, t, env.now) == u.active.value.nodes;
    assert PilotTurn(u, t, env) == u;
    assert !Terminal(u.active.value.nodes[0].state);
    assert Tick(u, t, env) == u;
  }

  /** Its download is granted, nothing waits, and no request was ever sent. */
  ghost predicate GrantedUnasked(s: State, uid: int, build: int) {
    WantsDownload(s, uid, build) && s.tasks == {} && forall id: nat, i: nat :: !AskedFor(s, id, i)
  }

  ghost predicate EndsUnasked(states: seq<State>, actions: seq<Action>, t: Timings, uid: int, build: int) {
    Run(states, actions, t) && GrantedUnasked(states[|actions|], uid, build)
  }

  /**
   * The exception does happen: a node that reports a download while its hook is pending keeps the
   * grant although the request it was waiting for is never sent.
   */
  lemma GrantWithoutRequest(build: int, n: Node, t: Timings, env: Env)
    requires Fit(n, env.now) && env.image && t.flashMs >= 0
    ensures exists states, actions :: EndsUnasked(states, actions, t, n.uid, build)
  {
    var hooked := StepLeads(Fresh, SetHook(true), t);
    var s := HookedStart(hooked, build, n, t, env);
    var d := EarlyReport(s, build, n, t, env);
    var u := StepLeads(d, DoHook(RequestHook(0, 0, 443), true, env), t);
    HookTooLate(build, n, env);
    var states := [Fresh, hooked, s, d, u];
    var actions := [SetHook(true), DoStart(build, [n], false, env), DoOtaStatus(n.uid, build, SaysDownloading, env),
                    DoHook(RequestHook(0, 0, 443), true, env)];
    Four(Leading(t), states, actions);
    ChainIsRun(states, actions, t);
    assert EndsUnasked(states, actions, t, n.uid, build);
  }

  lemma HookedStart(hooked: State, build: int, n: Node, t: Timings, env: Env) returns (s: State)
    requires Fit(n, env.now) && env.image && hooked == Fresh.(hook := true)
    ensures Leading(t)(hooked, DoStart(build, [n], false, env), s) && s == Waiting(build, n, env.now, Sending)
  {
    s := StepLeads(hooked, DoStart(build, [n], false, env), t);
    WaitsForHook(build, n, t, env);
  }

  lemma EarlyReport(s: State, build: int, n: Node, t: Timings, env: Env) returns (d: State)
    requires t.flashMs >= 0 && s == Waiting(build, n, env.now, Sending)
    ensures Leading(t)(s, DoOtaStatus(n.uid, build, SaysDownloading, env), d) &&
      d == Waiting(build, n, env.now, Downloading)
  {
    d := StepLeads(s, DoOtaStatus(n.uid, build, SaysDownloading, env), t);
    ReportsEarly(build, n, t, env);
  }

  lemma HookTooLate(build: int, n: Node, env: Env)
    ensures GrantedUnasked(HookDone(Waiting(build, n, env.now, Downloading), RequestHook(0, 0, 443), true, env), n.uid,
      build)
  {
    var d := Waiting(build, n, env.now, Downloading);
    assert d.active.value.nodes[0].uid == n.uid && Find(d.active.value.nodes, n.uid) == 0;
    assert HookDone(d, RequestHook(0, 0, 443), true, env) == d.(tasks := {}, awaiting := {}, launching := {});
  }
}

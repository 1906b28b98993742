/**
 * How a rollout ends: without a commit hook and with nobody answering, ticks spaced beyond the
 * timeouts finish it; and which finished nodes can still change.
 */
module RolloutProgress {
  import opened Chains
  import opened Wrappers
  import opened Rollout
  import opened RolloutReports
  import opened RolloutSafety

  // ---- the measure -------------------------------------------------------------------

  function Weigh(n: Node): nat { if Terminal(n.state) then 0 else if n.state.Queued? then 2 else 1 }

  function Weight(nodes: seq<Node>): nat {
    if nodes == [] then 0 else Weight(nodes[..|nodes| - 1]) + Weigh(nodes[|nodes| - 1])
  }

  function Gateways(nodes: seq<Node>): set<int> {
    set i | 0 <= i < |nodes| && nodes[i].gateway.Some? :: nodes[i].gateway.value
  }

  /** Work left: two per queued node, one per node in flight, one per gateway not yet asked. */
  function Work(s: State, gs: set<int>): nat
    requires s.active.Some?
  {
    Weight(s.active.value.nodes) + |gs - s.asked.Keys|
  }

  lemma {:induction false} WeightUpdate(nodes: seq<Node>, i: nat, n: Node)
    requires i < |nodes|
    ensures Weight(nodes[i := n]) + Weigh(nodes[i]) == Weight(nodes) + Weigh(n)
  {
    var last := |nodes| - 1;
    if i < last {
      WeightUpdate(nodes[..last], i, n);
      assert nodes[i := n][..last] == nodes[..last][i := n];
    } else {
      assert nodes[i := n][..last] == nodes[..last];
    }
  }

  lemma {:induction false} WeightMonotone(a: seq<Node>, b: seq<Node>)
    requires |a| == |b| && forall i :: 0 <= i < |a| ==> Weigh(b[i]) <= Weigh(a[i])
    ensures Weight(b) <= Weight(a)
    ensures (exists i :: 0 <= i < |a| && Weigh(b[i]) < Weigh(a[i])) ==> Weight(b) < Weight(a)
  {
    if a != [] { WeightMonotone(a[..|a| - 1], b[..|b| - 1]); }
  }

  lemma {:induction false} WeightBound(nodes: seq<Node>)
    ensures Weight(nodes) <= 2 * |nodes|
    ensures |Gateways(nodes)| <= |nodes|
  {
    if nodes == [] {
      assert Gateways(nodes) == {};
    } else {
      var rest, n := nodes[..|nodes| - 1], nodes[|nodes| - 1];
      WeightBound(rest);
      var more := if n.gateway.Some? then {n.gateway.value} else {};
      assert Gateways(nodes) == Gateways(rest) + more by {
        forall g | g in Gateways(rest) ensures g in Gateways(nodes) {
          var i :| 0 <= i < |rest| && rest[i].gateway == Some(g);
          assert nodes[i].gateway == Some(g);
        }
        if n.gateway.Some? { assert nodes[|nodes| - 1].gateway.value in Gateways(nodes); }
      }
    }
  }

  lemma AskShrinks(gs: set<int>, asked: map<int, int>, g: int, now: int)
    requires g in gs && g !in asked
    ensures |gs - asked[g := now].Keys| < |gs - asked.Keys|
  {
    assert gs - asked[g := now].Keys == (gs - asked.Keys) - {g};
  }

  // ---- time ----------------------------------------------------------------------------

  /** The longest of the three timeouts. */
  function Longest(t: Timings): int {
    var a := if t.imageMs > t.flashMs then t.imageMs else t.flashMs;
    if a > t.confirmMs then a else t.confirmMs
  }

  function Since(n: Node): int
    requires n.startedAt.Some?
  {
    if n.updatedAt != 0 then n.updatedAt else n.startedAt.value
  }

  /** Everything recorded for the running rollout happened at least `gap` before `now`. */
  ghost predicate Past(s: State, now: int, gap: int) {
    s.active.Some? &&
    (forall i :: 0 <= i < |s.active.value.nodes| && InFlight(s.active.value.nodes[i]) ==>
      Since(s.active.value.nodes[i]) + gap <= now) &&
    (forall g :: g in s.asked ==> s.asked[g] + gap <= now)
  }

  /** No commit hook is configured and none is pending for the running rollout. */
  ghost predicate Hookless(s: State) {
    s.active.Some? && !s.hook && forall i: nat :: (s.active.value.id, i) !in s.launching
  }

  /** Nothing recorded later than `now`, and only gateways of `gs` to ask. */
  ghost predicate Tidy(s: State, now: int, gs: set<int>) {
    Hookless(s) && Past(s, now, 0) &&
    forall i :: 0 <= i < |s.active.value.nodes| && s.active.value.nodes[i].gateway.Some? ==>
      s.active.value.nodes[i].gateway.value in gs
  }

  /** What dispatching from `s` may lead to at time `now`: less work, or at least not more. */
  ghost predicate Forward(s: State, u: State, now: int, gs: set<int>) {
    SameView(s, u) && Tidy(u, now, gs) && Work(u, gs) <= Work(s, gs)
  }

  lemma PutForward(s: State, i: nat, n: Node, now: int, gs: set<int>)
    requires Tidy(s, now, gs) && i < |s.active.value.nodes|
    requires n.gateway == s.active.value.nodes[i].gateway && Weigh(n) < Weigh(s.active.value.nodes[i])
    requires InFlight(n) ==> Since(n) <= now
    ensures Forward(s, PutNode(s, i, n), now, gs) && Work(PutNode(s, i, n), gs) < Work(s, gs)
  {
    WeightUpdate(s.active.value.nodes, i, n);
  }

  lemma ForwardTrans(s: State, u: State, w: State, now: int, gs: set<int>)
    requires Forward(s, u, now, gs) && Forward(u, w, now, gs)
    ensures Forward(s, w, now, gs)
    ensures Work(u, gs) < Work(s, gs) ==> Work(w, gs) < Work(s, gs)
  {}

  /** Log entries and open tasks carry no work and no time. */
  lemma SameForward(s: State, x: State, u: State, now: int, gs: set<int>)
    requires s.active.Some? && Forward(s, x, now, gs) && Work(x, gs) < Work(s, gs)
    requires u == x.(tasks := u.tasks, log := u.log)
    ensures Forward(s, u, now, gs) && Work(u, gs) < Work(s, gs)
  {}

  /** Asking a gateway leaves one less to ask. */
  lemma AskedForward(s: State, g: int, now: int, gs: set<int>)
    requires Tidy(s, now, gs) && g in gs && g !in s.asked
    ensures var a := s.(asked := s.asked[g := now]); Forward(s, a, now, gs) && Work(a, gs) < Work(s, gs)
  {
    AskShrinks(gs, s.asked, g, now);
  }

  lemma FailForward(a: State, i: nat, now: int, gs: set<int>)
    requires Tidy(a, now, gs) && i < |a.active.value.nodes| && a.active.value.nodes[i].state.Queued?
    ensures Forward(a, Fail(a, i, now), now, gs)
    ensures Work(Fail(a, i, now), gs) < Work(a, gs)
  {
    PutForward(a, i, Set(a.active.value.nodes[i], Failed, now), now, gs);
  }

  /** A push fails the node or leaves it alone. */
  lemma PushForward(s: State, a: State, i: nat, g: int, env: Env, gs: set<int>)
    requires s.active.Some? && Forward(s, a, env.now, gs) && Work(a, gs) < Work(s, gs)
    requires Running(a) && i < |a.active.value.nodes| && a.active.value.nodes[i].state.Queued?
    ensures var u := Push(a, i, g, env); Forward(s, u, env.now, gs) && Work(u, gs) < Work(s, gs)
  {
    if g in env.connected {
      SameForward(s, a, Push(a, i, g, env), env.now, gs);
    } else {
      FailForward(a, i, env.now, gs);
      var x := Fail(a, i, env.now);
      ForwardTrans(s, a, x, env.now, gs);
      SameForward(s, x, Push(a, i, g, env), env.now, gs);
    }
  }

  /** Asking a gateway for the first time, whether or not it is connected. */
  lemma AskForward(s: State, i: nat, g: int, env: Env, gs: set<int>)
    requires Tidy(s, env.now, gs) && Running(s) && i < |s.active.value.nodes|
    requires s.active.value.nodes[i].state.Queued? && s.active.value.nodes[i].gateway == Some(g) && g !in s.asked
    ensures var u := Push(s.(asked := s.asked[g := env.now]), i, g, env);
      Forward(s, u, env.now, gs) && Work(u, gs) < Work(s, gs)
  {
    AskedForward(s, g, env.now, gs);
    PushForward(s, s.(asked := s.asked[g := env.now]), i, g, env, gs);
  }

  /** Asking a node itself. */
  lemma RequestForward(s: State, i: nat, t: Timings, env: Env, gs: set<int>)
    requires Tidy(s, env.now, gs) && Running(s) && i < |s.active.value.nodes| && env.image
    requires var n := s.active.value.nodes[i];
      n.state.Queued? && (n.transport.Direct? || n.gateway.None? || n.gateway.value in s.ready)
    ensures var u := Begin(s, i, t, env); Forward(s, u, env.now, gs) && Work(u, gs) < Work(s, gs)
  {
    var n := s.active.value.nodes[i];
    var x := PutNode(s, i, Set(n, Sending, env.now).(startedAt := Some(env.now)));
    PutForward(s, i, Set(n, Sending, env.now).(startedAt := Some(env.now)), env.now, gs);
    SameForward(s, x, Begin(s, i, t, env), env.now, gs);
  }

  /** One attempt to dispatch a queued node makes progress unless its gateway was just asked. */
  lemma BeginForward(s: State, i: nat, t: Timings, env: Env, gs: set<int>)
    requires Tidy(s, env.now, gs) && Running(s) && i < |s.active.value.nodes|
    requires s.active.value.nodes[i].state.Queued?
    ensures Forward(s, Begin(s, i, t, env), env.now, gs)
    ensures Past(s, env.now, t.imageMs + 1) ==> Work(Begin(s, i, t, env), gs) < Work(s, gs)
  {
    var n := s.active.value.nodes[i];
    var u := Begin(s, i, t, env);
    if !env.image {
      PutForward(s, i, Set(n, Failed, env.now), env.now, gs);
    } else if n.transport.Direct? || n.gateway.None? || n.gateway.value in s.ready {
      RequestForward(s, i, t, env, gs);
    } else if n.gateway.value !in s.asked {
      AskForward(s, i, n.gateway.value, env, gs);
    } else if env.now - s.asked[n.gateway.value] > t.imageMs {
      PutForward(s, i, Set(n, Failed, env.now), env.now, gs);
    } else {
      assert u == s;
    }
  }

  /** A queued node from `i` on. */
  ghost predicate SomeQueued(s: State, i: nat)
    requires s.active.Some?
  {
    exists k :: i <= k < |s.active.value.nodes| && s.active.value.nodes[k].state.Queued?
  }

  lemma StandsStill(s: State, now: int, gs: set<int>)
    requires Tidy(s, now, gs)
    ensures Forward(s, s, now, gs)
  {}

  lemma {:induction false} LaunchForward(s: State, i: nat, inFlight: int, t: Timings, env: Env, gs: set<int>)
    requires Tidy(s, env.now, gs) && s.active.value.stage.Rest? && i <= |s.active.value.nodes|
    ensures Forward(s, Launch(s, i, inFlight, t, env), env.now, gs)
    decreases |s.active.value.nodes| - i
  {
    var u := Launch(s, i, inFlight, t, env);
    assert Forward(s, u, env.now, gs) by {
      if i == |s.active.value.nodes| || inFlight >= t.batch {
        LaunchRests(s, i, inFlight, t, env);
        StandsStill(s, env.now, gs);
      } else if s.active.value.nodes[i].state.Queued? {
        LaunchFirst(s, i, inFlight, t, env, gs);
      } else {
        LaunchForward(s, i + 1, inFlight, t, env, gs);
        LaunchSkips(s, i, inFlight, t, env);
      }
    }
  }

  /** What launching does with a queued node it has room for. */
  lemma LaunchBegins(s: State, i: nat, inFlight: int, t: Timings, env: Env) returns (more: int)
    requires s.active.Some? && i < |s.active.value.nodes| && s.active.value.nodes[i].state.Queued? && inFlight < t.batch
    ensures Launch(s, i, inFlight, t, env) == Launch(Begin(s, i, t, env), i + 1, more, t, env)
  {
    more := if Begin(s, i, t, env).active.value.nodes[i].startedAt.Some? then inFlight + 1 else inFlight;
  }

  lemma LaunchSkips(s: State, i: nat, inFlight: int, t: Timings, env: Env)
    requires s.active.Some? && i < |s.active.value.nodes| && !s.active.value.nodes[i].state.Queued? &&
      inFlight < t.batch
    ensures Launch(s, i, inFlight, t, env) == Launch(s, i + 1, inFlight, t, env)
  {
  }

  lemma LaunchRests(s: State, i: nat, inFlight: int, t: Timings, env: Env)
    requires s.active.Some? && i <= |s.active.value.nodes| && (i == |s.active.value.nodes| || inFlight >= t.batch)
    ensures Launch(s, i, inFlight, t, env) == s
  {
  }

  /** Launching from a queued node, with room for it. */
  lemma {:induction false} LaunchFirst(s: State, i: nat, inFlight: int, t: Timings, env: Env, gs: set<int>)
    requires Tidy(s, env.now, gs) && s.active.value.stage.Rest? && i < |s.active.value.nodes|
    requires s.active.value.nodes[i].state.Queued? && inFlight < t.batch
    ensures Forward(s, Launch(s, i, inFlight, t, env), env.now, gs)
    ensures Past(s, env.now, t.imageMs + 1) ==> Work(Launch(s, i, inFlight, t, env), gs) < Work(s, gs)
    decreases |s.active.value.nodes| - i, 0
  {
    BeginForward(s, i, t, env, gs);
    var u := Begin(s, i, t, env);
    var more := LaunchBegins(s, i, inFlight, t, env);
    LaunchForward(u, i + 1, more, t, env, gs);
    ForwardTrans(s, u, Launch(u, i + 1, more, t, env), env.now, gs);
  }

  lemma {:induction false} LaunchStrict(s: State, i: nat, inFlight: int, t: Timings, env: Env, gs: set<int>)
    requires Tidy(s, env.now, gs) && s.active.value.stage.Rest? && i <= |s.active.value.nodes|
    requires SomeQueued(s, i) && inFlight < t.batch && Past(s, env.now, t.imageMs + 1)
    ensures Work(Launch(s, i, inFlight, t, env), gs) < Work(s, gs)
    decreases |s.active.value.nodes| - i
  {
    if s.active.value.nodes[i].state.Queued? {
      LaunchFirst(s, i, inFlight, t, env, gs);
    } else {
      LaunchStrict(s, i + 1, inFlight, t, env, gs);
    }
  }

  /** Every node in flight is past its deadline, so the tick fails it. */
  lemma ExpireAll(s: State, t: Timings, now: int, gs: set<int>)
    requires Inv(s, t) && Running(s) && Tidy(s, now, gs) && Past(s, now, Longest(t) + 1) && Longest(t) >= 0
    ensures var a := PutNodes(s, Expire(s.active.value.nodes, t, now));
      Forward(s, a, now, gs) && Inv(a, t) && Past(a, now, Longest(t) + 1) && Count(a.active.value.nodes) == 0 &&
      forall i :: 0 <= i < |a.active.value.nodes| ==>
        a.active.value.nodes[i].state.Queued? || Terminal(a.active.value.nodes[i].state)
  {
    var v := s.active.value;
    var nodes := Expire(v.nodes, t, now);
    var a := PutNodes(s, nodes);
    forall i: nat | i < |v.nodes| ensures nodes[i].state.Queued? || Terminal(nodes[i].state) {
      assert NodeSafe(v, i, s.log);
      if InFlight(v.nodes[i]) { assert Since(v.nodes[i]) + Longest(t) + 1 <= now; }
    }
    WeightMonotone(v.nodes, nodes);
    CloseKeeps(s, nodes, t);
    NoneInFlight(a, t);
  }

  lemma {:induction false} CountNone(nodes: seq<Node>)
    requires forall i :: 0 <= i < |nodes| ==> !InFlight(nodes[i])
    ensures Count(nodes) == 0
  {
    if nodes != [] { CountNone(nodes[..|nodes| - 1]); }
  }

  lemma NoneInFlight(a: State, t: Timings)
    requires Inv(a, t) && a.active.Some?
    requires forall i :: 0 <= i < |a.active.value.nodes| ==>
      a.active.value.nodes[i].state.Queued? || Terminal(a.active.value.nodes[i].state)
    ensures Count(a.active.value.nodes) == 0
  {
    forall i: nat | i < |a.active.value.nodes| ensures !InFlight(a.active.value.nodes[i]) {
      assert NodeSafe(a.active.value, i, a.log);
    }
    CountNone(a.active.value.nodes);
  }

  /** Nothing is in flight, so the rest of the rollout moves on or is finished. */
  lemma RestProgress(b: State, t: Timings, env: Env, gs: set<int>)
    requires Tidy(b, env.now, gs) && b.active.value.stage.Rest? && t.batch >= 1
    requires Past(b, env.now, t.imageMs + 1)
    requires |b.active.value.nodes| > 0 && b.active.value.nodes[0].state.Confirmed?
    requires forall i :: 0 <= i < |b.active.value.nodes| ==>
      b.active.value.nodes[i].state.Queued? || Terminal(b.active.value.nodes[i].state)
    ensures var c := Launch(b, 1, 0, t, env);
      Forward(b, c, env.now, gs) && (AllTerminal(c.active.value.nodes) || Work(c, gs) < Work(b, gs))
  {
    LaunchForward(b, 1, 0, t, env, gs);
    if SomeQueued(b, 1) { LaunchStrict(b, 1, 0, t, env, gs); } else { LaunchIdle(b, 1, 0, t, env); }
  }

  /** What a tick may leave once nothing is in flight any more. */
  ghost predicate EndsOrMoves(a: State, c: State, now: int, gs: set<int>)
    requires a.active.Some? && c.active.Some?
  {
    Over(c.active.value.stage) || AllTerminal(c.active.value.nodes) ||
    (c.active.value.id == a.active.value.id && Tidy(c, now, gs) && Work(c, gs) < Work(a, gs))
  }

  /** The part of a tick after the deadlines. */
  lemma PilotOrRest(a: State, t: Timings, env: Env, gs: set<int>)
    requires a.active.Some? && ViewSafe(a.active.value, a.log, t) && Running(a) && Tidy(a, env.now, gs) &&
      Past(a, env.now, t.imageMs + 1)
    requires t.batch >= 1 && Count(a.active.value.nodes) == 0
    requires forall i :: 0 <= i < |a.active.value.nodes| ==>
      a.active.value.nodes[i].state.Queued? || Terminal(a.active.value.nodes[i].state)
    ensures var b := PilotTurn(a, t, env);
      var c := if b.active.value.stage.Rest? then Launch(b, 1, Count(b.active.value.nodes), t, env) else b;
      EndsOrMoves(a, c, env.now, gs)
  {
    var v, b := a.active.value, PilotTurn(a, t, env);
    var c := if b.active.value.stage.Rest? then Launch(b, 1, Count(b.active.value.nodes), t, env) else b;
    assert NodeSafe(v, 0, a.log);
    assert EndsOrMoves(a, c, env.now, gs) by {
      if v.stage.Rest? {
        assert b == a;
        RestProgress(a, t, env, gs);
      } else if v.nodes[0].state.Queued? {
        assert b == Begin(a, 0, t, env);
        BeginForward(a, 0, t, env, gs);
      } else if v.nodes[0].state.Confirmed? && |v.nodes| > 1 {
        assert b == PutStage(a, Rest);
        RestBegins(a, t, env, gs);
      }
    }
  }

  /** A confirmed pilot lets the rest begin. */
  lemma RestBegins(a: State, t: Timings, env: Env, gs: set<int>)
    requires Tidy(a, env.now, gs) && Past(a, env.now, t.imageMs + 1) && t.batch >= 1 && Count(a.active.value.nodes) == 0
    requires |a.active.value.nodes| > 0 && a.active.value.nodes[0].state.Confirmed?
    requires forall i :: 0 <= i < |a.active.value.nodes| ==>
      a.active.value.nodes[i].state.Queued? || Terminal(a.active.value.nodes[i].state)
    ensures EndsOrMoves(a, Launch(PutStage(a, Rest), 1, 0, t, env), env.now, gs)
  {
    var b := PutStage(a, Rest);
    assert Tidy(b, env.now, gs) && Past(b, env.now, t.imageMs + 1) && Work(b, gs) == Work(a, gs);
    RestProgress(b, t, env, gs);
  }

  /** One tick past every deadline ends the rollout or leaves less work. */
  lemma TickProgress(s: State, t: Timings, env: Env, gs: set<int>)
    requires Inv(s, t) && Running(s) && Tidy(s, env.now, gs) && Past(s, env.now, Longest(t) + 1)
    requires Longest(t) >= 0 && t.batch >= 1
    ensures var u := Tick(s, t, env);
      !Running(u) || (Tidy(u, env.now, gs) && Work(u, gs) < Work(s, gs))
  {
    ExpireAll(s, t, env.now, gs);
    var a := PutNodes(s, Expire(s.active.value.nodes, t, env.now));
    PilotOrRest(a, t, env, gs);
  }

  lemma {:induction false} LaunchIdle(s: State, i: nat, inFlight: int, t: Timings, env: Env)
    requires s.active.Some? && i <= |s.active.value.nodes|
    requires forall k :: i <= k < |s.active.value.nodes| ==> !s.active.value.nodes[k].state.Queued?
    ensures Launch(s, i, inFlight, t, env) == s
    decreases |s.active.value.nodes| - i
  {
    if i < |s.active.value.nodes| && inFlight < t.batch { LaunchIdle(s, i + 1, inFlight, t, env); }
  }

  function Ticks(s: State, t: Timings, envs: seq<Env>): State
    decreases |envs|
  {
    if envs == [] then s else Ticks(Tick(s, t, envs[0]), t, envs[1..])
  }

  ghost predicate Spaced(envs: seq<Env>, gap: int) {
    forall i :: 0 < i < |envs| ==> envs[i - 1].now + gap <= envs[i].now
  }

  lemma {:induction false} TicksOver(s: State, t: Timings, envs: seq<Env>)
    requires !Running(s)
    ensures Ticks(s, t, envs) == s
    decreases |envs|
  {
    if envs != [] { TicksOver(s, t, envs[1..]); }
  }

  lemma {:induction false} TicksEnd(s: State, t: Timings, envs: seq<Env>, gs: set<int>)
    requires Inv(s, t) && Running(s) && Longest(t) >= 0 && t.batch >= 1
    requires |envs| > Work(s, gs) && Spaced(envs, Longest(t) + 1)
    requires Tidy(s, envs[0].now, gs) && Past(s, envs[0].now, Longest(t) + 1)
    ensures !Running(Ticks(s, t, envs))
    decreases |envs|
  {
    var u := Tick(s, t, envs[0]);
    TickProgress(s, t, envs[0], gs);
    TickKeeps(s, t, envs[0]);
    if !Running(u) {
      TicksOver(u, t, envs[1..]);
    } else {
      assert forall i :: 0 < i < |envs[1..]| ==> envs[1..][i - 1] == envs[i] && envs[1..][i] == envs[i + 1];
      TicksEnd(u, t, envs[1..], gs);
    }
  }

  /**
   * With no commit hook, no reports and room for at least one node, any rollout a run can reach
   * is done or stopped after three ticks per node and one more, each later than the one before
   * by more than the longest timeout, whatever files and gateways come and go meanwhile.
   */
  lemma RolloutEnds(states: seq<State>, actions: seq<Action>, t: Timings, envs: seq<Env>)
    requires Run(states, actions, t)
    requires var s := states[|actions|];
      Running(s) && Hookless(s) && |envs| > 3 * |s.active.value.nodes| && Past(s, envs[0].now, Longest(t) + 1)
    requires Longest(t) >= 0 && t.batch >= 1 && Spaced(envs, Longest(t) + 1)
    ensures !Running(Ticks(states[|actions|], t, envs))
  {
    var s := states[|actions|];
    Reachable(states, actions, t, |actions|);
    WeightBound(s.active.value.nodes);
    var gs := Gateways(s.active.value.nodes);
    SetLimit(gs, s.asked.Keys);
    TicksEnd(s, t, envs, gs);
  }

  lemma SetLimit(a: set<int>, b: set<int>)
    ensures |a - b| <= |a|
  {
    assert a == (a - b) + (a * b);
  }

  // ---- how much one tick starts --------------------------------------------------------

  /** A queued node that can be asked at once: it fetches for itself, or its gateway is ready. */
  predicate AtOnce(s: State, i: nat)
    requires s.active.Some? && i < |s.active.value.nodes|
  {
    var n := s.active.value.nodes[i];
    n.state.Queued? ==>
      n.startedAt.None? && (s.active.value.id, i) !in s.launching &&
      (n.transport.Direct? || n.gateway.None? || n.gateway.value in s.ready)
  }

  lemma BeginAtOnce(s: State, i: nat, t: Timings, env: Env)
    requires Running(s) && i < |s.active.value.nodes| && env.image
    requires AtOnce(s, i) && s.active.value.nodes[i].state.Queued?
    ensures var u, n := Begin(s, i, t, env),
      Set(s.active.value.nodes[i], Sending, env.now).(startedAt := Some(env.now));
      u.active.value.nodes == s.active.value.nodes[i := n] && u.ready == s.ready &&
      u.launching <= s.launching + {(s.active.value.id, i)} &&
      Count(u.active.value.nodes) == Count(s.active.value.nodes) + 1
  {
    CountUpdate(s.active.value.nodes, i, Set(s.active.value.nodes[i], Sending, env.now).(startedAt := Some(env.now)));
  }

  /** A full batch is in flight, or nobody from node i on is queued. */
  ghost predicate Filled(u: State, i: nat, t: Timings) {
    u.active.Some? &&
    (Count(u.active.value.nodes) >= t.batch ||
     forall k :: i <= k < |u.active.value.nodes| ==> !u.active.value.nodes[k].state.Queued?)
  }

  lemma FilledBefore(u: State, w: State, i: nat, t: Timings)
    requires Spares(u, w) && Filled(w, i + 1, t) && i < |u.active.value.nodes| && !u.active.value.nodes[i].state.Queued?
    ensures Filled(w, i, t)
  {
    assert Spared(u.active.value.nodes[i], w.active.value.nodes[i]);
  }

  lemma BegunAtOnce(s: State, i: nat, t: Timings, env: Env)
    requires Running(s) && i < |s.active.value.nodes| && env.image
    requires s.active.value.nodes[i].state.Queued? && forall k: nat :: i <= k < |s.active.value.nodes| ==> AtOnce(s, k)
    ensures var u := Begin(s, i, t, env);
      Running(u) && |u.active.value.nodes| == |s.active.value.nodes| && !u.active.value.nodes[i].state.Queued? &&
      u.active.value.nodes[i].startedAt.Some? && Count(u.active.value.nodes) == Count(s.active.value.nodes) + 1 &&
      forall k: nat :: i < k < |s.active.value.nodes| ==> AtOnce(u, k)
  {
    var u := Begin(s, i, t, env);
    assert AtOnce(s, i);
    BeginAtOnce(s, i, t, env);
    forall k: nat | i < k < |s.active.value.nodes| ensures AtOnce(u, k) { assert AtOnce(s, k); }
  }

  /**
   * Where every queued node can be asked at once, the launch leaves off only when a full batch is in
   * flight or nobody from node i on is queued.
   */
  lemma {:induction false} LaunchFills(s: State, i: nat, t: Timings, env: Env)
    requires Running(s) && i <= |s.active.value.nodes| && env.image
    requires forall k: nat :: i <= k < |s.active.value.nodes| ==> AtOnce(s, k)
    ensures Filled(Launch(s, i, Count(s.active.value.nodes), t, env), i, t)
    decreases |s.active.value.nodes| - i
  {
    var nodes := s.active.value.nodes;
    if i == |nodes| || Count(nodes) >= t.batch {
      LaunchRests(s, i, Count(nodes), t, env);
    } else if nodes[i].state.Queued? {
      var u := Begin(s, i, t, env);
      BegunAtOnce(s, i, t, env);
      var more := LaunchBegins(s, i, Count(nodes), t, env);
      LaunchFills(u, i + 1, t, env);
      LaunchSpares(u, i + 1, more, t, env);
      FilledBefore(u, Launch(u, i + 1, more, t, env), i, t);
    } else {
      LaunchSkips(s, i, Count(nodes), t, env);
      LaunchFills(s, i + 1, t, env);
      LaunchSpares(s, i + 1, Count(nodes), t, env);
      FilledBefore(s, Launch(s, i + 1, Count(nodes), t, env), i, t);
    }
  }

  // ---- which finished nodes may change ---------------------------------------------------

  /** The same rollout is active, and none of its finished nodes changed state. */
  ghost predicate FinishedKept(s: State, u: State) {
    s.active.Some? && u.active.Some? && u.active.value.id == s.active.value.id &&
    |u.active.value.nodes| == |s.active.value.nodes| &&
    forall i :: 0 <= i < |s.active.value.nodes| && Terminal(s.active.value.nodes[i].state) ==>
      u.active.value.nodes[i].state == s.active.value.nodes[i].state
  }

  lemma TickFinished(s: State, t: Timings, env: Env)
    requires s.active.Some?
    ensures FinishedKept(s, Tick(s, t, env))
  {
    TickSettles(s, t, env);
    var u := Tick(s, t, env);
    forall i | 0 <= i < |s.active.value.nodes| && Terminal(s.active.value.nodes[i].state)
      ensures u.active.value.nodes[i].state == s.active.value.nodes[i].state
    {
      assert Finished(s.active.value.nodes[i], u.active.value.nodes[i]);
    }
  }

  /** The node a report finds is unfinished, so finished ones keep their state. */
  lemma OtaStatusFinished(s: State, uid: int, build: int, r: Report, t: Timings, env: Env)
    requires s.active.Some?
    ensures FinishedKept(s, OtaStatus(s, uid, build, r, t, env))
  {
    var v := s.active.value;
    var k := Find(v.nodes, uid);
    if k < |v.nodes| && !v.stage.Done? && v.nodes[k].startedAt.Some? && !Terminal(v.nodes[k].state) &&
      build == v.build {
      var st := Reported(r);
      var u := if st.Some? then PutNode(s, k, Set(v.nodes[k], st.value, env.now)) else s;
      TickFinished(if st == Some(Confirmed) then Log(u, NodeConfirmed(v.id, k)) else u, t, env);
    }
  }

  lemma ImageReadyFinished(s: State, g: int, build: int, ok: bool, port: int, t: Timings, env: Env)
    requires s.active.Some?
    ensures FinishedKept(s, ImageReady(s, g, build, ok, port, t, env))
  {
    if ok { TickFinished(s.(ready := s.ready[g := port]), t, env); }
    else { TickFinished(PutNodes(s, FailGateway(s.active.value.nodes, g, env.now)), t, env); }
  }

  lemma ReplyFinished(s: State, task: Task, ok: bool, t: Timings, env: Env)
    requires s.active.Some? && task.SendReply?
    ensures FinishedKept(s, SendDone(s, task, ok, t, env))
  {
    var u := s.(tasks := s.tasks - {task}, launching := s.launching - {(task.rollout, task.index)});
    if !ok && Current(u, task.rollout, task.index) && !Terminal(u.active.value.nodes[task.index].state) {
      TickFinished(Fail(u, task.index, env.now), t, env);
    }
  }

  lemma HookFinished(s: State, task: Task, ok: bool, env: Env)
    requires s.active.Some? && !task.SendReply?
    ensures FinishedKept(s, HookDone(s, task, ok, env))
  {}

  lemma StartFinished(s: State, build: int, chosen: seq<Node>, deferDispatch: bool, t: Timings, env: Env)
    requires s.active.Some? && s.active.value.id < s.nextId
    ensures var u := Start(s, build, chosen, deferDispatch, t, env);
      u.active.Some? && u.active.value.id == s.active.value.id ==> u == s
  {
    if !Running(s) && env.image && chosen != [] {
      TickFinished(Start(s, build, chosen, true, t, env), t, env);
    }
  }

  /**
   * A finished node changes state exactly when its rollout is cancelled while the node's own
   * commit hook is still pending, and then it reads as skipped.
   */
  lemma FinishedChangesOnlyOnCancel(s: State, a: Action, t: Timings, i: nat)
    requires Enabled(s, a) && s.active.Some? && i < |s.active.value.nodes| && Terminal(s.active.value.nodes[i].state)
    requires var u := Step(s, a, t); u.active.Some? && u.active.value.id == s.active.value.id
    requires s.active.value.id < s.nextId
    ensures |Step(s, a, t).active.value.nodes| == |s.active.value.nodes|
    ensures Step(s, a, t).active.value.nodes[i].state != s.active.value.nodes[i].state <==>
      a.DoCancel? && Running(s) && (s.active.value.id, i) in s.awaiting && !s.active.value.nodes[i].state.Skipped?
    ensures Step(s, a, t).active.value.nodes[i].state != s.active.value.nodes[i].state ==>
      Step(s, a, t).active.value.nodes[i].state.Skipped?
  {
    match a
    case DoStart(build, chosen, deferDispatch, env) => StartFinished(s, build, chosen, deferDispatch, t, env);
    case DoTick(env) => TickFinished(s, t, env);
    case DoCancel(_) =>
    case DoImageReady(g, build, ok, port, env) => ImageReadyFinished(s, g, build, ok, port, t, env);
    case DoOtaStatus(uid, build, r, env) => OtaStatusFinished(s, uid, build, r, t, env);
    case DoHook(task, ok, env) => HookFinished(s, task, ok, env);
    case DoReply(task, ok, env) => ReplyFinished(s, task, ok, t, env);
    case SetHook(_) =>
  }

  /** A direct node waiting its turn. */
  ghost predicate Waits(n: Node, now: int) {
    n.transport.Direct? && n.gateway.None? && n.state.Queued? && n.startedAt.None? && n.updatedAt == now
  }

  function Sent(n: Node, now: int): Node { Set(n, Sending, now).(startedAt := Some(now)) }

  /** Started with a commit hook: the pilot's request is waiting for it. */
  function PilotWaits(build: int, p: Node, q: Node, now: int): State {
    State(Some(View(0, build, Pilot, [Sent(p, now), q])), 1, map[], map[],
          {(0, 0)}, {(0, 0)}, true, {RequestHook(0, 0, 443)}, [Started(0)])
  }

  lemma WitnessStart(build: int, p: Node, q: Node, t: Timings, env: Env)
    requires Waits(p, env.now) && Waits(q, env.now) && env.image
    ensures Start(Fresh.(hook := true), build, [p, q], false, t, env) == PilotWaits(build, p, q, env.now)
  {
    var s := Fresh.(hook := true);
    var u := Start(s, build, [p, q], true, t, env);
    assert u.active.value.nodes == [p, q];
    assert Expire([p, q], t, env.now) == [p, q];
    var b := Begin(u, 0, t, env);
    assert b.active.value.nodes == [Sent(p, env.now), q];
    assert u.launching + {(0, 0)} == {(0, 0)} && u.tasks + {RequestHook(0, 0, 443)} == {RequestHook(0, 0, 443)};
    assert PilotTurn(u, t, env) == b;
    assert !Terminal(b.active.value.nodes[1].state);
    assert Tick(u, t, env) == Conclude(b) == b;
  }

  /** A tick keeps finished nodes and drops nothing that waits for a hook. */
  lemma {:induction false} LaunchAwaiting(s: State, i: nat, inFlight: int, t: Timings, env: Env)
    requires s.active.Some? && i <= |s.active.value.nodes|
    ensures s.awaiting <= Launch(s, i, inFlight, t, env).awaiting
    decreases |s.active.value.nodes| - i
  {
    if i < |s.active.value.nodes| && inFlight < t.batch {
      if s.active.value.nodes[i].state.Queued? {
        var u := Begin(s, i, t, env);
        LaunchAwaiting(u, i + 1, if u.active.value.nodes[i].startedAt.Some? then inFlight + 1 else inFlight, t, env);
      } else {
        LaunchAwaiting(s, i + 1, inFlight, t, env);
      }
    }
  }

  lemma TickAwaiting(s: State, t: Timings, env: Env)
    ensures s.awaiting <= Tick(s, t, env).awaiting
  {
    if Running(s) && |s.active.value.nodes| > 0 {
      var b := PilotTurn(PutNodes(s, Expire(s.active.value.nodes, t, env.now)), t, env);
      LaunchAwaiting(b, 1, Count(b.active.value.nodes), t, env);
    }
  }

  lemma WitnessConfirm(build: int, p: Node, q: Node, t: Timings, env: Env)
    requires Waits(p, env.now) && Waits(q, env.now) && p.uid != q.uid && env.image
    ensures var u := OtaStatus(PilotWaits(build, p, q, env.now), p.uid, build, SaysConfirmed, t, env);
      u.active.Some? && u.active.value.id == 0 && |u.active.value.nodes| == 2 &&
      u.active.value.nodes[0].state.Confirmed? && (0, 0) in u.awaiting
  {
    var s := PilotWaits(build, p, q, env.now);
    var v := s.active.value;
    assert v.nodes[0].uid == p.uid && Find(v.nodes, p.uid) == 0;
    var a := Log(PutNode(s, 0, Set(v.nodes[0], Confirmed, env.now)), NodeConfirmed(0, 0));
    assert OtaStatus(s, p.uid, build, SaysConfirmed, t, env) == Tick(a, t, env);
    TickFinished(a, t, env);
    TickAwaiting(a, t, env);
  }

  /** Two unfinished nodes: the tick after the pilot confirmed leaves the rollout running. */
  lemma WitnessRuns(build: int, p: Node, q: Node, t: Timings, env: Env)
    requires Waits(p, env.now) && Waits(q, env.now) && p.uid != q.uid && env.image && t.batch >= 1
    ensures Running(OtaStatus(PilotWaits(build, p, q, env.now), p.uid, build, SaysConfirmed, t, env))
  {
    var s := PilotWaits(build, p, q, env.now);
    var v := s.active.value;
    assert v.nodes[0].uid == p.uid && Find(v.nodes, p.uid) == 0;
    var nodes := [Set(Sent(p, env.now), Confirmed, env.now), q];
    var a := Log(PutNodes(s, nodes), NodeConfirmed(0, 0));
    assert v.nodes[0 := Set(v.nodes[0], Confirmed, env.now)] == nodes;
    assert OtaStatus(s, p.uid, build, SaysConfirmed, t, env) == Tick(a, t, env);
    GoesOn(a, t, env);
  }

  /** A tick over a confirmed pilot and one node that waits. */
  lemma GoesOn(a: State, t: Timings, env: Env)
    requires Running(a) && a.active.value.stage.Pilot? && |a.active.value.nodes| == 2 && t.batch >= 1
    requires a.active.value.nodes[0].state.Confirmed? && Waits(a.active.value.nodes[1], env.now)
    requires (a.active.value.id, 1) !in a.launching && env.image
    ensures Running(Tick(a, t, env))
  {
    var nodes, b := a.active.value.nodes, PutStage(a, Rest);
    assert Expire(nodes, t, env.now) == nodes;
    assert PilotTurn(a, t, env) == b;
    CountNone(nodes);
    var c := Begin(b, 1, t, env);
    assert !Terminal(c.active.value.nodes[1].state);
    LaunchEnd(c, 2, if c.active.value.nodes[1].startedAt.Some? then 1 else 0, t, env);
  }

  lemma LaunchEnd(s: State, i: nat, inFlight: int, t: Timings, env: Env)
    requires s.active.Some? && i == |s.active.value.nodes|
    ensures Launch(s, i, inFlight, t, env) == s
  {}

  /** The run ends with a cancel that turns the confirmed first node into a skipped one. */
  ghost predicate EndsSkipped(states: seq<State>, actions: seq<Action>, t: Timings) {
    Run(states, actions, t) && |actions| == 4 && actions[3].DoCancel? &&
    FirstNode(states[3], Confirmed) && FirstNode(states[4], Skipped) && NodeConfirmed(0, 0) in states[4].log
  }

  predicate FirstNode(s: State, st: NodeState) {
    s.active.Some? && s.active.value.id == 0 && |s.active.value.nodes| > 0 && s.active.value.nodes[0].state == st
  }

  /**
   * It does happen: in a run the pilot confirms while its own commit hook is pending, the rollout
   * goes on, is cancelled, and the confirmed pilot reads as skipped.
   */
  lemma ConfirmedThenSkipped(build: int, p: Node, q: Node, t: Timings, env: Env)
    requires Waits(p, env.now) && Waits(q, env.now) && p.uid != q.uid && env.image && t.batch >= 1
    ensures exists states, actions :: EndsSkipped(states, actions, t)
  {
    var hooked, s2, s3, s4 := SkippedSteps(build, p, q, t, env);
    var start, report := DoStart(build, [p, q], false, env), DoOtaStatus(p.uid, build, SaysConfirmed, env);
    SkippedRun(SetHook(true), hooked, start, s2, report, s3, env.now, s4, t);
  }

  lemma SkippedSteps(build: int, p: Node, q: Node, t: Timings, env: Env)
    returns (hooked: State, s2: State, s3: State, s4: State)
    requires Waits(p, env.now) && Waits(q, env.now) && p.uid != q.uid && env.image && t.batch >= 1
    ensures Leading(t)(Fresh, SetHook(true), hooked) && Leading(t)(hooked, DoStart(build, [p, q], false, env), s2)
    ensures Leading(t)(s2, DoOtaStatus(p.uid, build, SaysConfirmed, env), s3) && Leading(t)(s3, DoCancel(env.now), s4)
    ensures FirstNode(s3, Confirmed) && FirstNode(s4, Skipped) && forall ev :: ev in s3.log ==> ev in s4.log
  {
    hooked, s2 := HookedStart(build, p, q, t, env);
    s3, s4 := ConfirmAndCancel(build, p, q, t, env);
  }

  /** Four such steps are such a run. */
  lemma SkippedRun(a0: Action, s1: State, a1: Action, s2: State, a2: Action, s3: State, now: int, s4: State, t: Timings)
    requires Leading(t)(Fresh, a0, s1) && Leading(t)(s1, a1, s2) && Leading(t)(s2, a2, s3) &&
      Leading(t)(s3, DoCancel(now), s4)
    requires FirstNode(s3, Confirmed) && FirstNode(s4, Skipped) && forall ev :: ev in s3.log ==> ev in s4.log
    ensures exists states, actions :: EndsSkipped(states, actions, t)
  {
    var states, actions := [Fresh, s1, s2, s3, s4], [a0, a1, a2, DoCancel(now)];
    Four(Leading(t), states, actions);
    ChainIsRun(states, actions, t);
    ConfirmedIsLogged(states, actions, t);
    assert EndsSkipped(states, actions, t);
  }

  /** The first two steps of the run. */
  lemma HookedStart(build: int, p: Node, q: Node, t: Timings, env: Env) returns (hooked: State, s2: State)
    requires Waits(p, env.now) && Waits(q, env.now) && env.image
    ensures Leading(t)(Fresh, SetHook(true), hooked) && Leading(t)(hooked, DoStart(build, [p, q], false, env), s2)
    ensures s2 == PilotWaits(build, p, q, env.now)
  {
    hooked := StepLeads(Fresh, SetHook(true), t);
    s2 := StepLeads(hooked, DoStart(build, [p, q], false, env), t);
    WitnessStart(build, p, q, t, env);
  }

  /** And the last two. */
  lemma ConfirmAndCancel(build: int, p: Node, q: Node, t: Timings, env: Env) returns (s3: State, s4: State)
    requires Waits(p, env.now) && Waits(q, env.now) && p.uid != q.uid && env.image && t.batch >= 1
    ensures Leading(t)(PilotWaits(build, p, q, env.now), DoOtaStatus(p.uid, build, SaysConfirmed, env), s3)
    ensures Leading(t)(s3, DoCancel(env.now), s4)
    ensures FirstNode(s3, Confirmed) && FirstNode(s4, Skipped) && forall ev :: ev in s3.log ==> ev in s4.log
  {
    WitnessConfirm(build, p, q, t, env);
    WitnessRuns(build, p, q, t, env);
    s3 := StepLeads(PilotWaits(build, p, q, env.now), DoOtaStatus(p.uid, build, SaysConfirmed, env), t);
    s4 := StepLeads(s3, DoCancel(env.now), t);
    CancelSkips(s3, 0, env.now);
  }

  lemma ConfirmedIsLogged(states: seq<State>, actions: seq<Action>, t: Timings)
    requires Run(states, actions, t) && |actions| == 4 && FirstNode(states[3], Confirmed)
    ensures NodeConfirmed(0, 0) in states[3].log
  {
    Reachable(states, actions, t, 3);
    assert NodeSafe(states[3].active.value, 0, states[3].log);
  }

  lemma CancelSkips(s: State, i: nat, now: int)
    requires Running(s) && i < |s.active.value.nodes| && (s.active.value.id, i) in s.awaiting
    ensures var u := Cancel(s, now);
      u.active.Some? && i < |u.active.value.nodes| && u.active.value.nodes[i].state.Skipped? &&
      u.active.value.id == s.active.value.id && forall ev :: ev in s.log ==> ev in u.log
  {}
}

/**
 * What a node's own report does to a rollout (src/edge/rollout.ts:250-330), and what nothing else
 * can do: a node counts as confirmed only because it said so.
 */
module RolloutReports {
  import opened Wrappers
  import opened Rollout
  import opened RolloutSafety

  // ---- what a tick leaves alone ----------------------------------------------------------------------

  /** No confirmation is logged between s and u. */
  ghost predicate Unconfirming(s: State, u: State) {
    forall id: nat, k: nat :: NodeConfirmed(id, k) in u.log ==> NodeConfirmed(id, k) in s.log
  }

  /** Between s and u only queued nodes change. */
  predicate Spares(s: State, u: State) {
    SameRollout(s, u) && forall k :: 0 <= k < |s.active.value.nodes| ==>
      Spared(s.active.value.nodes[k], u.active.value.nodes[k])
  }

  predicate Spared(n: Node, m: Node) { m.uid == n.uid && (n.state.Queued? || m == n) }

  lemma SparesTrans(s: State, u: State, w: State)
    requires Spares(s, u) && Spares(u, w) && Unconfirming(s, u) && Unconfirming(u, w)
    ensures Spares(s, w) && Unconfirming(s, w)
  {
    forall k | 0 <= k < |s.active.value.nodes|
      ensures Spared(s.active.value.nodes[k], w.active.value.nodes[k])
    {
      assert Spared(s.active.value.nodes[k], u.active.value.nodes[k]);
      assert Spared(u.active.value.nodes[k], w.active.value.nodes[k]);
    }
  }

  /** One queued node changes, and keeps its uid. */
  lemma OneSpares(s: State, u: State, i: nat, n: Node)
    requires s.active.Some? && i < |s.active.value.nodes| && s.active.value.nodes[i].state.Queued?
    requires n.uid == s.active.value.nodes[i].uid && u.active == PutNode(s, i, n).active
    ensures Spares(s, u)
  {
  }

  lemma OnceSpares(s: State, i: nat, t: Timings, env: Env)
    requires Running(s) && i < |s.active.value.nodes| && s.active.value.nodes[i].state.Queued?
    ensures var u := BeginOnce(s, i, t, env).0; Spares(s, u) && Unconfirming(s, u)
  {
    var n, u := s.active.value.nodes[i], BeginOnce(s, i, t, env).0;
    assert n == n.(state := Queued);
    OneSpares(s, Fail(s, i, env.now), i, Set(n, Failed, env.now));
    var sending := Set(n, Sending, env.now).(startedAt := Some(env.now));
    OneSpares(s, PutNode(s, i, sending), i, sending);
    assert u.active == s.active || u.active == Fail(s, i, env.now).active || u.active == PutNode(s, i, sending).active;
  }

  lemma BeginSpares(s: State, i: nat, t: Timings, env: Env)
    requires s.active.Some? && i < |s.active.value.nodes|
    ensures var u := Begin(s, i, t, env); Spares(s, u) && Unconfirming(s, u)
  {
    if CanDispatch(s, s.active.value.id, i, Queued) { OnceSpares(s, i, t, env); }
  }

  lemma {:induction false} LaunchSpares(s: State, i: nat, inFlight: int, t: Timings, env: Env)
    requires s.active.Some? && i <= |s.active.value.nodes|
    ensures var u := Launch(s, i, inFlight, t, env); Spares(s, u) && Unconfirming(s, u)
    decreases |s.active.value.nodes| - i
  {
    if i < |s.active.value.nodes| && inFlight < t.batch {
      if s.active.value.nodes[i].state.Queued? {
        var u := Begin(s, i, t, env);
        BeginSpares(s, i, t, env);
        var more := if u.active.value.nodes[i].startedAt.Some? then inFlight + 1 else inFlight;
        LaunchSpares(u, i + 1, more, t, env);
        SparesTrans(s, u, Launch(u, i + 1, more, t, env));
      } else {
        LaunchSpares(s, i + 1, inFlight, t, env);
      }
    }
  }

  /** The running pilot has failed: every other unfinished node is skipped, and the rollout stops. */
  lemma PilotFailedStops(s: State, t: Timings, env: Env)
    requires Running(s) && s.active.value.stage.Pilot? && |s.active.value.nodes| > 0
    requires s.active.value.nodes[0].state.Failed?
    ensures var v, w := s.active.value, Tick(s, t, env).active.value;
      w.stage.Stopped? && |w.nodes| == |v.nodes| && w.nodes[0] == v.nodes[0] &&
      (forall k :: 0 < k < |v.nodes| && Terminal(v.nodes[k].state) ==> w.nodes[k] == v.nodes[k]) &&
      (forall k :: 0 < k < |v.nodes| && !Terminal(v.nodes[k].state) ==>
         w.nodes[k].state.Skipped? || (v.nodes[k].startedAt.Some? && w.nodes[k].state.Failed?))
    ensures Tick(s, t, env).log == s.log + [Ended(s.active.value.id)]
    ensures Tick(s, t, env).tasks == s.tasks && Unconfirming(s, Tick(s, t, env))
  {
    var a := PutNodes(s, Expire(s.active.value.nodes, t, env.now));
    var b := PilotTurn(a, t, env);
    assert b.active.value.stage.Stopped? && Conclude(b) == b;
  }

  lemma TurnSpares(a: State, t: Timings, env: Env)
    requires a.active.Some? && |a.active.value.nodes| > 0
    requires !(a.active.value.stage.Pilot? && a.active.value.nodes[0].state.Failed?)
    ensures Spares(a, PilotTurn(a, t, env)) && Unconfirming(a, PilotTurn(a, t, env))
  {
    if a.active.value.stage.Pilot? && a.active.value.nodes[0].state.Queued? { BeginSpares(a, 0, t, env); }
  }

  lemma RestSpares(b: State, t: Timings, env: Env)
    requires b.active.Some? && |b.active.value.nodes| > 0
    ensures
      var u := Conclude(if b.active.value.stage.Rest? then Launch(b, 1, Count(b.active.value.nodes), t, env) else b);
      Spares(b, u) && Unconfirming(b, u)
  {
    if b.active.value.stage.Rest? { LaunchSpares(b, 1, Count(b.active.value.nodes), t, env); }
    var c := if b.active.value.stage.Rest? then Launch(b, 1, Count(b.active.value.nodes), t, env) else b;
    assert Spares(b, c) && Unconfirming(b, c);
    assert Conclude(c).active.value.nodes == c.active.value.nodes && Unconfirming(c, Conclude(c));
  }

  /** Otherwise a tick times out what is stuck, and after that changes queued nodes alone. */
  lemma TickSpares(s: State, t: Timings, env: Env)
    requires Running(s)
    requires var a := PutNodes(s, Expire(s.active.value.nodes, t, env.now));
      |a.active.value.nodes| > 0 ==> !(a.active.value.stage.Pilot? && a.active.value.nodes[0].state.Failed?)
    ensures var a, u := PutNodes(s, Expire(s.active.value.nodes, t, env.now)), Tick(s, t, env);
      Spares(a, u) && Unconfirming(s, u)
  {
    var a := PutNodes(s, Expire(s.active.value.nodes, t, env.now));
    if |a.active.value.nodes| > 0 {
      TurnSpares(a, t, env);
      RestSpares(PilotTurn(a, t, env), t, env);
      SparesTrans(a, PilotTurn(a, t, env), Tick(s, t, env));
    }
  }

  /** Whatever a tick does, it confirms nobody, and finished nodes stay as they are. */
  ghost predicate Settled(s: State, u: State) {
    SameRollout(s, u) && Unconfirming(s, u) &&
    forall k :: 0 <= k < |s.active.value.nodes| ==> Finished(s.active.value.nodes[k], u.active.value.nodes[k])
  }

  predicate Finished(n: Node, m: Node) { m.uid == n.uid && (Terminal(n.state) ==> m == n) }

  lemma TickSettles(s: State, t: Timings, env: Env)
    requires s.active.Some?
    ensures Settled(s, Tick(s, t, env))
  {
    var u := Tick(s, t, env);
    if Running(s) && |s.active.value.nodes| > 0 {
      var a := PutNodes(s, Expire(s.active.value.nodes, t, env.now));
      if a.active.value.stage.Pilot? && a.active.value.nodes[0].state.Failed? {
        StopSettles(a, env);
        assert Conclude(PilotTurn(a, t, env)) == PilotTurn(a, t, env);
        forall k | 0 <= k < |s.active.value.nodes|
          ensures Finished(s.active.value.nodes[k], u.active.value.nodes[k])
        {
          assert Finished(a.active.value.nodes[k], u.active.value.nodes[k]);
        }
      } else {
        TickSpares(s, t, env);
        forall k | 0 <= k < |s.active.value.nodes|
          ensures Finished(s.active.value.nodes[k], u.active.value.nodes[k])
        {
          assert Spared(a.active.value.nodes[k], u.active.value.nodes[k]);
        }
      }
    }
  }

  lemma StopSettles(a: State, env: Env)
    requires a.active.Some?
    ensures Settled(a, Log(PutStage(PutNodes(a, SkipRest(a.active.value.nodes, env.now)), Stopped),
      Ended(a.active.value.id)))
  {
  }

  /** A tick that finds a rollout running leaves it done exactly when every node is finished and it did not stop. */
  lemma DoneIff(s: State, t: Timings, env: Env)
    requires Running(s) && |s.active.value.nodes| > 0
    ensures SameRollout(s, Tick(s, t, env))
    ensures var v := Tick(s, t, env).active.value;
      v.stage.Done? <==> !v.stage.Stopped? && forall k :: 0 <= k < |v.nodes| ==> Terminal(v.nodes[k].state)
    ensures var u := Tick(s, t, env); Over(u.active.value.stage) ==> Ended(s.active.value.id) in u.log
  {
    var a := PutNodes(s, Expire(s.active.value.nodes, t, env.now));
    var b := PilotTurn(a, t, env);
    TickKeepsView(s, t, env);
    if b.active.value.stage.Rest? { LaunchLogs(b, 1, Count(b.active.value.nodes), t, env); }
  }

  lemma FailedStays(s: State, i: nat, t: Timings, env: Env)
    requires s.active.Some? && i < |s.active.value.nodes| && Terminal(s.active.value.nodes[i].state)
    ensures SameRollout(s, Tick(s, t, env)) && Tick(s, t, env).active.value.nodes[i] == s.active.value.nodes[i]
  {
    TickSettles(s, t, env);
    assert Finished(s.active.value.nodes[i], Tick(s, t, env).active.value.nodes[i]);
  }

  lemma GatewayStaysFailed(nodes: seq<Node>, g: int, s: State, t: Timings, env: Env)
    requires s.active.Some? && s.active.value.nodes == FailGateway(nodes, g, env.now)
    ensures SameRollout(s, Tick(s, t, env))
    ensures forall k :: 0 <= k < |nodes| && nodes[k].gateway == Some(g) && !Terminal(nodes[k].state) ==>
      Tick(s, t, env).active.value.nodes[k].state.Failed?
  {
    TickSettles(s, t, env);
    forall k: nat | k < |nodes| && nodes[k].gateway == Some(g) && !Terminal(nodes[k].state)
      ensures Tick(s, t, env).active.value.nodes[k].state.Failed?
    {
      assert Finished(s.active.value.nodes[k], Tick(s, t, env).active.value.nodes[k]);
    }
  }

  // ---- one report ------------------------------------------------------------------------------------

  /** Node i is the first with this uid, has been asked, is not finished, and speaks of this image. */
  predicate Matches(s: State, i: nat, uid: int, build: int) {
    s.active.Some? && i < |s.active.value.nodes| && s.active.value.nodes[i].uid == uid &&
    (forall k :: 0 <= k < i ==> s.active.value.nodes[k].uid != uid) &&
    !s.active.value.stage.Done? && s.active.value.build == build &&
    s.active.value.nodes[i].startedAt.Some? && !s.active.value.nodes[i].state.Confirmed? &&
    !s.active.value.nodes[i].state.Failed? && !s.active.value.nodes[i].state.Skipped?
  }

  lemma MatchIsFound(s: State, i: nat, uid: int, build: int)
    requires Matches(s, i, uid, build)
    ensures Find(s.active.value.nodes, uid) == i
  {
    var j := Find(s.active.value.nodes, uid);
    assert !(j < i);
  }

  /** A report that matches no node changes nothing at all. */
  lemma StaleIsIgnored(s: State, uid: int, build: int, r: Report, t: Timings, env: Env)
    requires forall i: nat :: !Matches(s, i, uid, build)
    ensures OtaStatus(s, uid, build, r, t, env) == s
  {
    if s.active.Some? { assert !Matches(s, Find(s.active.value.nodes, uid), uid, build); }
  }

  /** The image is running: the node counts as confirmed, and the log says so. */
  lemma ConfirmedIs(s: State, i: nat, uid: int, build: int, t: Timings, env: Env)
    requires Matches(s, i, uid, build)
    ensures var u := OtaStatus(s, uid, build, SaysConfirmed, t, env);
      SameRollout(s, u) && u.active.value.nodes[i].state.Confirmed? && u.active.value.nodes[i].updatedAt == env.now &&
      NodeConfirmed(s.active.value.id, i) in u.log
    ensures var u := OtaStatus(s, uid, build, SaysConfirmed, t, env);
      i == 0 && s.active.value.stage.Pilot? ==> u.active.value.stage.Rest? || u.active.value.stage.Done?
  {
    MatchIsFound(s, i, uid, build);
    var v := s.active.value;
    var a := Log(PutNode(s, i, Set(v.nodes[i], Confirmed, env.now)), NodeConfirmed(v.id, i));
    assert OtaStatus(s, uid, build, SaysConfirmed, t, env) == Tick(a, t, env);
    assert a.log[|s.log|] == NodeConfirmed(v.id, i);
    TickSettles(a, t, env);
    TickLogs(a, t, env);
    if i == 0 && v.stage.Pilot? { ConfirmedPilotAdvances(a, t, env); }
    assert Finished(a.active.value.nodes[i], Tick(a, t, env).active.value.nodes[i]);
  }

  lemma OnceLogs(s: State, i: nat, t: Timings, env: Env)
    requires Running(s) && i < |s.active.value.nodes|
    ensures s.log <= BeginOnce(s, i, t, env).0.log
  {
  }

  lemma BeginLogs(s: State, i: nat, t: Timings, env: Env)
    requires s.active.Some? && i < |s.active.value.nodes|
    ensures s.log <= Begin(s, i, t, env).log
  {
    if CanDispatch(s, s.active.value.id, i, Queued) { OnceLogs(s, i, t, env); }
  }

  lemma {:induction false} LaunchLogs(s: State, i: nat, inFlight: int, t: Timings, env: Env)
    requires s.active.Some? && i <= |s.active.value.nodes|
    ensures s.log <= Launch(s, i, inFlight, t, env).log
    ensures Launch(s, i, inFlight, t, env).active.value.stage == s.active.value.stage
    decreases |s.active.value.nodes| - i
  {
    if i < |s.active.value.nodes| && inFlight < t.batch {
      if s.active.value.nodes[i].state.Queued? {
        var u := Begin(s, i, t, env);
        BeginLogs(s, i, t, env);
        LaunchLogs(u, i + 1, if u.active.value.nodes[i].startedAt.Some? then inFlight + 1 else inFlight, t, env);
      } else {
        LaunchLogs(s, i + 1, inFlight, t, env);
      }
    }
  }

  /** The log only grows over a tick. */
  lemma TickLogs(s: State, t: Timings, env: Env)
    requires s.active.Some?
    ensures s.log <= Tick(s, t, env).log
  {
    if Running(s) && |s.active.value.nodes| > 0 {
      var a := PutNodes(s, Expire(s.active.value.nodes, t, env.now));
      var b := PilotTurn(a, t, env);
      assert a.log <= b.log by {
        if a.active.value.stage.Pilot? && a.active.value.nodes[0].state.Queued? { BeginLogs(a, 0, t, env); }
      }
      if b.active.value.stage.Rest? { LaunchLogs(b, 1, Count(b.active.value.nodes), t, env); }
    }
  }

  lemma ConfirmedPilotAdvances(s: State, t: Timings, env: Env)
    requires s.active.Some? && s.active.value.stage.Pilot? && |s.active.value.nodes| > 0
    requires s.active.value.nodes[0].state.Confirmed?
    ensures var st := Tick(s, t, env).active.value.stage; st.Rest? || st.Done?
  {
    var a := PutNodes(s, Expire(s.active.value.nodes, t, env.now));
    var b := PilotTurn(a, t, env);
    if b.active.value.stage.Rest? { LaunchLogs(b, 1, Count(b.active.value.nodes), t, env); }
  }

  /** The node went back, or gave up: it has failed, and no confirmation is logged. */
  lemma FailedIs(s: State, i: nat, uid: int, build: int, r: Report, t: Timings, env: Env)
    requires Matches(s, i, uid, build) && (r.SaysReverted? || r.SaysFailed?)
    ensures var u := OtaStatus(s, uid, build, r, t, env);
      SameRollout(s, u) && u.active.value.nodes[i].state.Failed? && Unconfirming(s, u)
  {
    MatchIsFound(s, i, uid, build);
    var a := PutNode(s, i, Set(s.active.value.nodes[i], Failed, env.now));
    assert OtaStatus(s, uid, build, r, t, env) == Tick(a, t, env);
    TickSettles(a, t, env);
    assert Finished(a.active.value.nodes[i], Tick(a, t, env).active.value.nodes[i]);
  }

  /** And when that node is the running pilot, nobody else is touched: the rollout stops on the spot. */
  lemma PilotFailureStops(s: State, uid: int, build: int, r: Report, t: Timings, env: Env)
    requires Inv(s, t) && Matches(s, 0, uid, build) && s.active.value.stage.Pilot? && (r.SaysReverted? || r.SaysFailed?)
    ensures var v, u := s.active.value, OtaStatus(s, uid, build, r, t, env);
      SameRollout(s, u) && u.active.value.stage.Stopped? && u.active.value.nodes[0].state.Failed? &&
      (forall k :: 0 < k < |v.nodes| && !Terminal(v.nodes[k].state) ==> u.active.value.nodes[k].state.Skipped?) &&
      (forall k :: 0 < k < |v.nodes| && Terminal(v.nodes[k].state) ==> u.active.value.nodes[k] == v.nodes[k]) &&
      u.log == s.log + [Ended(v.id)] && u.tasks == s.tasks
  {
    MatchIsFound(s, 0, uid, build);
    var v := s.active.value;
    var a := PutNode(s, 0, Set(v.nodes[0], Failed, env.now));
    assert OtaStatus(s, uid, build, r, t, env) == Tick(a, t, env);
    PilotFailedStops(a, t, env);
    FailedIs(s, 0, uid, build, r, t, env);
    forall k: nat | 0 < k < |v.nodes| ensures v.nodes[k].startedAt.None? { assert NodeSafe(v, k, s.log); }
  }

  /** What a matching report leaves behind, said node by node. */
  ghost predicate Heard(s: State, i: nat, r: Report, u: State)
    requires s.active.Some? && i < |s.active.value.nodes|
  {
    var v := s.active.value;
    SameRollout(s, u) &&
    (r.SaysReverted? || r.SaysFailed? ==> u.active.value.nodes[i].state.Failed? && Unconfirming(s, u)) &&
    (r.SaysConfirmed? ==> u.active.value.nodes[i].state.Confirmed? && NodeConfirmed(v.id, i) in u.log) &&
    (v.stage.Pilot? && i == 0 && r.SaysConfirmed? ==> u.active.value.stage.Rest? || u.active.value.stage.Done?) &&
    (v.stage.Pilot? && i == 0 && (r.SaysReverted? || r.SaysFailed?) ==>
       u.active.value.stage.Stopped? && u.log == s.log + [Ended(v.id)] && u.tasks == s.tasks &&
       forall k :: 0 < k < |v.nodes| ==> Spurned(v.nodes[k], u.active.value.nodes[k]))
  }

  /** Skipped, unless it had started, or was finished already. */
  predicate Spurned(n: Node, m: Node) {
    (Terminal(n.state) ==> m == n) &&
    (!Terminal(n.state) ==> m.state.Skipped? || (n.startedAt.Some? && m.state.Failed?))
  }

  lemma FailureHeard(s: State, i: nat, uid: int, build: int, r: Report, t: Timings, env: Env)
    requires Matches(s, i, uid, build) && (r.SaysReverted? || r.SaysFailed?)
    ensures Heard(s, i, r, OtaStatus(s, uid, build, r, t, env))
  {
    FailedIs(s, i, uid, build, r, t, env);
    if s.active.value.stage.Pilot? && i == 0 {
      MatchIsFound(s, 0, uid, build);
      PilotFailedStops(PutNode(s, 0, Set(s.active.value.nodes[0], Failed, env.now)), t, env);
    }
  }

  lemma ReportIs(s: State, i: nat, uid: int, build: int, r: Report, t: Timings, env: Env)
    requires Matches(s, i, uid, build)
    ensures Heard(s, i, r, OtaStatus(s, uid, build, r, t, env))
  {
    if r.SaysConfirmed? {
      ConfirmedIs(s, i, uid, build, t, env);
    } else if r.SaysReverted? || r.SaysFailed? {
      FailureHeard(s, i, uid, build, r, t, env);
    } else {
      MatchIsFound(s, i, uid, build);
      OtherHeard(s, i, Reported(r), t, env);
    }
  }

  lemma ReportsAre(s: State, uid: int, build: int, r: Report, t: Timings, env: Env)
    ensures var u := OtaStatus(s, uid, build, r, t, env);
      ((forall i: nat :: !Matches(s, i, uid, build)) ==> u == s) &&
      forall i: nat :: Matches(s, i, uid, build) ==> Heard(s, i, r, u)
  {
    if forall i: nat :: !Matches(s, i, uid, build) { StaleIsIgnored(s, uid, build, r, t, env); }
    forall i: nat | Matches(s, i, uid, build) ensures Heard(s, i, r, OtaStatus(s, uid, build, r, t, env)) {
      ReportIs(s, i, uid, build, r, t, env);
    }
  }

  lemma OtherHeard(s: State, i: nat, st: Option<NodeState>, t: Timings, env: Env)
    requires s.active.Some? && i < |s.active.value.nodes|
    ensures SameRollout(s,
      Tick(if st.Some? then PutNode(s, i, Set(s.active.value.nodes[i], st.value, env.now)) else s, t, env))
  {
    TickSettles(if st.Some? then PutNode(s, i, Set(s.active.value.nodes[i], st.value, env.now)) else s, t, env);
  }

  /** The state a progress report names. */
  predicate Reaches(r: Report, st: NodeState) {
    (r.SaysDownloading? && st.Downloading?) || (r.SaysVerifying? && st.Verifying?) ||
    (r.SaysApplying? && st.Applying?) || (r.SaysRebooting? && st.Rebooting?)
  }

  /** Progress puts the node, and only that node's place in line, where it says it is. */
  lemma ProgressIs(s: State, i: nat, uid: int, build: int, r: Report, st: NodeState, t: Timings, env: Env)
    requires Matches(s, i, uid, build) && Reaches(r, st)
    requires s.active.value.stage.Pilot? ==> i == 0
    requires t.flashMs >= 0 && t.confirmMs >= 0 && env.now != 0
    ensures var u := OtaStatus(s, uid, build, r, t, env);
      SameRollout(s, u) && Unconfirming(s, u) &&
      u.active.value.nodes[i] == s.active.value.nodes[i].(state := st, updatedAt := env.now)
  {
    MatchIsFound(s, i, uid, build);
    var n := Set(s.active.value.nodes[i], st, env.now);
    var a := PutNode(s, i, n);
    assert OtaStatus(s, uid, build, r, t, env) == Tick(a, t, env);
    TickSettles(a, t, env);
    if Running(a) {
      var b := PutNodes(a, Expire(a.active.value.nodes, t, env.now));
      assert b.active.value.nodes[i] == TimedOut(n, t, env.now) == n;
      TickSpares(a, t, env);
      assert Spared(b.active.value.nodes[i], Tick(a, t, env).active.value.nodes[i]);
    }
  }

  // ---- confirmations over whole runs -----------------------------------------------------------------

  /** Action a, in s, is node k's own report that the rollout's image runs. */
  ghost predicate ConfirmsNode(s: State, a: Action, id: nat, k: nat) {
    a.DoOtaStatus? && a.report.SaysConfirmed? && Matches(s, k, a.uid, a.build) && s.active.value.id == id
  }

  lemma ReportConfirms(s: State, a: Action, t: Timings, id: nat, k: nat)
    requires a.DoOtaStatus? && NodeConfirmed(id, k) !in s.log && NodeConfirmed(id, k) in Step(s, a, t).log
    ensures ConfirmsNode(s, a, id, k)
  {
    var i := if s.active.Some? then Find(s.active.value.nodes, a.uid) else 0;
    if Matches(s, i, a.uid, a.build) {
      var st := Reported(a.report);
      var u := if st.Some? then PutNode(s, i, Set(s.active.value.nodes[i], st.value, a.env.now)) else s;
      var v := if st == Some(Confirmed) then Log(u, NodeConfirmed(s.active.value.id, i)) else u;
      assert Step(s, a, t) == Tick(v, t, a.env);
      TickSettles(v, t, a.env);
    }
  }

  lemma OthersConfirmNobody(s: State, a: Action, t: Timings)
    requires Enabled(s, a) && !a.DoOtaStatus?
    ensures Unconfirming(s, Step(s, a, t))
  {
    match a
    case DoStart(build, chosen, deferDispatch, env) =>
      var u := Begun(s, build, chosen, env.now);
      TickSettles(u, t, env);
    case DoTick(env) => if s.active.Some? { TickSettles(s, t, env); }
    case DoImageReady(g, build, ok, port, env) =>
      if s.active.Some? {
        TickSettles(s.(ready := s.ready[g := port]), t, env);
        TickSettles(PutNodes(s, FailGateway(s.active.value.nodes, g, env.now)), t, env);
      }
    case DoReply(task, ok, env) =>
      var u := s.(tasks := s.tasks - {task}, launching := s.launching - {(task.rollout, task.index)});
      if Current(u, task.rollout, task.index) { TickSettles(Fail(u, task.index, env.now), t, env); }
    case _ =>
  }

  lemma NewConfirmation(s: State, a: Action, t: Timings, id: nat, k: nat)
    requires Enabled(s, a) && NodeConfirmed(id, k) !in s.log && NodeConfirmed(id, k) in Step(s, a, t).log
    ensures ConfirmsNode(s, a, id, k)
  {
    if a.DoOtaStatus? { ReportConfirms(s, a, t, id, k); } else { OthersConfirmNobody(s, a, t); }
  }

  /**
   * Over every run a node is on record as confirmed only because it said so itself: at some earlier
   * step it reported, under its own uid and for this rollout's image, that the image runs.
   */
  lemma {:induction false} ConfirmedIsReported(
      states: seq<State>, actions: seq<Action>, t: Timings, j: nat, id: nat, k: nat) returns (m: nat)
    requires Run(states, actions, t) && j < |states| && NodeConfirmed(id, k) in states[j].log
    ensures m < j && ConfirmsNode(states[m], actions[m], id, k)
  {
    m := j - 1;
    assert Enabled(states[m], actions[m]) && states[j] == Step(states[m], actions[m], t);
    if NodeConfirmed(id, k) in states[m].log {
      m := ConfirmedIsReported(states, actions, t, m, id, k);
    } else {
      NewConfirmation(states[m], actions[m], t, id, k);
    }
  }

  /** In every reachable state, too: whoever is shown as confirmed has said so. */
  lemma ConfirmedNodeReported(states: seq<State>, actions: seq<Action>, t: Timings, j: nat, k: nat) returns (m: nat)
    requires Run(states, actions, t) && j < |states| && states[j].active.Some? && k < |states[j].active.value.nodes|
    requires states[j].active.value.nodes[k].state.Confirmed?
    ensures m < j && ConfirmsNode(states[m], actions[m], states[j].active.value.id, k)
  {
    Reachable(states, actions, t, j);
    assert NodeSafe(states[j].active.value, k, states[j].log);
    m := ConfirmedIsReported(states, actions, t, j, states[j].active.value.id, k);
  }

  /** So no node but the first is ever asked, or has an image pushed for it, before the first has said so. */
  lemma OthersWaitForThePilot(states: seq<State>, actions: seq<Action>, t: Timings, j: nat, ev: Event)
      returns (m: nat)
    requires Run(states, actions, t) && j < |states| && Dispatch(ev) && ev.index > 0 && ev in states[j].log
    ensures m < j && ConfirmsNode(states[m], actions[m], ev.rollout, 0)
  {
    Reachable(states, actions, t, j);
    var log := states[j].log;
    var n :| 0 <= n < |log| && log[n] == ev;
    assert Justified(log[..n], log[n]);
    m := ConfirmedIsReported(states, actions, t, j, ev.rollout, 0);
  }
}

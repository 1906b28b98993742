/**
 * Staged firmware rollout (src/edge/rollout.ts).
 *
 * One node goes first and has to confirm the new image before any other node is touched.
 * Each `await` inside begin/request splits the dispatch into a step before it and one after
 * it; the steps that are still owed are the `tasks`. A rollout is identified by a number the
 * way the program identifies it by object, and a node by its index in its rollout.
 */
module Rollout {
  import opened Wrappers

  datatype NodeState =
    | Queued | Sending | Downloading | Verifying | Applying | Rebooting
    | Confirmed | Failed | Skipped

  datatype Transport = Udp | Gateway | Direct

  datatype Node = Node(
    uid: int, gateway: Option<int>, transport: Transport,
    state: NodeState, startedAt: Option<int>, updatedAt: int)

  datatype Stage = Pilot | Rest | Done | Stopped

  datatype View = View(id: nat, build: int, stage: Stage, nodes: seq<Node>)

  /** What is still owed by a dispatch that is waiting. */
  datatype Task =
    | ImageHook(rollout: nat, index: nat, gateway: int)  // commit hook, then push the image
    | RequestHook(rollout: nat, index: nat, port: int)   // commit hook, then send the request
    | SendReply(rollout: nat, index: nat)                // the request is on its way

  datatype Event =
    | Started(rollout: nat)
    | ImagePushed(rollout: nat, index: nat, gateway: int)
    | OtaSent(rollout: nat, index: nat, port: int)
    | NodeConfirmed(rollout: nat, index: nat)
    | Ended(rollout: nat)

  datatype Timings = Timings(imageMs: int, flashMs: int, confirmMs: int, batch: int, directPort: int)

  /** One clock reading, whether the image file is still there, and which gateways answer. */
  datatype Env = Env(now: int, image: bool, connected: set<int>)

  /** What a node says about the update, once its image id has been matched. */
  datatype Report = SaysDownloading | SaysVerifying | SaysApplying | SaysRebooting
                  | SaysConfirmed | SaysReverted | SaysFailed | SaysOther

  datatype State = State(
    active: Option<View>, nextId: nat,
    ready: map<int, int>, asked: map<int, int>,
    launching: set<(nat, nat)>, awaiting: set<(nat, nat)>,
    hook: bool, tasks: set<Task>, log: seq<Event>)

  const Fresh := State(None, 0, map[], map[], {}, {}, false, {}, [])

  predicate Terminal(s: NodeState) { s.Confirmed? || s.Failed? || s.Skipped? }

  predicate Over(st: Stage) { st.Done? || st.Stopped? }

  predicate Running(s: State) { s.active.Some? && !Over(s.active.value.stage) }

  /** isCurrentNode: the rollout is the active one and still running. */
  predicate Current(s: State, id: nat, i: nat) {
    Running(s) && s.active.value.id == id && i < |s.active.value.nodes|
  }

  predicate CanDispatch(s: State, id: nat, i: nat, st: NodeState) {
    Current(s, id, i) && s.active.value.nodes[i].state == st
  }

  predicate InFlight(n: Node) { !Terminal(n.state) && n.startedAt.Some? }

  function Count(nodes: seq<Node>): nat {
    if nodes == [] then 0
    else Count(nodes[..|nodes| - 1]) + (if InFlight(nodes[|nodes| - 1]) then 1 else 0)
  }

  function Set(n: Node, st: NodeState, now: int): Node { n.(state := st, updatedAt := now) }

  function PutNodes(s: State, nodes: seq<Node>): State
    requires s.active.Some?
  {
    s.(active := Some(s.active.value.(nodes := nodes)))
  }

  function PutNode(s: State, i: nat, n: Node): State
    requires s.active.Some? && i < |s.active.value.nodes|
  {
    PutNodes(s, s.active.value.nodes[i := n])
  }

  function Fail(s: State, i: nat, now: int): State
    requires s.active.Some? && i < |s.active.value.nodes|
  {
    PutNode(s, i, Set(s.active.value.nodes[i], Failed, now))
  }

  function Log(s: State, ev: Event): State { s.(log := s.log + [ev]) }

  // ---- dispatch ------------------------------------------------------------------

  /** The call to sendOta. */
  function Send(s: State, id: nat, i: nat, port: int): State {
    Log(s.(tasks := s.tasks + {SendReply(id, i)}), OtaSent(id, i, port))
  }

  /** request(), up to its first await. */
  function Request(s: State, i: nat, port: int, now: int): State
    requires Running(s) && i < |s.active.value.nodes|
  {
    var v := s.active.value;
    var t := PutNode(s, i, Set(v.nodes[i], Sending, now).(startedAt := Some(now)));
    if s.hook then t.(awaiting := t.awaiting + {(v.id, i)}, tasks := t.tasks + {RequestHook(v.id, i, port)})
    else Send(t, v.id, i, port)
  }

  /** Push the image to the node's gateway; a gateway that is not connected fails the node. */
  function Push(s: State, i: nat, gateway: int, env: Env): State
    requires Running(s) && i < |s.active.value.nodes|
  {
    var t := Log(s, ImagePushed(s.active.value.id, i, gateway));
    if gateway in env.connected then t else Fail(t, i, env.now)
  }

  /** beginOnce(), up to its first await; the flag says whether a task is left waiting. */
  function BeginOnce(s: State, i: nat, t: Timings, env: Env): (State, bool)
    requires Running(s) && i < |s.active.value.nodes|
  {
    var v := s.active.value;
    var n := v.nodes[i];
    if !env.image then (Fail(s, i, env.now), false)
    else if n.transport.Direct? then (Request(s, i, 443, env.now), true)
    else if n.gateway.None? then (Request(s, i, t.directPort, env.now), true)
    else
      var g := n.gateway.value;
      if g in s.ready then (Request(s, i, s.ready[g], env.now), true)
      else if g !in s.asked then
        var u := s.(asked := s.asked[g := env.now]);
        if s.hook then (u.(tasks := u.tasks + {ImageHook(v.id, i, g)}), true) else (Push(u, i, g, env), false)
      else if env.now - s.asked[g] > t.imageMs then (Fail(s, i, env.now), false)
      else (s, false)
  }

  /** Dispatching changes the state of nodes, never which rollout is active. */
  predicate SameView(s: State, u: State) {
    s.active.Some? && u.active.Some? &&
    u.active.value == s.active.value.(nodes := u.active.value.nodes) &&
    |u.active.value.nodes| == |s.active.value.nodes|
  }

  function Begin(s: State, i: nat, t: Timings, env: Env): (u: State)
    requires s.active.Some? && i < |s.active.value.nodes|
    ensures SameView(s, u)
  {
    var id := s.active.value.id;
    if !CanDispatch(s, id, i, Queued) || (id, i) in s.launching then s
    else
      var (u, waiting) := BeginOnce(s, i, t, env);
      if s.hook && waiting then u.(launching := u.launching + {(id, i)}) else u
  }

  // ---- tick ----------------------------------------------------------------------

  function TimedOut(n: Node, t: Timings, now: int): Node {
    if Terminal(n.state) || n.startedAt.None? then n
    else
      var since := if n.updatedAt != 0 then n.updatedAt else n.startedAt.value;
      if now - since > (if n.state.Rebooting? then t.confirmMs else t.flashMs) then Set(n, Failed, now) else n
  }

  function Expire(nodes: seq<Node>, t: Timings, now: int): seq<Node> {
    seq(|nodes|, i requires 0 <= i < |nodes| => TimedOut(nodes[i], t, now))
  }

  function SkipRest(nodes: seq<Node>, now: int): seq<Node> {
    seq(|nodes|, i requires 0 <= i < |nodes| =>
      if i > 0 && !Terminal(nodes[i].state) then Set(nodes[i], Skipped, now) else nodes[i])
  }

  function PutStage(s: State, st: Stage): State
    requires s.active.Some?
  {
    s.(active := Some(s.active.value.(stage := st)))
  }

  /** The pilot decides: go on, stop, or wait. */
  function PilotTurn(s: State, t: Timings, env: Env): State
    requires s.active.Some? && |s.active.value.nodes| > 0
  {
    var v := s.active.value;
    if !v.stage.Pilot? then s
    else match v.nodes[0].state
      case Queued => Begin(s, 0, t, env)
      case Confirmed => PutStage(s, if |v.nodes| > 1 then Rest else Done)
      case Failed => Log(PutStage(PutNodes(s, SkipRest(v.nodes, env.now)), Stopped), Ended(v.id))
      case _ => s
  }

  /** The rest, a few at a time, from node `i` on. */
  function Launch(s: State, i: nat, inFlight: int, t: Timings, env: Env): (u: State)
    requires s.active.Some? && i <= |s.active.value.nodes|
    ensures SameView(s, u)
    decreases |s.active.value.nodes| - i
  {
    if i == |s.active.value.nodes| || inFlight >= t.batch then s
    else if !s.active.value.nodes[i].state.Queued? then Launch(s, i + 1, inFlight, t, env)
    else
      var u := Begin(s, i, t, env);
      Launch(u, i + 1, if u.active.value.nodes[i].startedAt.Some? then inFlight + 1 else inFlight, t, env)
  }

  predicate AllTerminal(nodes: seq<Node>) { forall i :: 0 <= i < |nodes| ==> Terminal(nodes[i].state) }

  function Conclude(s: State): State
    requires s.active.Some?
  {
    if !s.active.value.stage.Stopped? && AllTerminal(s.active.value.nodes)
    then Log(PutStage(s, Done), Ended(s.active.value.id)) else s
  }

  function Tick(s: State, t: Timings, env: Env): State {
    if !Running(s) then s
    else
      var a := PutNodes(s, Expire(s.active.value.nodes, t, env.now));
      if |a.active.value.nodes| == 0 then a
      else
        var b := PilotTurn(a, t, env);
        var c := if b.active.value.stage.Rest?
                 then Launch(b, 1, Count(b.active.value.nodes), t, env) else b;
        Conclude(c)
  }

  lemma {:induction false} LaunchKeepsIds(s: State, i: nat, inFlight: int, t: Timings, env: Env)
    requires s.active.Some? && i <= |s.active.value.nodes|
    ensures Launch(s, i, inFlight, t, env).nextId == s.nextId
    decreases |s.active.value.nodes| - i
  {
    if i < |s.active.value.nodes| && inFlight < t.batch {
      if s.active.value.nodes[i].state.Queued? {
        var u := Begin(s, i, t, env);
        LaunchKeepsIds(u, i + 1, if u.active.value.nodes[i].startedAt.Some? then inFlight + 1 else inFlight, t, env);
      } else {
        LaunchKeepsIds(s, i + 1, inFlight, t, env);
      }
    }
  }

  lemma TickKeepsIds(s: State, t: Timings, env: Env)
    ensures Tick(s, t, env).nextId == s.nextId
  {
    if Running(s) && |s.active.value.nodes| > 0 {
      var a := PutNodes(s, Expire(s.active.value.nodes, t, env.now));
      var b := PilotTurn(a, t, env);
      assert b.nextId == s.nextId;
      RestKeepsIds(b, t, env);
    }
  }

  lemma RestKeepsIds(b: State, t: Timings, env: Env)
    requires b.active.Some? && |b.active.value.nodes| > 0
    ensures
      var c := if b.active.value.stage.Rest? then Launch(b, 1, Count(b.active.value.nodes), t, env) else b;
      Conclude(c).nextId == b.nextId
  {
    LaunchKeepsIds(b, 1, Count(b.active.value.nodes), t, env);
  }

  /** The same rollout, with as many nodes. */
  predicate SameRollout(s: State, u: State) {
    s.active.Some? && u.active.Some? && u.active.value.id == s.active.value.id &&
      u.active.value.build == s.active.value.build &&
    |u.active.value.nodes| == |s.active.value.nodes|
  }

  lemma PilotKeepsView(s: State, t: Timings, env: Env)
    requires s.active.Some? && |s.active.value.nodes| > 0
    ensures SameRollout(s, PilotTurn(s, t, env))
  {
    if s.active.value.stage.Pilot? && s.active.value.nodes[0].state.Queued? { assert SameView(s, Begin(s, 0, t, env)); }
  }

  lemma RestKeepsView(b: State, t: Timings, env: Env)
    requires b.active.Some? && |b.active.value.nodes| > 0
    ensures SameRollout(b,
      Conclude(if b.active.value.stage.Rest? then Launch(b, 1, Count(b.active.value.nodes), t, env) else b))
  {
    var c := if b.active.value.stage.Rest? then Launch(b, 1, Count(b.active.value.nodes), t, env) else b;
    assert SameRollout(b, c);
    assert SameRollout(c, Conclude(c));
  }

  lemma TickKeepsView(s: State, t: Timings, env: Env)
    requires s.active.Some?
    ensures SameRollout(s, Tick(s, t, env))
  {
    var u := Tick(s, t, env);
    assert SameRollout(s, u) by {
      if Running(s) && |s.active.value.nodes| > 0 {
        var a := PutNodes(s, Expire(s.active.value.nodes, t, env.now));
        PilotKeepsView(a, t, env);
        RestKeepsView(PilotTurn(a, t, env), t, env);
      }
    }
  }

  // ---- the other entry points ------------------------------------------------------

  /** The chosen nodes of a new rollout, all waiting their turn. */
  function FreshNodes(chosen: seq<Node>, now: int): seq<Node> {
    seq(|chosen|, i requires 0 <= i < |chosen| =>
      chosen[i].(state := Queued, startedAt := None, updatedAt := now,
                 gateway := if chosen[i].transport.Gateway? then chosen[i].gateway else None))
  }

  /** A new rollout, before its first tick. */
  function Begun(s: State, build: int, chosen: seq<Node>, now: int): State {
    Log(s.(active := Some(View(s.nextId, build, Pilot, FreshNodes(chosen, now))), nextId := s.nextId + 1,
           ready := map[], asked := map[]), Started(s.nextId))
  }

  /** start(); a node selection that is empty, or a rollout still running, changes nothing. */
  function Start(s: State, build: int, chosen: seq<Node>, deferDispatch: bool, t: Timings, env: Env): State {
    if Running(s) || !env.image || chosen == [] then s
    else if deferDispatch then Begun(s, build, chosen, env.now)
    else Tick(Begun(s, build, chosen, env.now), t, env)
  }

  function CancelNodes(nodes: seq<Node>, id: nat, awaiting: set<(nat, nat)>, now: int): seq<Node> {
    seq(|nodes|, i requires 0 <= i < |nodes| =>
      if nodes[i].state.Queued? || (id, i) in awaiting then Set(nodes[i], Skipped, now) else nodes[i])
  }

  function Cancel(s: State, now: int): State {
    if !Running(s) then s
    else
      var v := s.active.value;
      Log(PutStage(PutNodes(s, CancelNodes(v.nodes, v.id, s.awaiting, now)), Stopped), Ended(v.id))
  }

  function FailGateway(nodes: seq<Node>, g: int, now: int): seq<Node> {
    seq(|nodes|, i requires 0 <= i < |nodes| =>
      if nodes[i].gateway == Some(g) && !Terminal(nodes[i].state) then Set(nodes[i], Failed, now) else nodes[i])
  }

  function ImageReady(s: State, g: int, build: int, ok: bool, port: int, t: Timings, env: Env): State {
    if !Running(s) || s.active.value.build != build then s
    else Tick(if ok then s.(ready := s.ready[g := port])
              else PutNodes(s, FailGateway(s.active.value.nodes, g, env.now)), t, env)
  }

  /** The first node with this uid, as Array.find picks it; |nodes| when there is none. */
  function Find(nodes: seq<Node>, uid: int): (i: nat)
    ensures i <= |nodes| && (i < |nodes| ==> nodes[i].uid == uid)
    ensures forall k :: 0 <= k < i ==> nodes[k].uid != uid
  {
    if nodes == [] || nodes[0].uid == uid then 0 else 1 + Find(nodes[1..], uid)
  }

  function Reported(r: Report): Option<NodeState> {
    match r
    case SaysDownloading => Some(Downloading)
    case SaysVerifying => Some(Verifying)
    case SaysApplying => Some(Applying)
    case SaysRebooting => Some(Rebooting)
    case SaysConfirmed => Some(Confirmed)
    case SaysReverted => Some(Failed)
    case SaysFailed => Some(Failed)
    case SaysOther => None
  }

  function OtaStatus(s: State, uid: int, build: int, r: Report, t: Timings, env: Env): State {
    if s.active.None? then s
    else
      var v := s.active.value;
      var i := Find(v.nodes, uid);
      if i == |v.nodes| || v.stage.Done? || v.nodes[i].startedAt.None? || Terminal(v.nodes[i].state) || build != v.build
      then s
      else
        var st := Reported(r);
        var u := if st.Some? then PutNode(s, i, Set(v.nodes[i], st.value, env.now)) else s;
        Tick(if st == Some(Confirmed) then Log(u, NodeConfirmed(v.id, i)) else u, t, env)
  }

  /** The commit hook of a waiting dispatch settled, well or badly. */
  function HookDone(s: State, task: Task, ok: bool, env: Env): State
    requires !task.SendReply?
  {
    var id, i := task.rollout, task.index;
    var u := s.(tasks := s.tasks - {task});
    match task
    case ImageHook(_, _, g) =>
      var d := u.(launching := u.launching - {(id, i)});
      if !CanDispatch(d, id, i, Queued) then d
      else if ok then Push(d, i, g, env)
      else d.(asked := d.asked - {g})
    case RequestHook(_, _, port) =>
      var d := u.(awaiting := u.awaiting - {(id, i)});
      if CanDispatch(d, id, i, Sending) then
        if ok then Send(d, id, i, port)
        else PutNode(d, i, d.active.value.nodes[i].(state := Queued, startedAt := None))
               .(launching := d.launching - {(id, i)})
      else d.(launching := d.launching - {(id, i)})
  }

  /** sendOta resolved or was rejected. */
  function SendDone(s: State, task: Task, ok: bool, t: Timings, env: Env): State
    requires task.SendReply?
  {
    var id, i := task.rollout, task.index;
    var u := s.(tasks := s.tasks - {task}, launching := s.launching - {(id, i)});
    if !ok && Current(u, id, i) && !Terminal(u.active.value.nodes[i].state)
    then Tick(Fail(u, i, env.now), t, env) else u
  }

  /** Whether a direct node may fetch the image right now. */
  predicate WantsDownload(s: State, uid: int, build: int) {
    Running(s) && s.active.value.build == build &&
    (var nodes := s.active.value.nodes; var i := Find(nodes, uid);
     i < |nodes| && (nodes[i].state.Sending? || nodes[i].state.Downloading?))
  }

  // ---- runs ------------------------------------------------------------------------

  datatype Action =
    | DoStart(build: int, chosen: seq<Node>, deferDispatch: bool, env: Env)
    | DoTick(env: Env)
    | DoCancel(now: int)
    | DoImageReady(gateway: int, build: int, ok: bool, port: int, env: Env)
    | DoOtaStatus(uid: int, build: int, report: Report, env: Env)
    | DoHook(task: Task, ok: bool, env: Env)
    | DoReply(task: Task, ok: bool, env: Env)
    | SetHook(hook: bool)

  predicate Enabled(s: State, a: Action) {
    match a
    case DoHook(task, _, _) => task in s.tasks && !task.SendReply?
    case DoReply(task, _, _) => task in s.tasks && task.SendReply?
    case _ => true
  }

  function Step(s: State, a: Action, t: Timings): State
    requires Enabled(s, a)
  {
    match a
    case DoStart(build, chosen, deferDispatch, env) => Start(s, build, chosen, deferDispatch, t, env)
    case DoTick(env) => Tick(s, t, env)
    case DoCancel(now) => Cancel(s, now)
    case DoImageReady(g, build, ok, port, env) => ImageReady(s, g, build, ok, port, t, env)
    case DoOtaStatus(uid, build, r, env) => OtaStatus(s, uid, build, r, t, env)
    case DoHook(task, ok, env) => HookDone(s, task, ok, env)
    case DoReply(task, ok, env) => SendDone(s, task, ok, t, env)
    case SetHook(h) => s.(hook := h)
  }

  ghost predicate Run(states: seq<State>, actions: seq<Action>, t: Timings) {
    |states| == |actions| + 1 && states[0] == Fresh &&
    forall i :: 0 <= i < |actions| ==> Enabled(states[i], actions[i]) && states[i + 1] == Step(states[i], actions[i], t)
  }
}

/**
 * A cursor reset that reports an error (src/edge/ingest.ts:442-449, src/edge/replay.ts:99-132):
 * exactly when a crash can make it take effect all the same, and what is accepted then.
 */
module FailedReset {
  import opened Chains
  import opened Wrappers
  import opened Journal
  import opened Replay
  import opened Ingest
  import opened IngestSafety

  /** Nothing is in flight, and no write has failed yet. */
  ghost predicate Quiet(e: Edge) { e.up && e.adm.jobs == [] && !e.store.flushing && !e.store.failed }

  lemma NoneQueued(queue: seq<Pending>, jobs: seq<Job>)
    requires forall i :: 0 <= i < |queue| ==> JobOf(queue[i]) in jobs
    ensures jobs == [] ==> queue == []
  {
    if queue != [] { assert JobOf(queue[0]) in jobs; }
  }

  lemma QuietIsEmpty(e: Edge)
    requires Safe(e) && Quiet(e)
    ensures e.store.batch == [] && e.store.pending == [] && e.store.queued == 0
  {
    NoneQueued(Queue(e.store), e.adm.jobs);
  }

  /** After some crash the file no longer knows the node. */
  ghost predicate Forgettable(d: Disk, uid: Uid) { exists k: nat :: CrashPoint(d, k) && uid !in After(d, k).cursors }

  lemma WholeFileOnly(d: Disk, uid: Uid)
    requires d.durable == |d.lines|
    ensures Forgettable(d, uid) <==> uid !in Fold(d.lines).cursors
  {
    assert d.lines[..|d.lines|] == d.lines;
    if uid !in Fold(d.lines).cursors { assert CrashPoint(d, |d.lines|) && uid !in After(d, |d.lines|).cursors; }
  }

  lemma LineForgets(file: Disk, uid: Uid, w: Write)
    requires file.durable == |file.lines| && uid in Fold(file.lines).cursors && w.Failed? && w.written <= 1
    ensures Forgettable(Longer(file, Forget(uid), w), uid) <==> w.written == 1
  {
    var longer := Longer(file, Forget(uid), w);
    assert longer.lines[..|file.lines|] == file.lines;
    if w.written == 1 {
      FoldSnoc(file.lines, Forget(uid));
      assert [Forget(uid)][..1] == [Forget(uid)];
      assert longer.lines[..|file.lines| + 1] == file.lines + [Forget(uid)];
      assert CrashPoint(longer, |file.lines| + 1) && uid !in After(longer, |file.lines| + 1).cursors;
    } else {
      WholeFileOnly(longer, uid);
    }
  }

  /**
   * A reset of a known node that throws takes effect after a crash exactly when its line was
   * written in full: the store got as far as writing it, and only the fsync failed.
   */
  lemma TakesEffectIff(e: Edge, uid: Uid, env: Env)
    requires Safe(e) && Quiet(e) && Enabled(e, ResetCursor(uid, env)) && uid in e.store.cursors
    requires e.store.Reset(e.disk, uid, env).2.None?
    ensures Forgettable(Step(e, ResetCursor(uid, env)).disk, uid) <==>
      e.store.Appends(env) && env.write.Failed? && env.write.written == 1
  {
    QuietIsEmpty(e);
    assert Publish(e.store.Memory(), e.store.batch) == e.store.Memory();
    if e.store.Appends(env) {
      TargetSafe(e, env);
      AppendIs(e.store, e.disk, Forget(uid), env);
      LineForgets(Target(e.store, e.disk, env), uid, env.write);
    } else {
      WholeFileOnly(e.disk, uid);
    }
  }

  // ---- the older packet that is then accepted ------------------------------------------------------------

  const OK := Env([], true, Synced)

  function Empty(log: seq<Event>): Edge { Started(Snapshot(map[], 0), [], log) }

  /** An edge that knows one node, just after accepting from it. */
  function Knowing(uid: Uid, c: Cursor, log: seq<Event>): Edge {
    Edge(true, Disk([Cmd(0), Seen(uid, c)], 2, false), Store(map[uid := c], 0, 1, [], [], false, false, 0),
         Admission(map[uid := c], [], {}, 0), log)
  }

  function Delivery(uid: Uid, c: Cursor): seq<Action> {
    [Arrive(Packet(uid, c, None), false), Admit(0, false), Flush(OK), SyncDone(true), Finish(0, true)]
  }

  function Delivered(uid: Uid, c: Cursor, log: seq<Event>): seq<Edge> {
    var start, p := Empty(log), Packet(uid, c, None);
    var queued := start.store.(pending := [Pending(uid, c, None)], queued := 1);
    var written := start.store.(batch := [Pending(uid, c, None)], queued := 1, flushing := true);
    var after := Knowing(uid, c, log + [Accept(uid, c)]);
    [start,
     start.(adm := Admission(map[], [Job(p, Waiting)], {}, 0)),
     start.(store := queued, adm := Admission(map[], [Job(p, Writing)], {uid}, 0)),
     start.(store := written, disk := Disk([Cmd(0), Seen(uid, c)], 1, false),
       adm := Admission(map[], [Job(p, Writing)], {uid}, 0)),
     after.(adm := Admission(map[], [Job(p, Settled(true))], {uid}, 0), log := log)]
  }

  lemma FirstSteps(uid: Uid, c: Cursor, log: seq<Event>)
    requires IsUid(uid) && ValidCursor(c)
    ensures var states, actions := Delivered(uid, c, log), Delivery(uid, c);
      Leads(states[0], actions[0], states[1]) && Leads(states[1], actions[1], states[2])
  {
  }

  /** What the one packet writes and publishes. */
  lemma OneEntry(uid: Uid, c: Cursor)
    ensures BatchLines([Pending(uid, c, None)]) == [Seen(uid, c)]
    ensures Publish(Snapshot(map[], 0), [Pending(uid, c, None)]) == Snapshot(map[uid := c], 0)
    ensures [Cmd(0)] + [Seen(uid, c)] == [Cmd(0), Seen(uid, c)]
  {
    var batch := [Pending(uid, c, None)];
    assert batch[..0] == [];
    assert BatchLines(batch) == BatchLines([]) + EntryLines(batch[0]);
    assert Publish(Snapshot(map[], 0), batch).cursors == map[][uid := c];
  }

  lemma OneSettles(uid: Uid, c: Cursor)
    ensures var jobs := [Job(Packet(uid, c, None), Writing)];
      Settle(jobs, [], false) == jobs &&
        Settle(jobs, [Pending(uid, c, None)], true) == [Job(Packet(uid, c, None), Settled(true))]
  {
    assert [Pending(uid, c, None)][0].uid == uid;
    assert Writes([Pending(uid, c, None)], uid);
  }

  lemma WriteStep(uid: Uid, c: Cursor, log: seq<Event>)
    requires IsUid(uid) && ValidCursor(c)
    ensures Leads(Delivered(uid, c, log)[2], Flush(OK), Delivered(uid, c, log)[3])
  {
    OneEntry(uid, c);
    OneSettles(uid, c);
  }

  lemma SyncStep(uid: Uid, c: Cursor, log: seq<Event>)
    requires IsUid(uid) && ValidCursor(c)
    ensures Leads(Delivered(uid, c, log)[3], SyncDone(true), Delivered(uid, c, log)[4])
  {
    OneEntry(uid, c);
    OneSettles(uid, c);
  }

  lemma LastStep(uid: Uid, c: Cursor, log: seq<Event>)
    requires IsUid(uid) && ValidCursor(c)
    ensures Leads(Delivered(uid, c, log)[4], Finish(0, true), Knowing(uid, c, log + [Accept(uid, c)]))
  {
  }

  /** A run of five steps: the node's packet is accepted. */
  lemma Delivers(uid: Uid, c: Cursor, log: seq<Event>)
    requires IsUid(uid) && ValidCursor(c)
    ensures Chain(Leads, Delivered(uid, c, log) + [Knowing(uid, c, log + [Accept(uid, c)])], Delivery(uid, c))
  {
    FirstSteps(uid, c, log);
    WriteStep(uid, c, log);
    SyncStep(uid, c, log);
    LastStep(uid, c, log);
  }

  /** The line is written in full, and then the fsync fails. */
  function BadSync(uid: Uid): Action { ResetCursor(uid, Env([uid], true, Failed(1, false))) }

  function Crash(): Action { Restart(3, false, [], true) }

  function Refused(uid: Uid, c: Cursor): Edge {
    var e := Knowing(uid, c, [Accept(uid, c)]);
    e.(store := e.store.(failed := true), disk := Disk([Cmd(0), Seen(uid, c), Forget(uid)], 2, false),
       log := [Accept(uid, c), Forgot(uid)])
  }

  /** The call throws, and leaves the file with the line. */
  lemma ResetStep(uid: Uid, c: Cursor)
    requires IsUid(uid) && ValidCursor(c)
    ensures var e := Knowing(uid, c, [Accept(uid, c)]);
      Leads(e, BadSync(uid), Refused(uid, c)) && e.store.Reset(e.disk, uid, Env([uid], true, Failed(1, false))).2.None?
  {
    assert [Forget(uid)][..1] == [Forget(uid)];
    assert [Cmd(0), Seen(uid, c)] + [Forget(uid)] == [Cmd(0), Seen(uid, c), Forget(uid)];
    assert [Accept(uid, c)] + [Forgot(uid)] == [Accept(uid, c), Forgot(uid)];
  }

  lemma CrashStep(uid: Uid, c: Cursor)
    requires IsUid(uid) && ValidCursor(c)
    ensures Leads(Refused(uid, c), Crash(), Empty([Accept(uid, c), Forgot(uid)]))
  {
    var lines := [Cmd(0), Seen(uid, c), Forget(uid)];
    assert lines[..3] == lines && lines[..2] == [Cmd(0), Seen(uid, c)] && lines[..2][..1] == [Cmd(0)] &&
      [Cmd(0)][..0] == [];
    assert Fold(lines) == Apply(Apply(Fold([Cmd(0)]), Seen(uid, c)), Forget(uid));
    assert Fold(lines).cursors == map[];
  }

  /** A run that accepts `second` after `first`; the one reset between them throws. */
  ghost predicate ForgetsUnasked(states: seq<Edge>, actions: seq<Action>, uid: Uid, first: Cursor, second: Cursor) {
    var env := Env([uid], true, Failed(1, false));
    Run(states, actions) && |actions| == 12 &&
      states[12].log == [Accept(uid, first), Forgot(uid), Accept(uid, second)] &&
    actions[5] == ResetCursor(uid, env) && states[5].store.EnvFits(env, 1) &&
      states[5].store.Reset(states[5].disk, uid, env).2.None?
  }

  /**
   * So the order of acceptances breaks without any reset having been confirmed: for every node and
   * any two of its packets there is a run in which the second is accepted after the first, with a
   * single reset between them, and that reset reports an error.
   */
  lemma AcceptsAfterFailedReset(uid: Uid, first: Cursor, second: Cursor)
    requires IsUid(uid) && ValidCursor(first) && ValidCursor(second)
    ensures exists states, actions :: ForgetsUnasked(states, actions, uid, first, second)
  {
    var again := [Accept(uid, first), Forgot(uid)];
    Delivers(uid, first, []);
    ResetStep(uid, first);
    CrashStep(uid, first);
    Delivers(uid, second, again);
    assert [] + [Accept(uid, first)] == [Accept(uid, first)];
    assert again + [Accept(uid, second)] == [Accept(uid, first), Forgot(uid), Accept(uid, second)];
    var before := Delivered(uid, first, []) + [Knowing(uid, first, [Accept(uid, first)])];
    var after := Delivered(uid, second, again) + [Knowing(uid, second, again + [Accept(uid, second)])];
    var rest, future := [Refused(uid, first)] + after, [Crash()] + Delivery(uid, second);
    Join(Leads, [Refused(uid, first)], [], Crash(), after, Delivery(uid, second));
    assert [] + [Crash()] + Delivery(uid, second) == future;
    Join(Leads, before, Delivery(uid, first), BadSync(uid), rest, future);
    var states, actions := before + rest, Delivery(uid, first) + [BadSync(uid)] + future;
    IsRun(states, actions);
    assert states[5] == before[5] && states[12] == after[5] && actions[5] == BadSync(uid);
    assert ForgetsUnasked(states, actions, uid, first, second);
  }

  lemma IsRun(states: seq<Edge>, actions: seq<Action>)
    requires Chain(Leads, states, actions) && states[0] == Init()
    ensures Run(states, actions)
  {
    forall i | 0 <= i < |actions|
      ensures Enabled(states[i], actions[i]) && states[i + 1] == Step(states[i], actions[i])
    {
      assert Leads(states[i], actions[i], states[i + 1]);
    }
  }
}

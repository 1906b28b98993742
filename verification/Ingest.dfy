/**
 * Packet admission (src/edge/ingest.ts) in front of the durable cursor store.
 *
 * handleDurable chains the packets of one node behind each other and lets different nodes
 * share a batch. The chains are one list in arrival order: a packet may run once no earlier
 * packet of its node is left. Each `await` splits the handler into separate steps.
 */
module Ingest {
  import opened Wrappers
  import opened Journal
  import opened Replay

  const MAX_DURABLE_PACKETS := 4096

  /** A verified packet; `lastCmd` is present on STATUS packets. */
  datatype Packet = Packet(uid: Uid, cursor: Cursor, lastCmd: Option<int>)

  /** Waiting for its turn, waiting for the fsync, or back from it. */
  datatype Phase = Waiting | Writing | Settled(durable: bool)

  datatype Job = Job(packet: Packet, phase: Phase)

  /** What the outside world can observe the edge doing. */
  datatype Event =
    | Accept(uid: Uid, cursor: Cursor)  // committed, emitted and acknowledged
    | Issue(num: int)                   // a command number handed out for signing
    | Forgot(uid: Uid)                  // a cursor reset that reached the journal

  datatype Admission = Admission(
    links: map<Uid, Cursor>, jobs: seq<Job>, pendingNew: set<Uid>, lastCommandSeq: int)

  datatype Edge = Edge(up: bool, disk: Disk, store: Store, adm: Admission, log: seq<Event>)

  datatype Action =
    | Arrive(packet: Packet, bytesFull: bool)
    | Admit(index: nat, sessionRefuses: bool)
    | Flush(env: Env)
    | SyncDone(ok: bool)
    | Finish(index: nat, sessionOpen: bool)
    | Allocate(seconds: int, env: Env)
    | ResetCursor(uid: Uid, env: Env)
    | Restart(kept: nat, torn: bool, order: seq<Uid>, checkpointOk: bool)

  predicate First(jobs: seq<Job>, i: nat)
    requires i < |jobs|
  {
    forall k :: 0 <= k < i ==> jobs[k].packet.uid != jobs[i].packet.uid
  }

  function Drop(jobs: seq<Job>, i: nat): seq<Job>
    requires i < |jobs|
  {
    jobs[..i] + jobs[i + 1..]
  }

  predicate Writes(batch: seq<Pending>, uid: Uid) {
    exists i :: 0 <= i < |batch| && batch[i].uid == uid
  }

  /** Resolve or reject the promise of every written packet in the batch. */
  function Settle(jobs: seq<Job>, batch: seq<Pending>, durable: bool): seq<Job> {
    seq(|jobs|, i requires 0 <= i < |jobs| =>
      if jobs[i].phase.Writing? && Writes(batch, jobs[i].packet.uid) then jobs[i].(phase := Settled(durable))
      else jobs[i])
  }

  /** The cursor a packet is compared with: the later of the link's and the saved one. */
  function Known(links: map<Uid, Cursor>, saved: map<Uid, Cursor>, uid: Uid): Option<Cursor> {
    if uid in saved && (uid !in links || Newer(saved[uid], links[uid])) then Some(saved[uid])
    else if uid in links then Some(links[uid])
    else None
  }

  /** admitPacket: replay rule, node table, then the session's own check. */
  predicate Admissible(a: Admission, store: Store, p: Packet, sessionRefuses: bool) {
    var known := Known(a.links, store.cursors, p.uid);
    (if known.Some? then Newer(p.cursor, known.value)
     else |a.links| + |a.pendingNew| < MAX_NODES && |store.cursors| + |a.pendingNew| < MAX_NODES)
    && !sessionRefuses
  }

  /** Admission of the job at the head of its chain, up to `await acceptAsync`. */
  function AfterAdmit(e: Edge, i: nat, sessionRefuses: bool): Edge
    requires i < |e.adm.jobs|
  {
    var p := e.adm.jobs[i].packet;
    if !Admissible(e.adm, e.store, p, sessionRefuses) then e.(adm := e.adm.(jobs := Drop(e.adm.jobs, i)))
    else
      var isNew := p.uid !in e.adm.links && p.uid !in e.store.cursors;
      var (store, queued) := e.store.AcceptAsync(Pending(p.uid, p.cursor, p.lastCmd));
      var phase := if queued then Writing else Settled(false);
      e.(store := store,
         adm := e.adm.(
           jobs := e.adm.jobs[i := Job(p, phase)],
           pendingNew := if isNew then e.adm.pendingNew + {p.uid} else e.adm.pendingNew,
           lastCommandSeq := if p.lastCmd.Some? then Max(e.adm.lastCommandSeq, p.lastCmd.value)
             else e.adm.lastCommandSeq))
  }

  /** The rest of the handler: forget the reservation, then commit or reject. */
  function AfterFinish(e: Edge, i: nat, sessionOpen: bool): Edge
    requires i < |e.adm.jobs| && e.adm.jobs[i].phase.Settled?
  {
    var job := e.adm.jobs[i];
    var uid := job.packet.uid;
    var adm := e.adm.(jobs := Drop(e.adm.jobs, i), pendingNew := e.adm.pendingNew - {uid});
    if job.phase.durable && sessionOpen then
      e.(adm := adm.(links := adm.links[uid := job.packet.cursor]), log := e.log + [Accept(uid, job.packet.cursor)])
    else e.(adm := adm)
  }

  /** allocateCommandSeq: wall-clock seconds, but past every number used or observed. */
  function AfterAllocate(e: Edge, seconds: int, env: Env): Edge
    requires e.store.EnvFits(env, 1)
  {
    var num := Max(seconds, e.adm.lastCommandSeq + 1);
    var (store, disk, ok) := e.store.Command(e.disk, num, env);
    if ok then e.(store := store, disk := disk, adm := e.adm.(lastCommandSeq := num), log := e.log + [Issue(num)])
    else e.(store := store, disk := disk)
  }

  /**
   * resetCursor. When the fsync fails after the line was written the call reports an error, yet
   * a restart may read the line: such a reset is logged as one too.
   */
  function AfterReset(e: Edge, uid: Uid, env: Env): Edge
    requires e.store.EnvFits(env, 1)
  {
    if |e.adm.jobs| != 0 || !IsUid(uid) then e
    else
      var (store, disk, r) := e.store.Reset(e.disk, uid, env);
      var log := if e.store.queued == 0 && e.store.Lands(env) then e.log + [Forgot(uid)] else e.log;
      var adm := if r.Some? then e.adm.(links := e.adm.links - {uid}) else e.adm;
      e.(store := store, disk := disk, adm := adm, log := log)
  }

  /** The constructor of a process started over a journal that reads back as `s`. */
  function Started(s: Snapshot, order: seq<Uid>, log: seq<Event>): Edge
    requires Enumerates(order, s.cursors.Keys)
  {
    Edge(true, Fresh(s).Checkpointed(order), Fresh(s), Admission(map[], [], {}, s.commandSeq), log)
  }

  /** A crash anywhere, then a start: fails closed when the file cannot be read. */
  function AfterRestart(e: Edge, kept: nat, torn: bool, order: seq<Uid>, checkpointOk: bool): Edge
    requires CrashPoint(e.disk, kept)
    requires Enumerates(order, Fold(e.disk.lines[..kept]).cursors.Keys)
  {
    var file := Disk(e.disk.lines[..kept], e.disk.durable, torn);
    if Readable(file) && checkpointOk then Started(Fold(file.lines), order, e.log)
    else e.(up := false, disk := file)
  }

  ghost predicate Enabled(e: Edge, a: Action) {
    match a
    case Arrive(_, _) => e.up
    case Admit(i, _) => e.up && i < |e.adm.jobs| && e.adm.jobs[i].phase.Waiting? && First(e.adm.jobs, i)
    case Flush(env) =>
      e.up && !e.store.flushing && e.store.pending != [] && EnvPossible(e, env, |BatchLines(e.store.pending)|)
    case SyncDone(_) => e.up && e.store.flushing
    case Finish(i, _) => e.up && i < |e.adm.jobs| && e.adm.jobs[i].phase.Settled?
    case Allocate(_, env) => e.up && EnvPossible(e, env, 1)
    case ResetCursor(_, env) => e.up && EnvPossible(e, env, 1)
    case Restart(kept, torn, order, _) =>
      CrashPoint(e.disk, kept) && (torn ==> kept < |e.disk.lines| || e.disk.torn) &&
      Enumerates(order, Fold(e.disk.lines[..kept]).cursors.Keys)
  }

  /** The answers the file system may give, and the order it may walk the cursor map in. */
  ghost predicate EnvPossible(e: Edge, env: Env, lines: nat) {
    e.store.EnvFits(env, lines) && Enumerates(env.order, e.store.cursors.Keys)
  }

  ghost function Step(e: Edge, a: Action): Edge
    requires Enabled(e, a)
  {
    match a
    case Arrive(p, bytesFull) =>
      if |e.adm.jobs| >= MAX_DURABLE_PACKETS || bytesFull then e
      else e.(adm := e.adm.(jobs := e.adm.jobs + [Job(p, Waiting)]))
    case Admit(i, refuses) => AfterAdmit(e, i, refuses)
    case Flush(env) =>
      var (store, disk, rejected) := e.store.FlushBegin(e.disk, env);
      e.(store := store, disk := disk, adm := e.adm.(jobs := Settle(e.adm.jobs, rejected, false)))
    case SyncDone(ok) =>
      var (store, disk, settled, durable) := e.store.FlushEnd(e.disk, ok);
      e.(store := store, disk := disk, adm := e.adm.(jobs := Settle(e.adm.jobs, settled, durable)))
    case Finish(i, open) => AfterFinish(e, i, open)
    case Allocate(seconds, env) => AfterAllocate(e, seconds, env)
    case ResetCursor(uid, env) => AfterReset(e, uid, env)
    case Restart(kept, torn, order, ok) => AfterRestart(e, kept, torn, order, ok)
  }

  ghost predicate Leads(e: Edge, a: Action, n: Edge) { Enabled(e, a) && n == Step(e, a) }

  /** The very first start: there is no journal yet. */
  function Init(): Edge { Started(Snapshot(map[], 0), [], []) }

  /** The states one run of actions passes through. */
  ghost predicate Run(states: seq<Edge>, actions: seq<Action>) {
    |states| == |actions| + 1 && states[0] == Init() &&
    forall i :: 0 <= i < |actions| ==> Enabled(states[i], actions[i]) && states[i + 1] == Step(states[i], actions[i])
  }

  lemma SettleSnoc(jobs: seq<Job>, batch: seq<Pending>, p: Pending, durable: bool)
    ensures Settle(jobs, batch + [p], durable) == Settle(Settle(jobs, batch, durable), [p], durable)
  {
    forall i | 0 <= i < |jobs|
      ensures Writes(batch + [p], jobs[i].packet.uid) ==
        (Writes(batch, jobs[i].packet.uid) || p.uid == jobs[i].packet.uid)
    {
      var all, uid := batch + [p], jobs[i].packet.uid;
      if k :| 0 <= k < |batch| && batch[k].uid == uid { assert all[k].uid == uid; }
      assert all[|batch|] == p;
    }
    assert forall uid :: Writes([p], uid) <==> p.uid == uid by { assert [p][0] == p; }
  }

  /** A cursor as the pair it is: a later boot, or the same boot and a higher number. */
  lemma AboveBoth(links: map<Uid, Cursor>, saved: map<Uid, Cursor>, uid: Uid, c: Cursor)
    ensures var known := Known(links, saved, uid);
      (known.Some? <==> uid in links || uid in saved) &&
      (known.Some? ==>
         (Newer(c, known.value) <==>
            (uid in links ==> links[uid].boot < c.boot || (links[uid].boot == c.boot && links[uid].num < c.num)) &&
            (uid in saved ==> saved[uid].boot < c.boot || (saved[uid].boot == c.boot && saved[uid].num < c.num))))
  {
  }

  /**
   * Admission decided on the tables alone: a packet passes exactly when its session does not object
   * and its (boot, number) is above the node's link and its saved cursor, where there is one, and,
   * for a node that has neither, there is room beside those known and those on their way.
   */
  lemma AdmissibleIff(a: Admission, store: Store, p: Packet, sessionRefuses: bool)
    ensures Admissible(a, store, p, sessionRefuses) <==>
      !sessionRefuses &&
      (p.uid in a.links ==>
         a.links[p.uid].boot < p.cursor.boot ||
         (a.links[p.uid].boot == p.cursor.boot && a.links[p.uid].num < p.cursor.num)) &&
      (p.uid in store.cursors ==>
         store.cursors[p.uid].boot < p.cursor.boot ||
         (store.cursors[p.uid].boot == p.cursor.boot && store.cursors[p.uid].num < p.cursor.num)) &&
      (p.uid !in a.links && p.uid !in store.cursors ==>
         |a.links| + |a.pendingNew| < 5000 && |store.cursors| + |a.pendingNew| < 5000)
  {
    AboveBoth(a.links, store.cursors, p.uid, p.cursor);
  }

  /** So a node that has rebooted is let in, whatever number it starts from. */
  lemma RebootIsAdmitted(a: Admission, store: Store, p: Packet)
    requires p.uid in a.links || p.uid in store.cursors
    requires p.uid in a.links ==> a.links[p.uid].boot < p.cursor.boot
    requires p.uid in store.cursors ==> store.cursors[p.uid].boot < p.cursor.boot
    ensures Admissible(a, store, p, false)
  {
    AdmissibleIff(a, store, p, false);
  }

  /** An admitted packet changes its own job, the queue, the reservations and the counter, and nothing else. */
  lemma HandedOver(e: Edge, i: nat, refuses: bool, n: Edge)
    requires i < |e.adm.jobs| && Admissible(e.adm, e.store, e.adm.jobs[i].packet, refuses)
    requires var p := e.adm.jobs[i].packet;
      var entry := Pending(p.uid, p.cursor, p.lastCmd);
      var taken := !e.store.failed && ValidEntry(entry) && e.store.queued < 10000;
      n == e.(
        store := e.store.(pending := e.store.pending + (if taken then [entry] else []),
                          queued := e.store.queued + (if taken then 1 else 0)),
        adm := Admission(e.adm.links, e.adm.jobs[i := Job(p, if taken then Writing else Settled(false))],
                         e.adm.pendingNew + (if p.uid in e.adm.links || p.uid in e.store.cursors then {} else {p.uid}),
                         if p.lastCmd.Some? && p.lastCmd.value > e.adm.lastCommandSeq then p.lastCmd.value
                         else e.adm.lastCommandSeq))
    ensures n == AfterAdmit(e, i, refuses)
  {
  }

  /** The running edge: the tables ingest.ts keeps, in front of its replay store. */
  class IngestServer {
    const replay: ReplayStore
    var links: map<Uid, Cursor>
    var jobs: seq<Job>
    var pendingNew: set<Uid>
    var lastCommandSeq: int
    ghost var log: seq<Event>

    ghost function View(): Edge reads this, replay {
      Edge(true, replay.disk, replay.View(), Admission(links, jobs, pendingNew, lastCommandSeq), log)
    }

    constructor (store: ReplayStore, ghost past: seq<Event>)
      ensures replay == store && View().log == past
      ensures View().adm == Admission(map[], [], {}, store.commandSeq)
    {
      replay, links, jobs, pendingNew, lastCommandSeq := store, map[], [], {}, store.commandSeq;
      log := past;
    }

    /** handleDurable up to the end of the synchronous part. */
    method Arrive(packet: Packet, bytesFull: bool) returns (queued: bool)
      modifies this`jobs
      ensures View() == Step(old(View()), Action.Arrive(packet, bytesFull))
      ensures queued <==> |old(jobs)| < 4096 && !bytesFull
      ensures jobs == if queued then old(jobs) + [Job(packet, Waiting)] else old(jobs)
    {
      if |jobs| >= MAX_DURABLE_PACKETS || bytesFull { return false; }
      jobs := jobs + [Job(packet, Waiting)];
      return true;
    }

    /** The check at admission, on the tables as they are. */
    method AdmitPacket(p: Packet, sessionRefuses: bool) returns (ok: bool)
      ensures ok <==> Admissible(View().adm, replay.View(), p, sessionRefuses)
      ensures ok <==>
        !sessionRefuses &&
        (p.uid in links ==>
           links[p.uid].boot < p.cursor.boot ||
           (links[p.uid].boot == p.cursor.boot && links[p.uid].num < p.cursor.num)) &&
        (p.uid in replay.cursors ==>
           replay.cursors[p.uid].boot < p.cursor.boot ||
           (replay.cursors[p.uid].boot == p.cursor.boot && replay.cursors[p.uid].num < p.cursor.num)) &&
        (p.uid !in links && p.uid !in replay.cursors ==>
           |links| + |pendingNew| < 5000 && |replay.cursors| + |pendingNew| < 5000)
    {
      AdmissibleIff(View().adm, replay.View(), p, sessionRefuses);
      var known := Known(links, replay.cursors, p.uid);
      if known.Some? && !Newer(p.cursor, known.value) { return false; }
      if known.None? && (|links| + |pendingNew| >= MAX_NODES || |replay.cursors| + |pendingNew| >= MAX_NODES) {
        return false;
      }
      return !sessionRefuses;
    }

    /** An admitted packet: reserve its node's place, note its command number, queue its entry. */
    method HandOver(index: nat) returns (queued: bool)
      requires index < |jobs|
      modifies this`jobs, this`pendingNew, this`lastCommandSeq, replay`pending, replay`queued
      ensures var p := old(jobs)[index].packet; var entry := Pending(p.uid, p.cursor, p.lastCmd);
        queued == (!replay.failed && ValidEntry(entry) && old(replay.queued) < 10000) &&
        jobs == old(jobs)[index := Job(p, if queued then Writing else Settled(false))] &&
        replay.pending == old(replay.pending) + (if queued then [entry] else []) &&
        replay.queued == old(replay.queued) + (if queued then 1 else 0) &&
        pendingNew == old(pendingNew) + (if p.uid in links || p.uid in replay.cursors then {} else {p.uid}) &&
        lastCommandSeq == if p.lastCmd.Some? && p.lastCmd.value > old(lastCommandSeq) then p.lastCmd.value
                          else old(lastCommandSeq)
    {
      var p := jobs[index].packet;
      if p.uid !in links && p.uid !in replay.cursors { pendingNew := pendingNew + {p.uid}; }
      if p.lastCmd.Some? { lastCommandSeq := Max(lastCommandSeq, p.lastCmd.value); }
      queued := replay.AcceptAsync(p.uid, p.cursor, p.lastCmd);
      jobs := jobs[index := Job(p, if queued then Writing else Settled(false))];
    }

    /** The packet whose predecessors are done: check it, then hand it to the journal. */
    method Admit(index: nat, sessionRefuses: bool) returns (refused: bool)
      requires index < |jobs| && jobs[index].phase.Waiting? && First(jobs, index)
      modifies this`jobs, this`pendingNew, this`lastCommandSeq, replay`pending, replay`queued
      ensures View() == AfterAdmit(old(View()), index, sessionRefuses)
      ensures var p := old(jobs)[index].packet;
        !refused <==>
          !sessionRefuses &&
          (p.uid in links ==>
             links[p.uid].boot < p.cursor.boot ||
             (links[p.uid].boot == p.cursor.boot && links[p.uid].num < p.cursor.num)) &&
          (p.uid in replay.cursors ==>
             replay.cursors[p.uid].boot < p.cursor.boot ||
             (replay.cursors[p.uid].boot == p.cursor.boot && replay.cursors[p.uid].num < p.cursor.num)) &&
          (p.uid !in links && p.uid !in replay.cursors ==>
             |links| + |old(pendingNew)| < 5000 && |replay.cursors| + |old(pendingNew)| < 5000)
      ensures refused ==>
        jobs == old(jobs)[..index] + old(jobs)[index + 1..] && replay.pending == old(replay.pending) &&
        pendingNew == old(pendingNew) && lastCommandSeq == old(lastCommandSeq)
      ensures !refused ==>
        var p := old(jobs)[index].packet;
        var entry := Pending(p.uid, p.cursor, p.lastCmd);
        var taken := !replay.failed && ValidEntry(entry) && old(replay.queued) < 10000;
        jobs == old(jobs)[index := Job(p, if taken then Writing else Settled(false))] &&
        replay.pending == old(replay.pending) + (if taken then [entry] else []) &&
        pendingNew == old(pendingNew) + (if p.uid in links || p.uid in replay.cursors then {} else {p.uid}) &&
        lastCommandSeq == if p.lastCmd.Some? && p.lastCmd.value > old(lastCommandSeq) then p.lastCmd.value
                          else old(lastCommandSeq)
    {
      ghost var before := View();
      var ok := AdmitPacket(jobs[index].packet, sessionRefuses);
      if ok {
        var queued := HandOver(index);
        HandedOver(before, index, sessionRefuses, View());
      } else {
        jobs := Drop(jobs, index);
      }
      return !ok;
    }

    /** Settle the promises of one batch, one by one. */
    method SettleAll(batch: seq<Pending>, durable: bool)
      modifies this`jobs
      ensures jobs == Settle(old(jobs), batch, durable)
      ensures |jobs| == |old(jobs)| && forall i :: 0 <= i < |jobs| ==>
        jobs[i] == if old(jobs)[i].phase.Writing? && Writes(batch, jobs[i].packet.uid)
                   then Job(old(jobs)[i].packet, Settled(durable)) else old(jobs)[i]
    {
      for i := 0 to |batch|
        invariant jobs == Settle(old(jobs), batch[..i], durable)
      {
        SettleSnoc(old(jobs), batch[..i], batch[i], durable);
        assert batch[..i + 1] == batch[..i] + [batch[i]];
        jobs := Settle(jobs, [batch[i]], durable);
      }
      assert batch[..|batch|] == batch;
    }

    /** The batch timer: write and start syncing everything queued. */
    method Flush(env: Env)
      requires Enabled(View(), Action.Flush(env))
      modifies this, replay
      ensures View() == Step(old(View()), Action.Flush(env))
      ensures |jobs| == |old(jobs)| && forall i :: 0 <= i < |jobs| ==>
        jobs[i] ==
          if !replay.flushing && old(jobs)[i].phase.Writing? && Writes(old(replay.pending), jobs[i].packet.uid)
          then Job(old(jobs)[i].packet, Settled(false)) else old(jobs)[i]
    {
      var rejected := replay.FlushBegin(env);
      SettleAll(rejected, false);
    }

    method SyncDone(ok: bool)
      requires Enabled(View(), Action.SyncDone(ok))
      modifies this, replay
      ensures View() == Step(old(View()), Action.SyncDone(ok))
      ensures var good := ok && !old(replay.failed);
        var settled := if good then old(replay.batch) else old(replay.batch) + old(replay.pending);
        |jobs| == |old(jobs)| && forall i :: 0 <= i < |jobs| ==>
          jobs[i] == if old(jobs)[i].phase.Writing? && Writes(settled, jobs[i].packet.uid)
                     then Job(old(jobs)[i].packet, Settled(good)) else old(jobs)[i]
    {
      var settled, durable := replay.FlushEnd(ok);
      SettleAll(settled, durable);
    }

    /** commitPacket, or the rejection that replaces it. */
    method Finish(index: nat, sessionOpen: bool) returns (accepted: bool)
      requires Enabled(View(), Action.Finish(index, sessionOpen))
      modifies this
      ensures View() == Step(old(View()), Action.Finish(index, sessionOpen))
      ensures var job := old(jobs)[index];
        (accepted <==> job.phase.durable && sessionOpen) &&
        jobs == old(jobs)[..index] + old(jobs)[index + 1..] && pendingNew == old(pendingNew) - {job.packet.uid} &&
        links == (if accepted then old(links)[job.packet.uid := job.packet.cursor] else old(links)) &&
        log == if accepted then old(log) + [Accept(job.packet.uid, job.packet.cursor)] else old(log)
    {
      var job := jobs[index];
      pendingNew, jobs := pendingNew - {job.packet.uid}, Drop(jobs, index);
      if !job.phase.durable || !sessionOpen { return false; }
      links := links[job.packet.uid := job.packet.cursor];
      log := log + [Accept(job.packet.uid, job.packet.cursor)];
      return true;
    }

    method AllocateCommandSeq(seconds: int, env: Env) returns (r: Option<int>)
      requires Enabled(View(), Allocate(seconds, env))
      modifies this, replay
      ensures View() == Step(old(View()), Allocate(seconds, env))
      ensures r.Some? ==>
        r.value == (if seconds > old(lastCommandSeq) then seconds else old(lastCommandSeq) + 1) &&
        lastCommandSeq == r.value && 0 <= r.value <= 0xffff_ffff && replay.commandSeq >= r.value
      ensures var num := if seconds > old(lastCommandSeq) then seconds else old(lastCommandSeq) + 1;
        r.Some? <==>
          0 <= num <= 0xffff_ffff && !old(replay.failed) &&
          (num <= old(replay.commandSeq) ||
           (env.write.Synced? && (old(replay.flushing) || old(replay.records) < 10000 || env.checkpointOk)))
      ensures r.Some? ==> log == old(log) + [Issue(r.value)]
      ensures r.None? ==> log == old(log)
    {
      var num := Max(seconds, lastCommandSeq + 1);
      var ok := replay.Command(num, env);
      if !ok { return None; }
      lastCommandSeq, log := num, log + [Issue(num)];
      return Some(num);
    }

    /** None means the call failed. */
    method ResetCursor(uid: Uid, env: Env) returns (r: Option<bool>)
      requires Enabled(View(), Action.ResetCursor(uid, env))
      modifies this, replay
      ensures View() == Step(old(View()), Action.ResetCursor(uid, env))
      ensures r.Some? ==> r.value == (uid in old(links) || uid in old(replay.cursors))
      ensures r.Some? <==>
        old(jobs) == [] && 0 <= uid <= 0xffff_ffff_ffff && old(replay.queued) == 0 && !old(replay.failed) &&
        env.write.Synced? && (old(replay.flushing) || old(replay.records) < 10000 || env.checkpointOk)
      ensures links == (if r.Some? then old(links) - {uid} else old(links))
      ensures replay.cursors == if r.Some? then old(replay.cursors) - {uid} else old(replay.cursors)
    {
      if |jobs| != 0 || !IsUid(uid) { return None; }
      if replay.queued == 0 && replay.View().Lands(env) { log := log + [Forgot(uid)]; }
      var saved := replay.Reset(uid, env);
      if saved.None? { return None; }
      var linked := uid in links;
      links := links - {uid};
      return Some(linked || saved.value);
    }
  }

  /** Start over an existing journal: read it strictly, rewrite it compacted, then serve. */
  method Open(file: Disk, order: seq<Uid>, checkpointOk: bool, ghost past: seq<Event>) returns (r: Result<IngestServer>)
    requires Enumerates(order, Fold(file.lines).cursors.Keys)
    ensures r.Ok? <==> Readable(file) && checkpointOk
    ensures r.Ok? ==> fresh(r.value) && fresh(r.value.replay)
    ensures r.Ok? ==> r.value.View() == Started(Fold(file.lines), order, past)
  {
    var snapshot := ReadSnapshot(file);
    if snapshot.Err? { return Err(snapshot.reason); }
    if !checkpointOk { return Err("checkpoint failed"); }
    var store := new ReplayStore(snapshot.value, order);
    var server := new IngestServer(store, past);
    return Ok(server);
  }
}

/**
 * Replay protection over every run: interleaved arrivals, batched and failing fsyncs, closed
 * sessions, command allocation, cursor resets, crashes and restarts.
 */
module IngestSafety {
  import opened Wrappers
  import opened Journal
  import opened Replay
  import opened Ingest

  // ---- what the log promises ---------------------------------------------------

  /** The last cursor accepted from a node since its cursor was last reset. */
  ghost function Last(log: seq<Event>, uid: Uid): Option<Cursor> {
    if log == [] then None
    else
      match log[|log| - 1]
      case Accept(u, c) => if u == uid then Some(c) else Last(log[..|log| - 1], uid)
      case Forgot(u) => if u == uid then None else Last(log[..|log| - 1], uid)
      case Issue(_) => Last(log[..|log| - 1], uid)
  }

  /** Between two acceptances from one node with no reset between them, the cursor rises. */
  ghost predicate AcceptsIncrease(log: seq<Event>) {
    forall i, j :: 0 <= i < j < |log| && log[i].Accept? && log[j].Accept? && log[i].uid == log[j].uid ==>
      (forall k :: i < k < j ==> log[k] != Forgot(log[i].uid)) ==> Newer(log[j].cursor, log[i].cursor)
  }

  /** Command numbers rise along the whole run, restarts included. */
  ghost predicate IssuesIncrease(log: seq<Event>) {
    forall i, j :: 0 <= i < j < |log| && log[i].Issue? && log[j].Issue? ==> log[i].num < log[j].num
  }

  ghost predicate Older(was: Option<Cursor>, c: Cursor) { was.Some? ==> Newer(c, was.value) }

  // ---- the invariant -----------------------------------------------------------

  /** A snapshot from which a restart would still refuse everything already accepted. */
  ghost predicate Covers(s: Snapshot, log: seq<Event>) {
    (forall uid :: Last(log, uid).Some? ==> uid in s.cursors && !Newer(Last(log, uid).value, s.cursors[uid])) &&
    (forall i :: 0 <= i < |log| && log[i].Issue? ==> log[i].num <= s.commandSeq)
  }

  ghost predicate DiskSafe(d: Disk, log: seq<Event>) {
    d.durable <= |d.lines| && AllValid(d.lines) &&
    forall k: nat :: CrashPoint(d, k) ==> Covers(After(d, k), log) && |After(d, k).cursors| <= MAX_NODES
  }

  /** Whatever prefix a crash keeps, the node's cursor is at least `c`. */
  ghost predicate Held(d: Disk, uid: Uid, c: Cursor) {
    forall k: nat :: CrashPoint(d, k) ==> uid in After(d, k).cursors && !Newer(c, After(d, k).cursors[uid])
  }

  /** Packets whose promise is still open: the batch being synced, then those behind it. */
  function Queue(st: Store): seq<Pending> { st.batch + st.pending }

  function JobOf(p: Pending): Job { Job(Packet(p.uid, p.cursor, p.commandSeq), Writing) }

  ghost predicate HeldKept(d: Disk, n: Disk) {
    forall uid, c :: Held(d, uid, c) ==> Held(n, uid, c)
  }

  /** Memory against file: equal when quiet, one batch behind while a batch is in flight. */
  ghost predicate StoreSafe(st: Store, d: Disk) {
    st.queued == |st.pending| + |st.batch| &&
    (!st.flushing ==> st.batch == []) &&
    (forall i :: 0 <= i < |Queue(st)| ==> ValidEntry(Queue(st)[i])) &&
    (!st.failed ==> !d.torn && Fold(d.lines) == Publish(st.Memory(), st.batch) &&
                    (!st.flushing ==> d.durable == |d.lines|)) &&
    U32(st.commandSeq) && (forall u <- st.cursors :: IsUid(u) && ValidCursor(st.cursors[u]))
  }

  ghost predicate JobSafe(e: Edge, j: Job) {
    var uid, c := j.packet.uid, j.packet.cursor;
    match j.phase
    case Waiting => true
    case Writing =>
      Older(Last(e.log, uid), c) && uid in e.store.cursors.Keys + e.adm.pendingNew &&
      (uid in e.store.cursors ==> Newer(c, e.store.cursors[uid])) &&
      Pending(uid, c, j.packet.lastCmd) in Queue(e.store)
    case Settled(durable) =>
      durable ==>
        Older(Last(e.log, uid), c) && uid in e.store.cursors && e.store.cursors[uid] == c && Held(e.disk, uid, c)
  }

  ghost predicate OneAhead(jobs: seq<Job>) {
    forall i, j :: 0 <= i < j < |jobs| && jobs[i].packet.uid == jobs[j].packet.uid ==> jobs[j].phase.Waiting?
  }

  ghost predicate Distinct(queue: seq<Pending>) {
    forall i, j :: 0 <= i < j < |queue| ==> queue[i].uid != queue[j].uid
  }

  ghost predicate QueueSafe(e: Edge) {
    var queue := Queue(e.store);
    OneAhead(e.adm.jobs) &&
    (forall i :: 0 <= i < |e.adm.jobs| ==> JobSafe(e, e.adm.jobs[i])) &&
    Distinct(queue) &&
    (forall i :: 0 <= i < |queue| ==> JobOf(queue[i]) in e.adm.jobs) &&
    (forall i :: 0 <= i < |queue| && queue[i].commandSeq.Some? ==> queue[i].commandSeq.value <= e.adm.lastCommandSeq)
  }

  ghost predicate Safe(e: Edge) {
    DiskSafe(e.disk, e.log) && AcceptsIncrease(e.log) && IssuesIncrease(e.log) &&
    (e.up ==>
       StoreSafe(e.store, e.disk) && QueueSafe(e) &&
       e.store.commandSeq <= e.adm.lastCommandSeq &&
       e.adm.links.Keys <= e.store.cursors.Keys &&
       (forall u <- e.adm.links :: !Newer(e.adm.links[u], e.store.cursors[u])) &&
       |e.store.cursors.Keys + e.adm.pendingNew| <= MAX_NODES)
  }

  // ---- log lemmas ----------------------------------------------------------------

  lemma LastSnoc(log: seq<Event>, ev: Event, uid: Uid)
    ensures Last(log + [ev], uid) ==
            (match ev
             case Accept(u, c) => if u == uid then Some(c) else Last(log, uid)
             case Forgot(u) => if u == uid then None else Last(log, uid)
             case Issue(_) => Last(log, uid))
  {
    assert (log + [ev])[..|log|] == log;
  }

  /** With no reset after it, an acceptance is at most the last one, provided the log rises. */
  lemma {:induction false} LastIsLatest(log: seq<Event>, i: nat, uid: Uid)
    requires AcceptsIncrease(log) && i < |log| && log[i].Accept? && log[i].uid == uid
    requires forall k :: i < k < |log| ==> log[k] != Forgot(uid)
    ensures Last(log, uid).Some? && !Newer(log[i].cursor, Last(log, uid).value)
  {
    var n := |log| - 1;
    if i < n {
      if log[n].Accept? && log[n].uid == uid {
        assert Newer(log[n].cursor, log[i].cursor);
      } else {
        LastIsLatest(log[..n], i, uid);
      }
    }
  }

  lemma AcceptKeepsOrder(log: seq<Event>, uid: Uid, c: Cursor)
    requires AcceptsIncrease(log) && IssuesIncrease(log) && Older(Last(log, uid), c)
    ensures AcceptsIncrease(log + [Accept(uid, c)]) && IssuesIncrease(log + [Accept(uid, c)])
  {
    var next := log + [Accept(uid, c)];
    forall i | 0 <= i < |log| && log[i].Accept? && log[i].uid == uid && forall k :: i < k < |log| ==>
      next[k] != Forgot(uid)
      ensures Newer(c, log[i].cursor)
    {
      assert forall k :: i < k < |log| ==> log[k] == next[k];
      LastIsLatest(log, i, uid);
    }
    forall i, j | 0 <= i < j < |next| && next[i].Accept? && next[j].Accept? && next[i].uid == next[j].uid &&
      (forall k :: i < k < j ==> next[k] != Forgot(next[i].uid))
      ensures Newer(next[j].cursor, next[i].cursor)
    {
      if j < |log| {
        assert forall k :: i < k < j ==> log[k] == next[k];
        assert log[i] == next[i] && log[j] == next[j];
      }
    }
  }

  lemma OtherKeepsOrder(log: seq<Event>, ev: Event)
    requires AcceptsIncrease(log) && IssuesIncrease(log) && !ev.Accept?
    requires ev.Issue? ==> forall i :: 0 <= i < |log| && log[i].Issue? ==> log[i].num < ev.num
    ensures AcceptsIncrease(log + [ev]) && IssuesIncrease(log + [ev])
  {
    var next := log + [ev];
    forall i, j | 0 <= i < j < |next| && next[i].Accept? && next[j].Accept? && next[i].uid == next[j].uid &&
      (forall k :: i < k < j ==> next[k] != Forgot(next[i].uid))
      ensures Newer(next[j].cursor, next[i].cursor)
    {
      assert forall k :: i < k < j ==> log[k] == next[k];
      assert log[i] == next[i] && log[j] == next[j];
    }
  }

  // ---- disk lemmas ---------------------------------------------------------------

  lemma SetBound<T>(a: set<T>, b: set<T>)
    requires a <= b
    ensures |a| <= |b|
  {
    assert b == a + (b - a);
  }

  lemma CoversAtLeast(s: Snapshot, t: Snapshot, log: seq<Event>)
    requires Covers(s, log) && AtLeast(t, s)
    ensures Covers(t, log)
  {}

  /** Keep a prefix of the old lines, or all of them plus some that only raise the state. */
  lemma GrowDisk(d: Disk, lines: seq<Record>, durable: nat, torn: bool, log: seq<Event>, allowed: set<Uid>)
    requires DiskSafe(d, log)
    requires d.durable <= durable <= |d.lines + lines|
    requires Raises(d.lines, lines, allowed) && |allowed| <= MAX_NODES
    ensures DiskSafe(Disk(d.lines + lines, durable, torn), log)
    ensures HeldKept(d, Disk(d.lines + lines, durable, torn))
  {
    var n := Disk(d.lines + lines, durable, torn);
    forall k: nat | CrashPoint(n, k)
      ensures exists j: nat :: CrashPoint(d, j) && AtLeast(After(n, k), After(d, j))
      ensures |After(n, k).cursors| <= MAX_NODES
    {
      if k <= |d.lines| {
        assert n.lines[..k] == d.lines[..k];
        assert CrashPoint(d, k) && AtLeast(After(n, k), After(d, k));
      } else {
        var m: nat := k - |d.lines|;
        assert n.lines[..k] == d.lines + lines[..m];
        SetBound(After(n, k).cursors.Keys, allowed);
        assert d.lines[..|d.lines|] == d.lines;
        assert CrashPoint(d, |d.lines|) && AtLeast(After(n, k), After(d, |d.lines|));
      }
    }
    forall k: nat | CrashPoint(n, k) ensures Covers(After(n, k), log) {
      var j: nat :| CrashPoint(d, j) && AtLeast(After(n, k), After(d, j));
      CoversAtLeast(After(d, j), After(n, k), log);
    }
    forall uid, c, k: nat | Held(d, uid, c) && CrashPoint(n, k)
      ensures uid in After(n, k).cursors && !Newer(c, After(n, k).cursors[uid])
    {
      var j: nat :| CrashPoint(d, j) && AtLeast(After(n, k), After(d, j));
    }
  }

  /** Making more of the same lines durable only removes crash points. */
  lemma HardenDisk(d: Disk, log: seq<Event>)
    requires DiskSafe(d, log)
    ensures DiskSafe(d.(durable := |d.lines|), log)
    ensures HeldKept(d, d.(durable := |d.lines|))
  {
    var n := d.(durable := |d.lines|);
    forall k: nat | CrashPoint(n, k) ensures CrashPoint(d, k) && After(n, k) == After(d, k) {}
  }

  lemma CompactDisk(st: Store, d: Disk, order: seq<Uid>, log: seq<Event>)
    requires StoreSafe(st, d) && DiskSafe(d, log) && !st.failed && !st.flushing
    requires Enumerates(order, st.cursors.Keys)
    ensures Fold(st.Checkpointed(order).lines) == st.Memory()
    ensures DiskSafe(st.Checkpointed(order), log)
    ensures HeldKept(d, st.Checkpointed(order))
  {
    var n := st.Checkpointed(order);
    CompactionPreserves(order, st.Memory());
    CheckpointValid(order, st.Memory());
    assert d.lines[..|d.lines|] == d.lines;
    assert CrashPoint(d, |d.lines|) && After(d, |d.lines|) == st.Memory();
    StartedDisk(n, st.Memory(), log);
    SettledHolds(d, n);
  }

  /** A file that is durable, with the same contents, holds what the other did. */
  lemma SettledHolds(d: Disk, n: Disk)
    requires n.durable == |n.lines| && Fold(n.lines) == Fold(d.lines) && CrashPoint(d, |d.lines|)
    ensures HeldKept(d, n)
  {
    assert n.lines[..|n.lines|] == n.lines && d.lines[..|d.lines|] == d.lines;
    forall uid, c | Held(d, uid, c) ensures Held(n, uid, c) { assert After(d, |d.lines|) == After(n, |n.lines|); }
  }

  // ---- one batch on disk -----------------------------------------------------------

  /** The nodes a batch writes for. */
  ghost function Uids(batch: seq<Pending>): set<Uid> { set i | 0 <= i < |batch| :: batch[i].uid }

  ghost predicate Rising(st: Store, batch: seq<Pending>) {
    Distinct(batch) &&
    forall i :: 0 <= i < |batch| && batch[i].uid in st.cursors ==> Newer(batch[i].cursor, st.cursors[batch[i].uid])
  }

  lemma {:induction false} PublishFrame(s: Snapshot, batch: seq<Pending>, uid: Uid)
    requires forall i :: 0 <= i < |batch| ==> batch[i].uid != uid
    ensures uid in Publish(s, batch).cursors <==> uid in s.cursors
    ensures uid in s.cursors ==> Publish(s, batch).cursors[uid] == s.cursors[uid]
  {
    if batch != [] { PublishFrame(s, batch[..|batch| - 1], uid); }
  }

  lemma {:induction false} PublishSets(s: Snapshot, batch: seq<Pending>, i: nat)
    requires i < |batch| && Distinct(batch)
    ensures batch[i].uid in Publish(s, batch).cursors && Publish(s, batch).cursors[batch[i].uid] == batch[i].cursor
  {
    if i < |batch| - 1 { PublishSets(s, batch[..|batch| - 1], i); }
  }

  lemma UidsSnoc(rest: seq<Pending>, p: Pending)
    ensures Uids(rest + [p]) == Uids(rest) + {p.uid}
  {
    var batch := rest + [p];
    forall u | u in Uids(rest) ensures u in Uids(batch) {
      var i :| 0 <= i < |rest| && rest[i].uid == u;
      assert batch[i].uid == u;
    }
    assert batch[|rest|].uid in Uids(batch);
  }

  lemma {:induction false} PublishKeys(s: Snapshot, batch: seq<Pending>)
    ensures Publish(s, batch).cursors.Keys == s.cursors.Keys + Uids(batch)
    ensures Publish(s, batch).commandSeq >= s.commandSeq
    ensures forall p <- batch :: p.commandSeq.Some? ==> p.commandSeq.value <= Publish(s, batch).commandSeq
  {
    if batch != [] {
      var rest, p := batch[..|batch| - 1], batch[|batch| - 1];
      PublishKeys(s, rest);
      assert batch == rest + [p];
      UidsSnoc(rest, p);
    }
  }

  lemma {:induction false} PublishBound(s: Snapshot, batch: seq<Pending>, limit: int)
    requires s.commandSeq <= limit
    requires forall p <- batch :: p.commandSeq.Some? ==> p.commandSeq.value <= limit
    ensures Publish(s, batch).commandSeq <= limit
  {
    if batch != [] {
      assert forall p <- batch[..|batch| - 1] :: p in batch;
      assert batch[|batch| - 1] in batch;
      PublishBound(s, batch[..|batch| - 1], limit);
    }
  }

  lemma AtLeastTransitive(a: Snapshot, b: Snapshot, c: Snapshot)
    requires AtLeast(b, a) && AtLeast(c, b)
    ensures AtLeast(c, a)
  {}

  /** With `part` written after `lines` the state is raised, for allowed nodes only. */
  ghost predicate RaisedBy(lines: seq<Record>, part: seq<Record>, allowed: set<Uid>) {
    AtLeast(Fold(lines + part), Fold(lines)) && Fold(lines + part).cursors.Keys <= allowed
  }

  /** So it is by each prefix of `extra`. */
  ghost predicate Raises(lines: seq<Record>, extra: seq<Record>, allowed: set<Uid>) {
    AllValid(extra) && forall m: nat :: m <= |extra| ==> RaisedBy(lines, extra[..m], allowed)
  }

  lemma ApplyRaises(s: Snapshot, r: Record)
    requires !r.Forget? && !r.Malformed?
    requires r.Seen? && r.uid in s.cursors ==> Newer(r.cursor, s.cursors[r.uid])
    ensures AtLeast(Apply(s, r), s)
  {}

  lemma RaiseOne(lines: seq<Record>, extra: seq<Record>, r: Record, allowed: set<Uid>)
    requires Raises(lines, extra, allowed) && ValidRecord(r) && !r.Forget?
    requires r.Seen? ==> r.uid in allowed
    requires r.Seen? && r.uid in Fold(lines + extra).cursors ==> Newer(r.cursor, Fold(lines + extra).cursors[r.uid])
    ensures Raises(lines, extra + [r], allowed)
    ensures Fold(lines + (extra + [r])) == Apply(Fold(lines + extra), r)
  {
    var more := extra + [r];
    FoldSnoc(lines + extra, r);
    assert lines + more == lines + extra + [r];
    PrefixOfSnoc(extra, r, |extra|);
    assert RaisedBy(lines, extra[..|extra|], allowed);
    RaiseAll(lines, extra, r, allowed);
    forall m: nat | m <= |more| ensures RaisedBy(lines, more[..m], allowed) { PrefixOfSnoc(extra, r, m); }
  }

  lemma PrefixOfSnoc<T>(s: seq<T>, x: T, m: nat)
    requires m <= |s| + 1
    ensures (s + [x])[..m] == if m <= |s| then s[..m] else s + [x]
    ensures s[..|s|] == s
  {
  }

  lemma RaiseAll(lines: seq<Record>, extra: seq<Record>, r: Record, allowed: set<Uid>)
    requires RaisedBy(lines, extra, allowed) && ValidRecord(r) && !r.Forget? && (r.Seen? ==> r.uid in allowed)
    requires r.Seen? && r.uid in Fold(lines + extra).cursors ==> Newer(r.cursor, Fold(lines + extra).cursors[r.uid])
    requires Fold(lines + (extra + [r])) == Apply(Fold(lines + extra), r)
    ensures RaisedBy(lines, extra + [r], allowed)
  {
    var whole := Fold(lines + extra);
    ApplyRaises(whole, r);
    AtLeastTransitive(Fold(lines), whole, Apply(whole, r));
  }

  /** Every prefix of a batch's lines raises the state and stays within the batch's nodes. */
  lemma {:induction false} BatchOnDisk(st: Store, lines: seq<Record>, batch: seq<Pending>, allowed: set<Uid>)
    requires Fold(lines) == st.Memory() && Rising(st, batch)
    requires forall i :: 0 <= i < |batch| ==> ValidEntry(batch[i]) && batch[i].uid in allowed
    requires st.cursors.Keys <= allowed
    ensures Raises(lines, BatchLines(batch), allowed)
    ensures Fold(lines + BatchLines(batch)) == Publish(st.Memory(), batch)
  {
    if batch == [] {
      assert lines + [] == lines;
    } else {
      var rest, p := batch[..|batch| - 1], batch[|batch| - 1];
      BatchOnDisk(st, lines, rest, allowed);
      PublishFrame(st.Memory(), rest, p.uid);
      var part := BatchLines(rest);
      RaiseOne(lines, part, Seen(p.uid, p.cursor), allowed);
      if p.commandSeq.Some? {
        RaiseOne(lines, part + [Seen(p.uid, p.cursor)], Cmd(p.commandSeq.value), allowed);
        assert BatchLines(batch) == part + [Seen(p.uid, p.cursor)] + [Cmd(p.commandSeq.value)];
      } else {
        assert BatchLines(batch) == part + [Seen(p.uid, p.cursor)];
      }
    }
  }

  // ---- each step keeps the invariant -------------------------------------------------

  lemma KeepsArrive(e: Edge, p: Packet, bytesFull: bool)
    requires Safe(e) && Enabled(e, Arrive(p, bytesFull))
    ensures Safe(Step(e, Arrive(p, bytesFull)))
  {
    var n := Step(e, Arrive(p, bytesFull));
    forall i | 0 <= i < |n.adm.jobs| ensures JobSafe(n, n.adm.jobs[i]) {
      if i < |e.adm.jobs| { assert JobSafe(e, e.adm.jobs[i]); }
    }
  }

  lemma DropKeeps(jobs: seq<Job>, i: nat)
    requires i < |jobs| && OneAhead(jobs)
    ensures OneAhead(Drop(jobs, i))
    ensures forall j :: j in jobs && j != jobs[i] ==> j in Drop(jobs, i)
    ensures forall k :: 0 <= k < |Drop(jobs, i)| ==> Drop(jobs, i)[k] == jobs[if k < i then k else k + 1]
  {
    var rest := Drop(jobs, i);
    forall k | 0 <= k < |rest| ensures rest[k] == jobs[if k < i then k else k + 1] {}
    forall j | j in jobs && j != jobs[i] ensures j in rest {
      var m :| 0 <= m < |jobs| && jobs[m] == j;
      assert rest[if m < i then m else m - 1] == j;
    }
  }

  /** The head of a chain, while waiting, has no write in the store. */
  lemma HeadIsIdle(e: Edge, i: nat)
    requires QueueSafe(e) && e.up && i < |e.adm.jobs| && e.adm.jobs[i].phase.Waiting? && First(e.adm.jobs, i)
    ensures forall q :: 0 <= q < |Queue(e.store)| ==> Queue(e.store)[q].uid != e.adm.jobs[i].packet.uid
  {
    var queue := Queue(e.store);
    forall q | 0 <= q < |queue| ensures queue[q].uid != e.adm.jobs[i].packet.uid {
      assert JobOf(queue[q]) in e.adm.jobs;
      var m :| 0 <= m < |e.adm.jobs| && e.adm.jobs[m] == JobOf(queue[q]);
    }
  }

  lemma KeepsAdmit(e: Edge, i: nat, refuses: bool)
    requires Safe(e) && Enabled(e, Admit(i, refuses))
    ensures Safe(Step(e, Admit(i, refuses)))
  {
    var p, n := e.adm.jobs[i].packet, Step(e, Admit(i, refuses));
    assert Safe(n) by {
      if !Admissible(e.adm, e.store, p, refuses) {
        KeepsDrop(e, i);
      } else {
        AdmittedFits(e, i, refuses);
        AdmittedIs(e, i, refuses);
        AcceptKeepsStore(e.store, e.disk, Pending(p.uid, p.cursor, p.lastCmd));
        if e.store.AcceptAsync(Pending(p.uid, p.cursor, p.lastCmd)).1 {
          AdmittedIsNew(e, i, refuses);
          QueueGrows(e, i, refuses);
        } else {
          StoreRefuses(e, i, refuses);
        }
      }
    }
  }

  /** Admission leaves the file and the tables; the store at most queues one more entry. */
  lemma AdmittedIs(e: Edge, i: nat, refuses: bool)
    requires Enabled(e, Admit(i, refuses)) && Admissible(e.adm, e.store, e.adm.jobs[i].packet, refuses)
    ensures var p, n := e.adm.jobs[i].packet, Step(e, Admit(i, refuses));
      n.disk == e.disk && n.log == e.log && n.up && n.adm.links == e.adm.links &&
        e.adm.lastCommandSeq <= n.adm.lastCommandSeq &&
      n.store == e.store.AcceptAsync(Pending(p.uid, p.cursor, p.lastCmd)).0
  {
  }

  lemma AcceptKeepsStore(st: Store, d: Disk, p: Pending)
    requires StoreSafe(st, d)
    ensures StoreSafe(st.AcceptAsync(p).0, d)
    ensures st.AcceptAsync(p).0.cursors == st.cursors && st.AcceptAsync(p).0.commandSeq == st.commandSeq
  {
    var n := st.AcceptAsync(p).0;
    if n != st {
      assert Queue(n) == Queue(st) + [p];
      forall k | 0 <= k < |Queue(n)|
        ensures ValidEntry(Queue(n)[k])
      {
        if k < |Queue(st)| { assert ValidEntry(Queue(st)[k]); }
      }
    }
  }

  /** The packet's own entry is the only change to the queue, and its job the only change to the jobs. */
  ghost predicate Queues(e: Edge, n: Edge, i: nat) {
    i < |e.adm.jobs| &&
    (var p := e.adm.jobs[i].packet;
     Queue(n.store) == Queue(e.store) + [Pending(p.uid, p.cursor, p.lastCmd)] &&
     n.adm.jobs == e.adm.jobs[i := Job(p, Writing)] && n.store.cursors == e.store.cursors && n.disk == e.disk &&
       n.log == e.log &&
     n.adm.pendingNew == (if p.uid !in e.store.cursors then e.adm.pendingNew + {p.uid} else e.adm.pendingNew))
  }

  lemma QueuedJobs(e: Edge, n: Edge, i: nat, k: nat)
    requires QueueSafe(e) && Queues(e, n, i) && k < |e.adm.jobs|
    requires var p := e.adm.jobs[i].packet;
      Older(Last(e.log, p.uid), p.cursor) && (p.uid in e.store.cursors ==> Newer(p.cursor, e.store.cursors[p.uid]))
    ensures JobSafe(n, n.adm.jobs[k])
  {
    if k != i { assert JobSafe(e, e.adm.jobs[k]); } else { assert Queue(n.store)[|Queue(e.store)|] in Queue(n.store); }
  }

  lemma QueuedEntries(e: Edge, n: Edge, i: nat, q: nat)
    requires QueueSafe(e) && Queues(e, n, i) && e.adm.jobs[i].phase.Waiting? && q < |Queue(n.store)|
    ensures JobOf(Queue(n.store)[q]) in n.adm.jobs
  {
    if q < |Queue(e.store)| {
      var m :| 0 <= m < |e.adm.jobs| && e.adm.jobs[m] == JobOf(Queue(e.store)[q]);
      assert n.adm.jobs[m] == e.adm.jobs[m];
    } else {
      assert n.adm.jobs[i] == JobOf(Queue(n.store)[q]);
    }
  }

  /** Admission of a packet the store takes. */
  lemma AdmitQueues(e: Edge, i: nat, refuses: bool)
    requires Enabled(e, Admit(i, refuses)) && e.adm.links.Keys <= e.store.cursors.Keys
    requires var p := e.adm.jobs[i].packet;
      Admissible(e.adm, e.store, p, refuses) && e.store.AcceptAsync(Pending(p.uid, p.cursor, p.lastCmd)).1
    ensures var p, n := e.adm.jobs[i].packet, Step(e, Admit(i, refuses));
      Queues(e, n, i) && e.adm.lastCommandSeq <= n.adm.lastCommandSeq &&
      (p.lastCmd.Some? ==> p.lastCmd.value <= n.adm.lastCommandSeq)
  {
  }

  lemma QueueGrows(e: Edge, i: nat, refuses: bool)
    requires QueueSafe(e) && e.adm.links.Keys <= e.store.cursors.Keys && Enabled(e, Admit(i, refuses))
    requires var p := e.adm.jobs[i].packet;
      Admissible(e.adm, e.store, p, refuses) && e.store.AcceptAsync(Pending(p.uid, p.cursor, p.lastCmd)).1 &&
      Older(Last(e.log, p.uid), p.cursor)
    ensures QueueSafe(Step(e, Admit(i, refuses)))
  {
    var n := Step(e, Admit(i, refuses));
    HeadIsIdle(e, i);
    AdmitQueues(e, i, refuses);
    assert QueueSafe(n) by {
      forall k: nat | k < |n.adm.jobs| ensures JobSafe(n, n.adm.jobs[k]) { QueuedJobs(e, n, i, k); }
      forall q: nat | q < |Queue(n.store)| ensures JobOf(Queue(n.store)[q]) in n.adm.jobs { QueuedEntries(e, n, i, q); }
    }
  }

  /** A packet the store refuses is settled at once; the queue stays as it was. */
  ghost predicate Refuses(e: Edge, n: Edge, i: nat) {
    i < |e.adm.jobs| && n.store == e.store && n.disk == e.disk && n.log == e.log &&
    n.adm.jobs == e.adm.jobs[i := Job(e.adm.jobs[i].packet, Settled(false))] &&
    e.adm.pendingNew <= n.adm.pendingNew && e.adm.lastCommandSeq <= n.adm.lastCommandSeq
  }

  lemma RefusedJob(e: Edge, n: Edge, i: nat, k: nat)
    requires QueueSafe(e) && Refuses(e, n, i) && k < |e.adm.jobs|
    ensures JobSafe(n, n.adm.jobs[k])
  {
    if k != i { assert JobSafe(e, e.adm.jobs[k]); }
  }

  lemma RefusedEntry(e: Edge, n: Edge, i: nat, q: nat)
    requires QueueSafe(e) && Refuses(e, n, i) && e.adm.jobs[i].phase.Waiting? && q < |Queue(e.store)|
    ensures JobOf(Queue(e.store)[q]) in n.adm.jobs
  {
    var m :| 0 <= m < |e.adm.jobs| && e.adm.jobs[m] == JobOf(Queue(e.store)[q]);
    assert n.adm.jobs[m] == e.adm.jobs[m];
  }

  lemma RefusedSafe(e: Edge, n: Edge, i: nat)
    requires QueueSafe(e) && Refuses(e, n, i) && e.adm.jobs[i].phase.Waiting? && First(e.adm.jobs, i)
    ensures QueueSafe(n)
  {
    forall k: nat | k < |n.adm.jobs| ensures JobSafe(n, n.adm.jobs[k]) { RefusedJob(e, n, i, k); }
    forall q: nat | q < |Queue(n.store)| ensures JobOf(Queue(n.store)[q]) in n.adm.jobs { RefusedEntry(e, n, i, q); }
  }

  lemma StoreRefuses(e: Edge, i: nat, refuses: bool)
    requires QueueSafe(e) && Enabled(e, Admit(i, refuses))
    requires var p := e.adm.jobs[i].packet;
      Admissible(e.adm, e.store, p, refuses) && !e.store.AcceptAsync(Pending(p.uid, p.cursor, p.lastCmd)).1
    ensures QueueSafe(Step(e, Admit(i, refuses)))
  {
    var n := Step(e, Admit(i, refuses));
    assert Refuses(e, n, i);
    RefusedSafe(e, n, i);
  }

  lemma KeepsDrop(e: Edge, i: nat)
    requires Safe(e) && e.up && i < |e.adm.jobs| && e.adm.jobs[i].phase.Waiting?
    ensures Safe(e.(adm := e.adm.(jobs := Drop(e.adm.jobs, i))))
  {
    var n := e.(adm := e.adm.(jobs := Drop(e.adm.jobs, i)));
    DropKeeps(e.adm.jobs, i);
    forall k | 0 <= k < |n.adm.jobs| ensures JobSafe(n, n.adm.jobs[k]) {
      assert JobSafe(e, e.adm.jobs[if k < i then k else k + 1]);
    }
  }

  /** An admitted packet is newer than everything accepted, whatever the disk holds. */
  lemma AdmittedIsNew(e: Edge, i: nat, refuses: bool)
    requires Safe(e) && Enabled(e, Admit(i, refuses)) && !e.store.failed
    requires Admissible(e.adm, e.store, e.adm.jobs[i].packet, refuses)
    ensures Older(Last(e.log, e.adm.jobs[i].packet.uid), e.adm.jobs[i].packet.cursor)
  {
    var uid := e.adm.jobs[i].packet.uid;
    HeadIsIdle(e, i);
    assert forall b :: 0 <= b < |e.store.batch| ==> e.store.batch[b] == Queue(e.store)[b];
    PublishFrame(e.store.Memory(), e.store.batch, uid);
    assert e.disk.lines[..|e.disk.lines|] == e.disk.lines;
    assert CrashPoint(e.disk, |e.disk.lines|) && Covers(After(e.disk, |e.disk.lines|), e.log);
  }

  lemma RoomForOne(known: set<Uid>, coming: set<Uid>, uid: Uid)
    requires |known + coming| <= MAX_NODES && (uid !in known ==> |known| + |coming| < MAX_NODES)
    ensures |known + (coming + {uid})| <= MAX_NODES
  {
    assert known + (coming + {uid}) == (known + coming) + {uid};
    if uid in known { assert (known + coming) + {uid} == known + coming; }
    assert |known + coming| <= |known| + |coming|;
  }

  lemma AdmissibleRoom(a: Admission, store: Store, p: Packet, refuses: bool)
    requires Admissible(a, store, p, refuses) && a.links.Keys <= store.cursors.Keys && p.uid !in store.cursors
    ensures |store.cursors.Keys| + |a.pendingNew| < MAX_NODES
  {
    assert |store.cursors| == |store.cursors.Keys|;
  }

  lemma AdmittedTable(e: Edge, i: nat, refuses: bool)
    requires i < |e.adm.jobs| && Admissible(e.adm, e.store, e.adm.jobs[i].packet, refuses)
    requires e.adm.links.Keys <= e.store.cursors.Keys
    ensures var n, uid := AfterAdmit(e, i, refuses), e.adm.jobs[i].packet.uid;
      n.store.cursors == e.store.cursors &&
      n.adm.pendingNew == if uid !in e.store.cursors then e.adm.pendingNew + {uid} else e.adm.pendingNew
  {
  }

  /** The node table counts in-flight newcomers, so it never overflows. */
  lemma AdmittedFits(e: Edge, i: nat, refuses: bool)
    requires |e.store.cursors.Keys + e.adm.pendingNew| <= MAX_NODES && i < |e.adm.jobs|
    requires e.adm.links.Keys <= e.store.cursors.Keys && Admissible(e.adm, e.store, e.adm.jobs[i].packet, refuses)
    ensures var n := AfterAdmit(e, i, refuses); |n.store.cursors.Keys + n.adm.pendingNew| <= MAX_NODES
  {
    AdmittedTable(e, i, refuses);
    var uid := e.adm.jobs[i].packet.uid;
    if uid !in e.store.cursors {
      AdmissibleRoom(e.adm, e.store, e.adm.jobs[i].packet, refuses);
      RoomForOne(e.store.cursors.Keys, e.adm.pendingNew, uid);
    }
  }

  // ---- flushing --------------------------------------------------------------------

  /** Every open write in the store belongs to a packet of the batch being settled. */
  lemma SettledJobs(jobs: seq<Job>, batch: seq<Pending>, durable: bool, i: nat)
    requires i < |jobs|
    ensures Settle(jobs, batch, durable)[i].packet == jobs[i].packet
    ensures Settle(jobs, batch, durable)[i] ==
      if jobs[i].phase.Writing? && Writes(batch, jobs[i].packet.uid) then Job(jobs[i].packet, Settled(durable))
      else jobs[i]
  {}

  /** A flush that fails rejects every open write, and touches neither cursors nor table. */
  lemma FailureKeeps(e: Edge, store: Store, disk: Disk)
    requires Safe(e) && e.up && DiskSafe(disk, e.log)
    requires HeldKept(e.disk, disk)
    requires store.cursors == e.store.cursors && store.commandSeq == e.store.commandSeq
    requires store.failed && store.pending == [] && store.batch == [] && !store.flushing && store.queued == 0
    ensures Safe(e.(store := store, disk := disk, adm := e.adm.(jobs := Settle(e.adm.jobs, Queue(e.store), false))))
  {
    var n := e.(store := store, disk := disk, adm := e.adm.(jobs := Settle(e.adm.jobs, Queue(e.store), false)));
    forall i | 0 <= i < |n.adm.jobs| ensures JobSafe(n, n.adm.jobs[i]) {
      SettledJobs(e.adm.jobs, Queue(e.store), false, i);
      var j := e.adm.jobs[i];
      assert JobSafe(e, j);
      if j.phase.Writing? {
        var q :| 0 <= q < |Queue(e.store)| &&
          Queue(e.store)[q] == Pending(j.packet.uid, j.packet.cursor, j.packet.lastCmd);
        assert Writes(Queue(e.store), j.packet.uid);
      }
    }
    SettleKeepsOrder(e.adm.jobs, Queue(e.store), false);
  }

  lemma SettleKeepsOrder(jobs: seq<Job>, batch: seq<Pending>, durable: bool)
    requires OneAhead(jobs)
    ensures OneAhead(Settle(jobs, batch, durable))
  {
    var n := Settle(jobs, batch, durable);
    forall i, j | 0 <= i < j < |n| && n[i].packet.uid == n[j].packet.uid ensures n[j].phase.Waiting? {
      SettledJobs(jobs, batch, durable, i);
      SettledJobs(jobs, batch, durable, j);
    }
  }

  /** The batch comes before the rest of the queue, and no node occurs twice. */
  lemma QueueParts(batch: seq<Pending>, pending: seq<Pending>)
    requires Distinct(batch + pending)
    ensures Distinct(batch) && Distinct(pending)
    ensures forall q :: 0 <= q < |batch| ==> batch[q] == (batch + pending)[q]
    ensures forall q :: 0 <= q < |pending| ==> pending[q] == (batch + pending)[|batch| + q]
    ensures forall a, b :: 0 <= a < |batch| && 0 <= b < |pending| ==> batch[a].uid != pending[b].uid
  {
    var nb, queue := |batch|, batch + pending;
    forall q | 0 <= q < |pending| ensures pending[q] == queue[nb + q] {}
    forall a, b | 0 <= a < b < nb ensures batch[a].uid != batch[b].uid {
      assert queue[a].uid != queue[b].uid;
    }
    forall a, b | 0 <= a < b < |pending| ensures pending[a].uid != pending[b].uid {
      assert queue[nb + a].uid != queue[nb + b].uid;
    }
    forall a, b | 0 <= a < nb && 0 <= b < |pending| ensures batch[a].uid != pending[b].uid {
      assert queue[a].uid != queue[nb + b].uid;
    }
  }

  /** The nodes the edge knows, or has admitted. */
  function Allowed(e: Edge): set<Uid> { e.store.cursors.Keys + e.adm.pendingNew }

  lemma QueuedEntry(e: Edge, q: nat)
    requires Safe(e) && e.up && !e.store.flushing && q < |e.store.pending|
    ensures var p := e.store.pending[q];
      ValidEntry(p) && p.uid in Allowed(e) && (p.uid in e.store.cursors ==> Newer(p.cursor, e.store.cursors[p.uid]))
  {
    assert Queue(e.store) == e.store.pending;
    assert ValidEntry(Queue(e.store)[q]);
    QueuedIsNew(e, q);
  }

  /** Every prefix of the queue's lines raises the state of the file they are written to. */
  lemma BatchRaises(e: Edge, lines: seq<Record>)
    requires Safe(e) && e.up && !e.store.flushing && Fold(lines) == e.store.Memory()
    ensures Raises(lines, BatchLines(e.store.pending), Allowed(e))
    ensures Fold(lines + BatchLines(e.store.pending)) == Publish(e.store.Memory(), e.store.pending)
  {
    var batch := e.store.pending;
    assert Queue(e.store) == batch;
    forall q | 0 <= q < |batch|
      ensures ValidEntry(batch[q]) && batch[q].uid in Allowed(e)
      ensures batch[q].uid in e.store.cursors ==> Newer(batch[q].cursor, e.store.cursors[batch[q].uid])
    {
      QueuedEntry(e, q);
    }
    BatchOnDisk(e.store, lines, batch, Allowed(e));
  }

  lemma RaisesPrefix(lines: seq<Record>, all: seq<Record>, n: nat, allowed: set<Uid>)
    requires Raises(lines, all, allowed) && n <= |all|
    ensures Raises(lines, all[..n], allowed)
  {
    forall m: nat | m <= n ensures all[..n][..m] == all[..m] {}
  }

  /** Part of a batch reaching the file, durable or not, endangers nothing. */
  lemma BatchReachesDisk(e: Edge, file: Disk, n: nat, torn: bool)
    requires Safe(e) && e.up && !e.store.flushing && Fold(file.lines) == e.store.Memory()
    requires DiskSafe(file, e.log) && HeldKept(e.disk, file) && n <= |BatchLines(e.store.pending)|
    ensures Fold(file.lines + BatchLines(e.store.pending)) == Publish(e.store.Memory(), e.store.pending)
    ensures
      var disk := file.(lines := file.lines + BatchLines(e.store.pending)[..n], torn := torn);
      DiskSafe(disk, e.log) && HeldKept(e.disk, disk)
  {
    var all := BatchLines(e.store.pending);
    BatchRaises(e, file.lines);
    RaisesPrefix(file.lines, all, n, Allowed(e));
    GrowDisk(file, all[..n], file.durable, torn, e.log, Allowed(e));
  }

  lemma QueuedIsNew(e: Edge, q: nat)
    requires QueueSafe(e) && e.up && q < |Queue(e.store)|
    ensures var p := Queue(e.store)[q];
      p.uid in e.store.cursors.Keys + e.adm.pendingNew &&
      (p.uid in e.store.cursors ==> Newer(p.cursor, e.store.cursors[p.uid]))
  {
    assert JobOf(Queue(e.store)[q]) in e.adm.jobs;
    var m :| 0 <= m < |e.adm.jobs| && e.adm.jobs[m] == JobOf(Queue(e.store)[q]);
    assert JobSafe(e, e.adm.jobs[m]);
  }

  /** The file a batch is appended to, and the store that appends it. */
  lemma FlushTarget(e: Edge, env: Env)
    requires Safe(e) && Enabled(e, Flush(env)) && !e.store.failed && (e.store.records < COMPACT_AT || env.checkpointOk)
    ensures var file := if e.store.records >= COMPACT_AT then e.store.Checkpointed(env.order) else e.disk;
      Fold(file.lines) == e.store.Memory() && DiskSafe(file, e.log) && HeldKept(e.disk, file) && !file.torn
  {
    if e.store.records >= COMPACT_AT { CompactDisk(e.store, e.disk, env.order, e.log); }
  }

  /** What a flush that gets as far as writing leaves in the file. */
  lemma FlushReachesDisk(e: Edge, env: Env)
    requires Safe(e) && Enabled(e, Flush(env)) && !e.store.failed && (e.store.records < COMPACT_AT || env.checkpointOk)
    ensures var (store, disk, rejected) := e.store.FlushBegin(e.disk, env);
      DiskSafe(disk, e.log) && HeldKept(e.disk, disk) &&
      (env.write.Synced? ==> !disk.torn && Fold(disk.lines) == Publish(e.store.Memory(), e.store.pending))
  {
    FlushTarget(e, env);
    var file := if e.store.records >= COMPACT_AT then e.store.Checkpointed(env.order) else e.disk;
    var all := BatchLines(e.store.pending);
    var written := if env.write.Failed? then env.write.written else |all|;
    BatchReachesDisk(e, file, written, env.write.Failed? && env.write.torn);
    assert all[..|all|] == all;
  }

  /** A flush ends with everything rejected, or with the batch in flight. */
  lemma FlushIs(e: Edge, env: Env)
    requires Enabled(e, Flush(env)) && e.store.batch == [] && e.store.queued == |e.store.pending|
    ensures var (store, disk, rejected) := e.store.FlushBegin(e.disk, env);
      store.cursors == e.store.cursors && store.commandSeq == e.store.commandSeq &&
      if e.store.failed || (e.store.records >= COMPACT_AT && !env.checkpointOk) || env.write.Failed? then
        rejected == e.store.pending && store.failed && store.pending == [] && store.batch == [] && !store.flushing &&
          store.queued == 0 &&
        (e.store.failed || (e.store.records >= COMPACT_AT && !env.checkpointOk) ==> disk == e.disk)
      else
        rejected == [] && store ==
          e.store.(pending := [], batch := e.store.pending, flushing := true, records := store.records)
  {
  }

  lemma KeepsFlush(e: Edge, env: Env)
    requires Safe(e) && Enabled(e, Flush(env))
    ensures Safe(Step(e, Flush(env)))
  {
    var (store, disk, rejected) := e.store.FlushBegin(e.disk, env);
    var n := e.(store := store, disk := disk, adm := e.adm.(jobs := Settle(e.adm.jobs, rejected, false)));
    assert Queue(e.store) == e.store.pending;
    FlushIs(e, env);
    assert Safe(n) by {
      if e.store.failed || (e.store.records >= COMPACT_AT && !env.checkpointOk) {
        FailureKeeps(e, store, disk);
      } else {
        FlushReachesDisk(e, env);
        if env.write.Failed? { FailureKeeps(e, store, disk); } else { BatchInFlight(e, store, disk); }
      }
    }
  }

  lemma BatchInFlight(e: Edge, store: Store, disk: Disk)
    requires Safe(e) && e.up && !e.store.flushing && !e.store.failed && DiskSafe(disk, e.log) && !disk.torn
    requires HeldKept(e.disk, disk)
    requires store == e.store.(pending := [], batch := e.store.pending, flushing := true, records := store.records)
    requires Fold(disk.lines) == Publish(store.Memory(), store.batch)
    ensures Safe(e.(store := store, disk := disk, adm := e.adm.(jobs := Settle(e.adm.jobs, [], false))))
  {
    var n := e.(store := store, disk := disk, adm := e.adm.(jobs := Settle(e.adm.jobs, [], false)));
    assert n.adm.jobs == e.adm.jobs;
    assert Queue(n.store) == Queue(e.store) == e.store.pending;
    forall i | 0 <= i < |n.adm.jobs| ensures JobSafe(n, n.adm.jobs[i]) {
      assert JobSafe(e, e.adm.jobs[i]);
    }
  }

  lemma KeepsSynced(e: Edge, ok: bool)
    requires Safe(e) && Enabled(e, SyncDone(ok))
    ensures Safe(Step(e, SyncDone(ok)))
  {
    var (store, disk, settled, durable) := e.store.FlushEnd(e.disk, ok);
    if !durable {
      assert settled == Queue(e.store);
      FailureKeeps(e, store, disk);
    } else {
      BatchPublished(e, store, disk);
    }
  }

  /** `n` is `e` after its batch became durable. */
  ghost predicate Published(e: Edge, n: Edge) {
    e.up && e.store.flushing && !e.store.failed &&
    (n.store, n.disk, e.store.batch, true) == e.store.FlushEnd(e.disk, true) &&
    n == e.(store := n.store, disk := n.disk, adm := e.adm.(jobs := Settle(e.adm.jobs, e.store.batch, true)))
  }

  lemma BatchPublished(e: Edge, store: Store, disk: Disk)
    requires Safe(e) && e.up && e.store.flushing && !e.store.failed
    requires (store, disk, e.store.batch, true) == e.store.FlushEnd(e.disk, true)
    ensures Safe(e.(store := store, disk := disk, adm := e.adm.(jobs := Settle(e.adm.jobs, e.store.batch, true))))
  {
    var n := e.(store := store, disk := disk, adm := e.adm.(jobs := Settle(e.adm.jobs, e.store.batch, true)));
    HardenDisk(e.disk, e.log);
    PublishedStore(e, n);
    PublishedQueue(e, n);
    PublishedTable(e, n);
  }

  lemma PublishedStore(e: Edge, n: Edge)
    requires Safe(e) && Published(e, n)
    ensures StoreSafe(n.store, n.disk) && n.store.commandSeq <= n.adm.lastCommandSeq
  {
    QueueParts(e.store.batch, e.store.pending);
    FoldValid(n.disk.lines);
    assert Queue(n.store) == e.store.pending;
    PublishBound(e.store.Memory(), e.store.batch, e.adm.lastCommandSeq);
  }

  /** The batch's nodes were known, or reserved, before. */
  lemma BatchIsAllowed(e: Edge)
    requires QueueSafe(e) && e.up
    ensures Uids(e.store.batch) <= Allowed(e)
  {
    forall u | u in Uids(e.store.batch) ensures u in Allowed(e) {
      var q :| 0 <= q < |e.store.batch| && e.store.batch[q].uid == u;
      assert Queue(e.store)[q] == e.store.batch[q];
      QueuedIsNew(e, q);
    }
  }

  lemma PublishedTable(e: Edge, n: Edge)
    requires Safe(e) && Published(e, n)
    ensures |n.store.cursors.Keys + n.adm.pendingNew| <= MAX_NODES
    ensures n.adm.links.Keys <= n.store.cursors.Keys
    ensures forall u <- n.adm.links :: !Newer(n.adm.links[u], n.store.cursors[u])
  {
    PublishKeys(e.store.Memory(), e.store.batch);
    BatchIsAllowed(e);
    assert n.store.cursors.Keys + n.adm.pendingNew == Allowed(e);
    forall u | u in e.adm.links ensures !Newer(e.adm.links[u], n.store.cursors[u]) { CursorsRise(e, u); }
  }

  /** Publishing a batch only raises the cursors in memory. */
  lemma CursorsRise(e: Edge, u: Uid)
    requires Safe(e) && e.up && u in e.store.cursors
    ensures var t := Publish(e.store.Memory(), e.store.batch).cursors;
      u in t && !Newer(e.store.cursors[u], t[u])
  {
    var batch := e.store.batch;
    QueueParts(e.store.batch, e.store.pending);
    if q :| 0 <= q < |batch| && batch[q].uid == u {
      PublishSets(e.store.Memory(), batch, q);
      QueuedIsNew(e, q);
    } else {
      PublishFrame(e.store.Memory(), batch, u);
    }
  }

  lemma PublishedQueue(e: Edge, n: Edge)
    requires QueueSafe(e) && Published(e, n)
    requires Fold(n.disk.lines) == n.store.Memory()
    requires HeldKept(e.disk, n.disk)
    ensures QueueSafe(n)
  {
    QueueParts(e.store.batch, e.store.pending);
    SettleKeepsOrder(e.adm.jobs, e.store.batch, true);
    assert Queue(n.store) == e.store.pending;
    forall i | 0 <= i < |n.adm.jobs| ensures JobSafe(n, n.adm.jobs[i]) { PublishedJob(e, n, i); }
    forall q | 0 <= q < |Queue(n.store)|
      ensures JobOf(Queue(n.store)[q]) in n.adm.jobs
      ensures Queue(n.store)[q].commandSeq.Some? ==> Queue(n.store)[q].commandSeq.value <= n.adm.lastCommandSeq
    {
      PublishedEntry(e, n, q);
    }
  }

  /** A packet queued behind the batch is still waiting for its own. */
  lemma PublishedEntry(e: Edge, n: Edge, q: nat)
    requires QueueSafe(e) && Published(e, n) && q < |e.store.pending|
    ensures JobOf(e.store.pending[q]) in n.adm.jobs
    ensures e.store.pending[q].commandSeq.Some? ==> e.store.pending[q].commandSeq.value <= n.adm.lastCommandSeq
  {
    QueueParts(e.store.batch, e.store.pending);
    var p := Queue(e.store)[|e.store.batch| + q];
    assert JobOf(p) in e.adm.jobs;
    var m :| 0 <= m < |e.adm.jobs| && e.adm.jobs[m] == JobOf(p);
    SettledJobs(e.adm.jobs, e.store.batch, true, m);
    assert n.adm.jobs[m] == e.adm.jobs[m];
  }

  lemma PublishedJob(e: Edge, n: Edge, i: nat)
    requires QueueSafe(e) && Published(e, n) && i < |e.adm.jobs|
    requires Fold(n.disk.lines) == n.store.Memory()
    requires HeldKept(e.disk, n.disk)
    ensures JobSafe(n, n.adm.jobs[i])
  {
    var queue, j := Queue(e.store), e.adm.jobs[i];
    SettledJobs(e.adm.jobs, e.store.batch, true, i);
    assert JobSafe(e, j);
    if j.phase.Writing? {
      var q :| 0 <= q < |queue| && queue[q] == Pending(j.packet.uid, j.packet.cursor, j.packet.lastCmd);
      if q < |e.store.batch| { JobNowDurable(e, n, i, q); } else { JobStillOpen(e, n, i, q); }
    } else if j.phase.Settled? && j.phase.durable {
      JobUntouched(e, n, i);
    }
  }

  lemma JobNowDurable(e: Edge, n: Edge, i: nat, q: nat)
    requires Distinct(Queue(e.store)) && Published(e, n) && i < |e.adm.jobs| && q < |e.store.batch|
    requires Fold(n.disk.lines) == n.store.Memory()
    requires e.adm.jobs[i].phase.Writing? && JobSafe(e, e.adm.jobs[i])
    requires JobOf(e.store.batch[q]) == e.adm.jobs[i]
    ensures JobSafe(n, n.adm.jobs[i])
  {
    QueueParts(e.store.batch, e.store.pending);
    PublishSets(e.store.Memory(), e.store.batch, q);
    assert Writes(e.store.batch, e.adm.jobs[i].packet.uid);
    SettledJobs(e.adm.jobs, e.store.batch, true, i);
    assert n.disk.lines[..|n.disk.lines|] == n.disk.lines;
  }

  /** What is queued behind a batch is from a node the batch does not write. */
  lemma NotInBatch(batch: seq<Pending>, pending: seq<Pending>, p: nat)
    requires Distinct(batch + pending) && p < |pending|
    ensures !Writes(batch, pending[p].uid)
  {
    QueueParts(batch, pending);
  }

  lemma JobStillOpen(e: Edge, n: Edge, i: nat, q: nat)
    requires Distinct(Queue(e.store)) && Published(e, n) && i < |e.adm.jobs| && |e.store.batch| <= q < |Queue(e.store)|
    requires e.adm.jobs[i].phase.Writing? && JobSafe(e, e.adm.jobs[i])
    requires JobOf(Queue(e.store)[q]) == e.adm.jobs[i]
    ensures JobSafe(n, n.adm.jobs[i])
  {
    var uid, p := e.adm.jobs[i].packet.uid, q - |e.store.batch|;
    assert e.store.pending[p] == Queue(e.store)[q];
    assert Queue(n.store) == e.store.pending;
    NotInBatch(e.store.batch, e.store.pending, p);
    PublishFrame(e.store.Memory(), e.store.batch, uid);
    PublishKeys(e.store.Memory(), e.store.batch);
    SettledJobs(e.adm.jobs, e.store.batch, true, i);
  }

  lemma JobUntouched(e: Edge, n: Edge, i: nat)
    requires QueueSafe(e) && Published(e, n) && i < |e.adm.jobs|
    requires var j := e.adm.jobs[i]; j.phase.Settled? && j.phase.durable && JobSafe(e, j)
    requires HeldKept(e.disk, n.disk)
    ensures JobSafe(n, n.adm.jobs[i])
  {
    var batch, j := e.store.batch, e.adm.jobs[i];
    QueueParts(batch, e.store.pending);
    forall b | 0 <= b < |batch| ensures batch[b].uid != j.packet.uid {
      assert JobOf(Queue(e.store)[b]) in e.adm.jobs;
      var m :| 0 <= m < |e.adm.jobs| && e.adm.jobs[m] == JobOf(batch[b]);
    }
    PublishFrame(e.store.Memory(), batch, j.packet.uid);
    SettledJobs(e.adm.jobs, batch, true, i);
  }

  // ---- finishing, commands, resets, restarts -----------------------------------------

  lemma KeepsFinish(e: Edge, i: nat, open: bool)
    requires Safe(e) && Enabled(e, Finish(i, open))
    ensures Safe(Step(e, Finish(i, open)))
  {
    var n := Step(e, Finish(i, open));
    var job := e.adm.jobs[i];
    var uid, c := job.packet.uid, job.packet.cursor;
    assert JobSafe(e, job);
    DropKeeps(e.adm.jobs, i);
    if job.phase.durable && open {
      AcceptKeepsOrder(e.log, uid, c);
      CoversAccept(e.disk, e.log, uid, c);
    }
    forall k | 0 <= k < |n.adm.jobs| ensures JobSafe(n, n.adm.jobs[k]) {
      var m := if k < i then k else k + 1;
      assert JobSafe(e, e.adm.jobs[m]);
      if !e.adm.jobs[m].phase.Waiting? {
        assert e.adm.jobs[m].packet.uid != uid;
        LastSnoc(e.log, Accept(uid, c), e.adm.jobs[m].packet.uid);
      }
    }
    SetBound(n.store.cursors.Keys + n.adm.pendingNew, e.store.cursors.Keys + e.adm.pendingNew);
  }

  lemma CoversOneMore(s: Snapshot, log: seq<Event>, uid: Uid, c: Cursor)
    requires Covers(s, log) && uid in s.cursors && !Newer(c, s.cursors[uid])
    ensures Covers(s, log + [Accept(uid, c)])
  {
    forall u ensures Last(log + [Accept(uid, c)], u) == if u == uid then Some(c) else Last(log, u) {
      LastSnoc(log, Accept(uid, c), u);
    }
  }

  lemma CoversAccept(d: Disk, log: seq<Event>, uid: Uid, c: Cursor)
    requires DiskSafe(d, log) && Held(d, uid, c)
    ensures DiskSafe(d, log + [Accept(uid, c)])
  {
    forall k: nat | CrashPoint(d, k) ensures Covers(After(d, k), log + [Accept(uid, c)]) {
      CoversOneMore(After(d, k), log, uid, c);
    }
  }

  lemma {:induction false} PublishMax(s: Snapshot, batch: seq<Pending>, num: int)
    ensures Publish(s.(commandSeq := Max(s.commandSeq, num)), batch)
         == var t := Publish(s, batch); t.(commandSeq := Max(t.commandSeq, num))
  {
    if batch != [] { PublishMax(s, batch[..|batch| - 1], num); }
  }

  lemma LineReachesDisk(file: Disk, log: seq<Event>, num: int, n: nat, durable: nat, torn: bool)
    requires DiskSafe(file, log) && U32(num) && n <= 1 && file.durable <= durable <= |file.lines| + n
    ensures n == 1 ==> Fold(file.lines + [Cmd(num)][..n]) == Apply(Fold(file.lines), Cmd(num))
    ensures DiskSafe(Disk(file.lines + [Cmd(num)][..n], durable, torn), log)
    ensures HeldKept(file, Disk(file.lines + [Cmd(num)][..n], durable, torn))
  {
    var line := [Cmd(num)][..n];
    assert file.lines[..|file.lines|] == file.lines && CrashPoint(file, |file.lines|);
    var allowed := After(file, |file.lines|).cursors.Keys;
    assert file.lines + [] == file.lines;
    assert Raises(file.lines, [], allowed);
    if n == 0 {
      assert line == [];
    } else {
      RaiseOne(file.lines, [], Cmd(num), allowed);
      assert [] + [Cmd(num)] == line;
    }
    GrowDisk(file, line, durable, torn, log, allowed);
  }

  /** The file a record is appended to, compacted first when it is long. */
  function Target(st: Store, disk: Disk, env: Env): Disk
    requires st.EnvFits(env, 1)
  {
    if !st.flushing && st.records >= COMPACT_AT then st.Checkpointed(env.order) else disk
  }

  /** The file after one line was appended to it, or part of the write was lost. */
  function Longer(file: Disk, r: Record, w: Write): Disk
    requires w.Failed? ==> w.written <= 1
  {
    match w
    case Failed(n, torn) => file.(lines := file.lines + [r][..n], torn := torn)
    case Synced => Disk(file.lines + [r], |file.lines| + 1, file.torn)
  }

  lemma AppendIs(st: Store, disk: Disk, r: Record, env: Env)
    requires st.EnvFits(env, 1) && st.Appends(env)
    ensures st.Append(disk, r, env).1 == Longer(Target(st, disk, env), r, env.write)
    ensures st.Append(disk, r, env).2 <==> env.write.Synced?
  {
  }

  lemma TargetSafe(e: Edge, env: Env)
    requires Safe(e) && e.up && EnvPossible(e, env, 1) && e.store.Appends(env)
    ensures var file := Target(e.store, e.disk, env);
      DiskSafe(file, e.log) && Fold(file.lines) == Publish(e.store.Memory(), e.store.batch) && !file.torn &&
        HeldKept(e.disk, file)
  {
    if !e.store.flushing && e.store.records >= COMPACT_AT { CompactDisk(e.store, e.disk, env.order, e.log); }
  }

  lemma CommandLine(file: Disk, log: seq<Event>, num: int, w: Write)
    requires DiskSafe(file, log) && U32(num) && (w.Failed? ==> w.written <= 1)
    ensures var n := Longer(file, Cmd(num), w);
      DiskSafe(n, log) && HeldKept(file, n) && (w.Synced? ==> Fold(n.lines) == Apply(Fold(file.lines), Cmd(num)))
  {
    match w
    case Failed(n, torn) => LineReachesDisk(file, log, num, n, file.durable, torn);
    case Synced =>
      LineReachesDisk(file, log, num, 1, |file.lines| + 1, file.torn);
      assert [Cmd(num)][..1] == [Cmd(num)];
  }

  /** One more command line, with or without a compaction first. */
  lemma CommandReachesDisk(e: Edge, num: int, env: Env)
    requires Safe(e) && e.up && EnvPossible(e, env, 1) && U32(num) && e.store.Appends(env)
    ensures var (store, disk, ok) := e.store.Append(e.disk, Cmd(num), env);
      DiskSafe(disk, e.log) && HeldKept(e.disk, disk) &&
      (ok ==> disk.durable == |disk.lines| && !disk.torn &&
              Fold(disk.lines) == Apply(Publish(e.store.Memory(), e.store.batch), Cmd(num)))
  {
    TargetSafe(e, env);
    CommandLine(Target(e.store, e.disk, env), e.log, num, env.write);
    AppendIs(e.store, e.disk, Cmd(num), env);
  }

  /** Everything issued so far is below the next number. */
  lemma NextIsFresh(e: Edge)
    requires Safe(e) && e.up && !e.store.failed
    ensures forall i :: 0 <= i < |e.log| && e.log[i].Issue? ==> e.log[i].num <= e.adm.lastCommandSeq
  {
    QueueParts(e.store.batch, e.store.pending);
    PublishBound(e.store.Memory(), e.store.batch, e.adm.lastCommandSeq);
    assert e.disk.lines[..|e.disk.lines|] == e.disk.lines;
    assert CrashPoint(e.disk, |e.disk.lines|) && Covers(After(e.disk, |e.disk.lines|), e.log);
  }

  /** Nothing in the queue depends on the journal's length or the command counter. */
  lemma QueueFrame(e: Edge, n: Edge)
    requires QueueSafe(e) && e.up && n.adm.jobs == e.adm.jobs && n.adm.pendingNew == e.adm.pendingNew
    requires n.store.cursors == e.store.cursors && n.store.batch == e.store.batch && n.store.pending == e.store.pending
    requires e.adm.lastCommandSeq <= n.adm.lastCommandSeq
    requires forall uid :: Last(n.log, uid) == Last(e.log, uid)
    requires HeldKept(e.disk, n.disk)
    ensures QueueSafe(n)
  {
    assert Queue(n.store) == Queue(e.store);
    forall k | 0 <= k < |n.adm.jobs| ensures JobSafe(n, n.adm.jobs[k]) { assert JobSafe(e, e.adm.jobs[k]); }
  }

  function NextNumber(e: Edge, seconds: int): int { Max(seconds, e.adm.lastCommandSeq + 1) }

  /** An allocation that comes to nothing leaves the edge as it was; any other writes one line. */
  lemma AllocateIs(e: Edge, seconds: int, env: Env)
    requires Enabled(e, Allocate(seconds, env)) && e.store.commandSeq <= e.adm.lastCommandSeq
    ensures var num, n := NextNumber(e, seconds), Step(e, Allocate(seconds, env));
      if !U32(num) || !e.store.Appends(env) then n == e
      else
        n.disk == e.store.Append(e.disk, Cmd(num), env).1 &&
          (e.store.Append(e.disk, Cmd(num), env).2 <==> env.write.Synced?) &&
        if env.write.Synced? then
          n == e.(store := e.store.(commandSeq := num, records := n.store.records), disk := n.disk,
                  adm := e.adm.(lastCommandSeq := num), log := e.log + [Issue(num)])
        else n == e.(store := e.store.(failed := true, records := n.store.records), disk := n.disk)
  {
  }

  lemma KeepsAllocate(e: Edge, seconds: int, env: Env)
    requires Safe(e) && Enabled(e, Allocate(seconds, env))
    ensures Safe(Step(e, Allocate(seconds, env)))
  {
    var num, n := NextNumber(e, seconds), Step(e, Allocate(seconds, env));
    AllocateIs(e, seconds, env);
    assert Safe(n) by {
      if U32(num) && e.store.Appends(env) {
        CommandReachesDisk(e, num, env);
        if env.write.Synced? { Issued(e, num, n); } else { NotIssued(e, n); }
      }
    }
  }

  /** A write that fails latches the store, and nothing else changes. */
  lemma NotIssued(e: Edge, n: Edge)
    requires Safe(e) && e.up && DiskSafe(n.disk, e.log) && HeldKept(e.disk, n.disk)
    requires n == e.(store := e.store.(failed := true, records := n.store.records), disk := n.disk)
    ensures Safe(n)
  {
    assert Queue(n.store) == Queue(e.store);
    QueueFrame(e, n);
  }

  /** A number that is durable before it is used is above every earlier one. */
  lemma Issued(e: Edge, num: int, n: Edge)
    requires Safe(e) && e.up && !e.store.failed && U32(num) && e.adm.lastCommandSeq < num
    requires n == e.(store := e.store.(commandSeq := num, records := n.store.records), disk := n.disk,
                     adm := e.adm.(lastCommandSeq := num), log := e.log + [Issue(num)])
    requires DiskSafe(n.disk, e.log) && n.disk.durable == |n.disk.lines| && !n.disk.torn
    requires Fold(n.disk.lines) == Apply(Publish(e.store.Memory(), e.store.batch), Cmd(num))
    requires HeldKept(e.disk, n.disk)
    ensures Safe(n)
  {
    NextIsFresh(e);
    OtherKeepsOrder(e.log, Issue(num));
    SameLast(e.log, num);
    IssueCovered(n.disk, e.log, num);
    PublishMax(e.store.Memory(), e.store.batch, num);
    assert Queue(n.store) == Queue(e.store);
    QueueFrame(e, n);
  }

  lemma SameLast(log: seq<Event>, num: int)
    ensures forall uid :: Last(log + [Issue(num)], uid) == Last(log, uid)
  {
    forall uid ensures Last(log + [Issue(num)], uid) == Last(log, uid) { LastSnoc(log, Issue(num), uid); }
  }

  lemma IssueCovered(d: Disk, log: seq<Event>, num: int)
    requires DiskSafe(d, log) && d.durable == |d.lines| && num <= Fold(d.lines).commandSeq
    ensures DiskSafe(d, log + [Issue(num)])
  {
    assert d.lines[..|d.lines|] == d.lines;
    forall uid ensures Last(log + [Issue(num)], uid) == Last(log, uid) { LastSnoc(log, Issue(num), uid); }
    forall k: nat | CrashPoint(d, k)
      ensures Covers(After(d, k), log + [Issue(num)])
    {
      assert Covers(After(d, k), log);
    }
  }

  lemma ForgetCovers(s: Snapshot, log: seq<Event>, uid: Uid)
    requires Covers(s, log)
    ensures Covers(s, log + [Forgot(uid)]) && Covers(Apply(s, Forget(uid)), log + [Forgot(uid)])
    ensures |Apply(s, Forget(uid)).cursors| <= |s.cursors|
  {
    forall u ensures Last(log + [Forgot(uid)], u) == if u == uid then None else Last(log, u) {
      LastSnoc(log, Forgot(uid), u);
    }
    SetBound(Apply(s, Forget(uid)).cursors.Keys, s.cursors.Keys);
  }

  /** Once the Forget line may be in the file, the log says so. */
  lemma ForgetReachesDisk(file: Disk, log: seq<Event>, uid: Uid, durable: nat, torn: bool)
    requires DiskSafe(file, log) && IsUid(uid) && file.durable <= durable <= |file.lines| + 1
    ensures Fold(file.lines + [Forget(uid)]) == Apply(Fold(file.lines), Forget(uid))
    ensures DiskSafe(Disk(file.lines + [Forget(uid)], durable, torn), log + [Forgot(uid)])
  {
    var disk := Disk(file.lines + [Forget(uid)], durable, torn);
    FoldSnoc(file.lines, Forget(uid));
    forall k: nat | CrashPoint(disk, k)
      ensures Covers(After(disk, k), log + [Forgot(uid)]) && |After(disk, k).cursors| <= MAX_NODES
    {
      var j := if k <= |file.lines| then k else |file.lines|;
      assert CrashPoint(file, j);
      ForgetCovers(After(file, j), log, uid);
      if k <= |file.lines| {
        assert disk.lines[..k] == file.lines[..k];
      } else {
        assert disk.lines[..k] == disk.lines && file.lines[..j] == file.lines;
      }
    }
  }

  /** A torn tail after the same complete lines changes no crash point. */
  lemma TornDisk(d: Disk, log: seq<Event>, torn: bool)
    requires DiskSafe(d, log)
    ensures DiskSafe(d.(torn := torn), log)
  {
    var n := d.(torn := torn);
    forall k: nat | CrashPoint(n, k) ensures CrashPoint(d, k) && After(n, k) == After(d, k) {}
  }

  /** What the disk and the log look like after a reset that wrote. */
  ghost predicate ResetDisk(e: Edge, n: Edge, uid: Uid, env: Env) {
    DiskSafe(n.disk, n.log) && AcceptsIncrease(n.log) && IssuesIncrease(n.log) &&
    (env.write.Synced? ==>
       Fold(n.disk.lines) == Apply(Publish(e.store.Memory(), e.store.batch), Forget(uid)) &&
       n.disk.durable == |n.disk.lines| && !n.disk.torn)
  }

  lemma ForgetLine(file: Disk, log: seq<Event>, uid: Uid, w: Write)
    requires DiskSafe(file, log) && IsUid(uid) && (w.Failed? ==> w.written <= 1)
    ensures DiskSafe(Longer(file, Forget(uid), w), if w.Synced? || w.written == 1 then log + [Forgot(uid)] else log)
    ensures w.Synced? ==> Fold(Longer(file, Forget(uid), w).lines) == Apply(Fold(file.lines), Forget(uid))
  {
    if w.Synced? || w.written == 1 {
      var durable := if w.Failed? then file.durable else |file.lines| + 1;
      var torn := if w.Failed? then w.torn else file.torn;
      ForgetReachesDisk(file, log, uid, durable, torn);
      assert w.Failed? ==> [Forget(uid)][..w.written] == [Forget(uid)];
    } else {
      TornDisk(file, log, w.torn);
      assert file.lines + [Forget(uid)][..0] == file.lines;
    }
  }

  lemma ResetWrites(e: Edge, uid: Uid, env: Env)
    requires Safe(e) && Enabled(e, ResetCursor(uid, env))
    requires |e.adm.jobs| == 0 && IsUid(uid) && e.store.queued == 0 && e.store.Appends(env)
    ensures ResetDisk(e, Step(e, ResetCursor(uid, env)), uid, env)
  {
    TargetSafe(e, env);
    ForgetLine(Target(e.store, e.disk, env), e.log, uid, env.write);
    AppendIs(e.store, e.disk, Forget(uid), env);
    OtherKeepsOrder(e.log, Forgot(uid));
  }

  lemma KeepsReset(e: Edge, uid: Uid, env: Env)
    requires Safe(e) && Enabled(e, ResetCursor(uid, env))
    ensures Safe(Step(e, ResetCursor(uid, env)))
  {
    if |e.adm.jobs| == 0 && IsUid(uid) && e.store.queued == 0 && e.store.Appends(env) {
      ResetWrites(e, uid, env);
      ResetKeeps(e, uid, env);
    }
  }

  /** A reset changes the store only by dropping the cursor, and only when it succeeds. */
  lemma ResetStore(st: Store, disk: Disk, uid: Uid, env: Env)
    requires st.EnvFits(env, 1) && st.pending == [] && st.batch == [] && IsUid(uid) && st.queued == 0 && st.Appends(env)
    requires U32(st.commandSeq) && forall u <- st.cursors :: IsUid(u) && ValidCursor(st.cursors[u])
    requires var d := st.Reset(disk, uid, env).1;
      env.write.Synced? ==> Fold(d.lines) == Apply(st.Memory(), Forget(uid)) && d.durable == |d.lines| && !d.torn
    ensures StoreSafe(st.Reset(disk, uid, env).0, st.Reset(disk, uid, env).1)
    ensures st.Reset(disk, uid, env).0.cursors == if env.write.Synced? then st.cursors - {uid} else st.cursors
    ensures st.Reset(disk, uid, env).0.commandSeq == st.commandSeq &&
      (st.Reset(disk, uid, env).2.Some? <==> env.write.Synced?)
  {
  }

  lemma ResetKeeps(e: Edge, uid: Uid, env: Env)
    requires Safe(e) && Enabled(e, ResetCursor(uid, env))
    requires |e.adm.jobs| == 0 && IsUid(uid) && e.store.queued == 0 && e.store.Appends(env)
    requires ResetDisk(e, Step(e, ResetCursor(uid, env)), uid, env)
    ensures Safe(Step(e, ResetCursor(uid, env)))
  {
    var n := Step(e, ResetCursor(uid, env));
    assert e.store.batch == [] && e.store.pending == [];
    ResetStore(e.store, e.disk, uid, env);
    assert QueueSafe(n) by { assert Queue(n.store) == []; }
    SetBound(n.store.cursors.Keys + n.adm.pendingNew, e.store.cursors.Keys + e.adm.pendingNew);
  }

  lemma StartedStore(s: Snapshot, order: seq<Uid>)
    requires Enumerates(order, s.cursors.Keys) && U32(s.commandSeq) && forall u <- s.cursors ::
      IsUid(u) && ValidCursor(s.cursors[u])
    ensures var st := Fresh(s); var d := st.Checkpointed(order);
      StoreSafe(st, d) && Fold(d.lines) == s && AllValid(d.lines) && d.durable == |d.lines| && Queue(st) == []
  {
    CompactionPreserves(order, s);
    CheckpointValid(order, s);
  }

  lemma StartedSafe(s: Snapshot, order: seq<Uid>, log: seq<Event>)
    requires Enumerates(order, s.cursors.Keys) && Covers(s, log) && |s.cursors| <= MAX_NODES
    requires AcceptsIncrease(log) && IssuesIncrease(log)
    requires U32(s.commandSeq) && forall u <- s.cursors :: IsUid(u) && ValidCursor(s.cursors[u])
    ensures Safe(Started(s, order, log))
  {
    var n := Started(s, order, log);
    StartedStore(s, order);
    StartedDisk(n.disk, s, log);
    NothingQueued(n);
    assert n.store.cursors.Keys + n.adm.pendingNew == s.cursors.Keys;
  }

  lemma NothingQueued(n: Edge)
    requires Queue(n.store) == [] && n.adm.jobs == []
    ensures QueueSafe(n)
  {
  }

  /** A file with one crash point is as safe as what it says. */
  lemma StartedDisk(d: Disk, s: Snapshot, log: seq<Event>)
    requires d.durable == |d.lines| && AllValid(d.lines) && Fold(d.lines) == s && Covers(s, log) &&
      |s.cursors| <= MAX_NODES
    ensures DiskSafe(d, log)
  {
    assert d.lines[..|d.lines|] == d.lines;
    forall k: nat | CrashPoint(d, k) ensures After(d, k) == s {}
  }

  lemma KeepsRestart(e: Edge, kept: nat, torn: bool, order: seq<Uid>, checkpointOk: bool)
    requires Safe(e) && Enabled(e, Restart(kept, torn, order, checkpointOk))
    ensures Safe(Step(e, Restart(kept, torn, order, checkpointOk)))
  {
    var file := Disk(e.disk.lines[..kept], e.disk.durable, torn);
    assert DiskSafe(file, e.log) by {
      forall k: nat | CrashPoint(file, k)
        ensures CrashPoint(e.disk, k) && After(file, k) == After(e.disk, k)
      {
        assert file.lines[..k] == e.disk.lines[..k];
      }
    }
    if Readable(file) && checkpointOk {
      FoldValid(file.lines);
      assert After(e.disk, kept) == Fold(file.lines);
      StartedSafe(Fold(file.lines), order, e.log);
    }
  }

  // ---- the theorems ------------------------------------------------------------------

  lemma StepKeeps(e: Edge, a: Action)
    requires Safe(e) && Enabled(e, a)
    ensures Safe(Step(e, a))
  {
    match a
    case Arrive(p, full) => KeepsArrive(e, p, full);
    case Admit(i, refuses) => KeepsAdmit(e, i, refuses);
    case Flush(env) => KeepsFlush(e, env);
    case SyncDone(ok) => KeepsSynced(e, ok);
    case Finish(i, open) => KeepsFinish(e, i, open);
    case Allocate(seconds, env) => KeepsAllocate(e, seconds, env);
    case ResetCursor(uid, env) => KeepsReset(e, uid, env);
    case Restart(kept, torn, order, ok) => KeepsRestart(e, kept, torn, order, ok);
  }

  lemma {:induction false} Reachable(states: seq<Edge>, actions: seq<Action>, i: nat)
    requires Run(states, actions) && i < |states|
    ensures Safe(states[i])
  {
    if i == 0 {
      StartedSafe(Snapshot(map[], 0), [], []);
    } else {
      Reachable(states, actions, i - 1);
      StepKeeps(states[i - 1], actions[i - 1]);
    }
  }

  /**
   * Over every run, the cursors accepted from a node strictly increase unless an operator
   * reset it in between, and command numbers strictly increase without exception.
   */
  lemma ReplayProtection(states: seq<Edge>, actions: seq<Action>)
    requires Run(states, actions)
    ensures AcceptsIncrease(states[|actions|].log)
    ensures IssuesIncrease(states[|actions|].log)
  {
    Reachable(states, actions, |actions|);
  }

  /**
   * Whatever a crash keeps of the file, it reads back unless its tail is torn, and what it
   * says covers every packet accepted and every command number issued before the crash.
   */
  lemma JournalAlwaysReloads(states: seq<Edge>, actions: seq<Action>, i: nat, kept: nat)
    requires Run(states, actions) && i < |states| && CrashPoint(states[i].disk, kept)
    ensures Readable(Disk(states[i].disk.lines[..kept], kept, false))
    ensures !Readable(Disk(states[i].disk.lines[..kept], kept, true))
    ensures Covers(Fold(states[i].disk.lines[..kept]), states[i].log)
  {
    Reachable(states, actions, i);
    assert After(states[i].disk, kept) == Fold(states[i].disk.lines[..kept]);
  }

  /**
   * A healthy, quiet store reads back as exactly what is in memory, all of it durable; during a
   * batch the file is ahead of memory by that batch and never behind it.
   */
  lemma JournalMatchesMemory(states: seq<Edge>, actions: seq<Action>, i: nat)
    requires Run(states, actions) && i < |states| && states[i].up && !states[i].store.failed
    ensures !states[i].store.flushing ==>
      Fold(states[i].disk.lines) == states[i].store.Memory() && states[i].disk.durable == |states[i].disk.lines|
    ensures states[i].store.flushing ==>
      Fold(states[i].disk.lines) == Publish(states[i].store.Memory(), states[i].store.batch)
    ensures AtLeast(Fold(states[i].disk.lines), states[i].store.Memory())
    ensures |states[i].store.cursors| <= MAX_NODES
  {
    Reachable(states, actions, i);
    var e := states[i];
    PublishKeys(e.store.Memory(), e.store.batch);
    forall u | u in e.store.cursors
      ensures !Newer(e.store.cursors[u], Publish(e.store.Memory(), e.store.batch).cursors[u])
    {
      CursorsRise(e, u);
    }
    SetBound(e.store.cursors.Keys, e.store.cursors.Keys + e.adm.pendingNew);
  }
}

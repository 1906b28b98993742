/**
 * ReplayStore (src/edge/replay.ts): the in-memory cursors in front of the journal.
 *
 * The asynchronous flush is two atomic steps, one each side of the awaited fsync; other
 * operations may run between them. Every file operation takes its outcome from `Env`.
 */
module Replay {
  import opened Wrappers
  import opened Journal

  const MAX_QUEUED := 10000

  datatype Pending = Pending(uid: Uid, cursor: Cursor, commandSeq: Option<int>)

  /** How the file system answers one operation. */
  datatype Write =
    | Synced
    | Failed(written: nat, torn: bool)  // complete lines that reached the file, and a partial one

  /** `order` is the iteration order of the cursor map, should a checkpoint run. */
  datatype Env = Env(order: seq<Uid>, checkpointOk: bool, write: Write)

  datatype Store = Store(
    cursors: map<Uid, Cursor>, commandSeq: int, records: nat,
    pending: seq<Pending>, batch: seq<Pending>, flushing: bool, failed: bool, queued: int) {
    function Memory(): Snapshot { Snapshot(cursors, commandSeq) }

    predicate EnvFits(env: Env, lines: nat) {
      (forall i :: 0 <= i < |env.order| ==> env.order[i] in cursors) &&
      (env.write.Failed? ==> env.write.written <= lines)
    }

    /** Compaction: a temporary file is written, fsynced and renamed over the journal. */
    function Checkpointed(order: seq<Uid>): Disk
      requires forall i :: 0 <= i < |order| ==> order[i] in cursors
    {
      var lines := CheckpointLines(order, Memory());
      Disk(lines, |lines|, false)
    }

    /** acceptAsync: the promise it returns is pending exactly when the result is true. */
    function AcceptAsync(p: Pending): (Store, bool) {
      if failed || !ValidEntry(p) || queued >= MAX_QUEUED then (this, false)
      else (this.(pending := pending + [p], queued := queued + 1), true)
    }

    /** Latch a flush failure: the batch and everything queued behind it are rejected. */
    function FlushFailed(batch: seq<Pending>): Store {
      this.(failed := true, pending := [], batch := [], flushing := false,
          queued := queued - |pending| - |batch|)
    }

    /** flush() up to `await this.sync(fd)`. The last component lists rejected promises. */
    function FlushBegin(disk: Disk, env: Env): (Store, Disk, seq<Pending>)
      requires !flushing && EnvFits(env, |BatchLines(pending)|)
    {
      var batch := pending;
      var taken := this.(pending := []);
      if failed then (taken.FlushFailed(batch), disk, batch)
      else if records >= COMPACT_AT && !env.checkpointOk then (taken.FlushFailed(batch), disk, batch)
      else
        var (clean, file) :=
          if records >= COMPACT_AT then (taken.(records := 0), Checkpointed(env.order)) else (taken, disk);
        var lines := BatchLines(batch);
        match env.write
        case Failed(n, torn) =>
          (clean.FlushFailed(batch), file.(lines := file.lines + lines[..n], torn := torn), batch)
        case Synced =>
          (clean.(batch := batch, flushing := true), file.(lines := file.lines + lines), [])
    }

    /** flush() after the fsync has been reported; the last component says how it settled. */
    function FlushEnd(disk: Disk, ok: bool): (Store, Disk, seq<Pending>, bool)
      requires flushing
    {
      if !ok || failed then (FlushFailed(batch), disk, batch + pending, false)
      else
        var snap := Publish(Memory(), batch);
        (this.(cursors := snap.cursors, commandSeq := snap.commandSeq, batch := [], flushing := false,
             records := records + |BatchLines(batch)|, queued := queued - |batch|),
         disk.(durable := |disk.lines|), batch, true)
    }

    /** Whether append() gets as far as writing its line. */
    predicate Appends(env: Env) {
      !failed && (flushing || records < COMPACT_AT || env.checkpointOk)
    }

    /** Whether the line of an append ends up in the file, reported or not. */
    predicate Lands(env: Env) { Appends(env) && (env.write.Failed? ==> env.write.written == 1) }

    /** append(): one record, fsynced before it returns; false means it threw. */
    function Append(disk: Disk, r: Record, env: Env): (Store, Disk, bool)
      requires EnvFits(env, 1)
    {
      var compact := !flushing && records >= COMPACT_AT;
      if failed || (compact && !env.checkpointOk) then (this, disk, false)
      else
        var (clean, file) :=
          if compact then (this.(records := 0), Checkpointed(env.order)) else (this, disk);
        match env.write
        case Failed(n, torn) =>
          (clean.(failed := true), file.(lines := file.lines + [r][..n], torn := torn), false)
        case Synced =>
          var lines := file.lines + [r];
          (clean.(records := clean.records + 1), Disk(lines, |lines|, file.torn), true)
    }

    /** command(): make a command number durable before it is used. */
    function Command(disk: Disk, num: int, env: Env): (Store, Disk, bool)
      requires EnvFits(env, 1)
    {
      if !U32(num) || failed then (this, disk, false)
      else if num <= commandSeq then (this, disk, true)
      else
        var (next, file, ok) := Append(disk, Cmd(num), env);
        (if ok then next.(commandSeq := num) else next, file, ok)
    }

    /** reset(): forget a node's cursor; None means it threw, otherwise whether one existed. */
    function Reset(disk: Disk, uid: Uid, env: Env): (Store, Disk, Option<bool>)
      requires EnvFits(env, 1)
    {
      if !IsUid(uid) || queued != 0 then (this, disk, None)
      else
        var (next, file, ok) := Append(disk, Forget(uid), env);
        if ok then (next.(cursors := next.cursors - {uid}), file, Some(uid in cursors)) else (next, file, None)
    }
  }

  function Fresh(s: Snapshot): Store {
    Store(s.cursors, s.commandSeq, 0, [], [], false, false, 0)
  }

  predicate ValidEntry(p: Pending) {
    IsUid(p.uid) && ValidCursor(p.cursor) && (p.commandSeq.Some? ==> U32(p.commandSeq.value))
  }

  /** The lines one batch writes, in order. */
  function EntryLines(p: Pending): seq<Record> {
    [Seen(p.uid, p.cursor)] + (if p.commandSeq.Some? then [Cmd(p.commandSeq.value)] else [])
  }

  function BatchLines(batch: seq<Pending>): seq<Record> {
    if batch == [] then [] else BatchLines(batch[..|batch| - 1]) + EntryLines(batch[|batch| - 1])
  }

  /** What a durable batch does to the in-memory cursors and counter. */
  function Publish(s: Snapshot, batch: seq<Pending>): Snapshot {
    if batch == [] then s
    else
      var p, t := batch[|batch| - 1], Publish(s, batch[..|batch| - 1]);
      Snapshot(t.cursors[p.uid := p.cursor],
               if p.commandSeq.Some? then Max(t.commandSeq, p.commandSeq.value) else t.commandSeq)
  }

  predicate LastFor(batch: seq<Pending>, uid: Uid, i: nat) {
    i < |batch| && batch[i].uid == uid && forall j :: i < j < |batch| ==> batch[j].uid != uid
  }

  /** What a table holds for a node after a batch: its last entry there, or what was held before. */
  ghost predicate Latest(before: map<Uid, Cursor>, batch: seq<Pending>, uid: Uid, after: map<Uid, Cursor>) {
    ((forall i :: 0 <= i < |batch| ==> batch[i].uid != uid) &&
     (uid in after <==> uid in before) && (uid in after ==> after[uid] == before[uid])) ||
    (exists i: nat :: LastFor(batch, uid, i) && uid in after && after[uid] == batch[i].cursor)
  }

  lemma {:induction false} PublishIsLatest(s: Snapshot, batch: seq<Pending>, uid: Uid)
    ensures Latest(s.cursors, batch, uid, Publish(s, batch).cursors)
  {
    if batch != [] {
      var rest, n := batch[..|batch| - 1], |batch| - 1;
      PublishIsLatest(s, rest, uid);
      if batch[n].uid == uid {
        assert LastFor(batch, uid, n);
      } else if i: nat :| LastFor(rest, uid, i) && Publish(s, rest).cursors[uid] == rest[i].cursor {
        assert forall j :: i < j < n ==> batch[j] == rest[j];
        assert LastFor(batch, uid, i);
      } else {
        assert forall j :: 0 <= j < n ==> batch[j] == rest[j];
      }
    }
  }

  /** The command counter after a batch: the largest of what it was and the numbers in the batch. */
  ghost predicate Largest(before: int, batch: seq<Pending>, after: int) {
    before <= after &&
    (forall i :: 0 <= i < |batch| && batch[i].commandSeq.Some? ==> batch[i].commandSeq.value <= after) &&
    (after == before || exists i :: 0 <= i < |batch| && batch[i].commandSeq == Some(after))
  }

  lemma {:induction false} PublishIsLargest(s: Snapshot, batch: seq<Pending>)
    ensures Largest(s.commandSeq, batch, Publish(s, batch).commandSeq)
  {
    if batch != [] {
      var rest := batch[..|batch| - 1];
      PublishIsLargest(s, rest);
      assert forall j :: 0 <= j < |rest| ==> batch[j] == rest[j];
      assert batch[|batch| - 1].commandSeq == batch[|rest|].commandSeq;
    }
  }

  lemma PublishesLatest(s: Snapshot, batch: seq<Pending>)
    ensures forall uid :: Latest(s.cursors, batch, uid, Publish(s, batch).cursors)
    ensures Largest(s.commandSeq, batch, Publish(s, batch).commandSeq)
  {
    PublishIsLargest(s, batch);
    forall uid ensures Latest(s.cursors, batch, uid, Publish(s, batch).cursors) {
      PublishIsLatest(s, batch, uid);
    }
  }

  /** The same store as the object the program runs: fields updated in place. */
  class ReplayStore {
    var disk: Disk
    var cursors: map<Uid, Cursor>
    var commandSeq: int
    var records: nat
    var pending: seq<Pending>
    var batch: seq<Pending>
    var flushing: bool
    var failed: bool
    var queued: int

    ghost function View(): Store reads this {
      Store(cursors, commandSeq, records, pending, batch, flushing, failed, queued)
    }

    /** A store over a journal the strict reader accepted and the checkpoint rewrote. */
    constructor (snapshot: Snapshot, order: seq<Uid>)
      requires Enumerates(order, snapshot.cursors.Keys)
      ensures View() == Fresh(snapshot)
      ensures disk == Fresh(snapshot).Checkpointed(order)
    {
      cursors, commandSeq, records := snapshot.cursors, snapshot.commandSeq, 0;
      pending, batch, flushing, failed, queued := [], [], false, false, 0;
      disk := Disk([], 0, false);
      new;
      WriteCheckpoint(order);
    }

    method WriteCheckpoint(order: seq<Uid>)
      requires forall i :: 0 <= i < |order| ==> order[i] in cursors
      modifies this`disk, this`records
      ensures disk == old(View()).Checkpointed(order) && records == 0
    {
      var lines := [Cmd(commandSeq)];
      for i := 0 to |order|
        invariant disk == old(disk) && records == old(records)
        invariant lines == CheckpointLines(order[..i], View().Memory())
      {
        assert order[..i + 1][..i] == order[..i];
        lines := lines + [Seen(order[i], cursors[order[i]])];
      }
      assert order[..|order|] == order;
      disk, records := Disk(lines, |lines|, false), 0;
    }

    method AcceptAsync(uid: Uid, cursor: Cursor, command: Option<int>) returns (ok: bool)
      modifies this`pending, this`queued
      ensures (View(), ok) == old(View()).AcceptAsync(Pending(uid, cursor, command))
      ensures ok <==>
        !failed && queued - (if ok then 1 else 0) < 10000 && 0 <= uid <= 0xffff_ffff_ffff &&
        0 <= cursor.boot <= 0xffff_ffff && 0 <= cursor.num <= 0xffff_ffff &&
        (command.Some? ==> 0 <= command.value <= 0xffff_ffff)
      ensures pending == old(pending) + (if ok then [Pending(uid, cursor, command)] else [])
      ensures queued == old(queued) + (if ok then 1 else 0)
    {
      if failed || !ValidEntry(Pending(uid, cursor, command)) || queued >= MAX_QUEUED { return false; }
      pending, queued := pending + [Pending(uid, cursor, command)], queued + 1;
      return true;
    }

    method RejectAll(taken: seq<Pending>)
      modifies this
      ensures View() == old(View()).FlushFailed(taken) && disk == old(disk)
      ensures failed && pending == [] && batch == [] && !flushing && cursors == old(cursors) &&
        commandSeq == old(commandSeq) && queued == old(queued) - |old(pending)| - |taken|
    {
      failed, queued, pending := true, queued - |pending| - |taken|, [];
      batch, flushing := [], false;
    }

    method FlushBegin(env: Env) returns (rejected: seq<Pending>)
      requires !flushing && View().EnvFits(env, |BatchLines(pending)|)
      modifies this
      ensures (View(), disk, rejected) == old(View()).FlushBegin(old(disk), env)
      ensures cursors == old(cursors) && commandSeq == old(commandSeq) && pending == []
      ensures flushing <==> !old(failed) && (old(records) < 10000 || env.checkpointOk) && env.write.Synced?
      ensures flushing ==>
        batch == old(pending) && rejected == [] && !failed && queued == old(queued) &&
        disk.torn == (old(records) < 10000 && old(disk.torn)) &&
        (old(records) < 10000 ==>
           disk.lines == old(disk.lines) + BatchLines(old(pending)) && disk.durable == old(disk.durable))
      ensures !flushing ==>
        failed && batch == [] && rejected == old(pending) && queued == old(queued) - |old(pending)|
    {
      var taken := pending;
      pending := [];
      if failed || (records >= COMPACT_AT && !env.checkpointOk) {
        RejectAll(taken);
        return taken;
      }
      if records >= COMPACT_AT { WriteCheckpoint(env.order); }
      var lines := [];
      for i := 0 to |taken|
        invariant lines == BatchLines(taken[..i])
      {
        assert taken[..i + 1][..i] == taken[..i];
        lines := lines + [Seen(taken[i].uid, taken[i].cursor)];
        if taken[i].commandSeq.Some? { lines := lines + [Cmd(taken[i].commandSeq.value)]; }
      }
      assert taken[..|taken|] == taken;
      match env.write
      case Failed(n, torn) =>
        disk := disk.(lines := disk.lines + lines[..n], torn := torn);
        RejectAll(taken);
        rejected := taken;
      case Synced =>
        disk := disk.(lines := disk.lines + lines);
        batch, flushing, rejected := taken, true, [];
    }

    method FlushEnd(ok: bool) returns (settled: seq<Pending>, durable: bool)
      requires flushing
      modifies this
      ensures (View(), disk, settled, durable) == old(View()).FlushEnd(old(disk), ok)
      ensures !flushing && batch == [] && disk.lines == old(disk.lines) && disk.torn == old(disk.torn)
      ensures durable <==> ok && !old(failed)
      ensures durable ==>
        settled == old(batch) && disk.durable == |disk.lines| && pending == old(pending) && !failed &&
        queued == old(queued) - |old(batch)|
      ensures durable ==>
        (forall uid :: Latest(old(cursors), old(batch), uid, cursors)) &&
        Largest(old(commandSeq), old(batch), commandSeq)
      ensures !durable ==>
        settled == old(batch) + old(pending) && disk == old(disk) && pending == [] && failed &&
        cursors == old(cursors) && commandSeq == old(commandSeq)
    {
      if !ok || failed {
        settled, durable := batch + pending, false;
        RejectAll(batch);
        return;
      }
      settled, durable := batch, true;
      var written := 0;
      for i := 0 to |settled|
        invariant View().Memory() == Publish(old(View()).Memory(), settled[..i])
        invariant written == |BatchLines(settled[..i])|
        invariant disk == old(disk) && records == old(records) && pending == old(pending) && batch == settled
        invariant flushing && !failed && queued == old(queued)
      {
        var p := settled[i];
        assert settled[..i + 1][..i] == settled[..i];
        cursors := cursors[p.uid := p.cursor];
        if p.commandSeq.Some? { commandSeq := Max(commandSeq, p.commandSeq.value); }
        written := written + (if p.commandSeq.Some? then 2 else 1);
      }
      assert settled[..|settled|] == settled;
      disk := disk.(durable := |disk.lines|);
      records, queued := records + written, queued - |batch|;
      batch, flushing := [], false;
      PublishesLatest(old(View()).Memory(), old(batch));
    }

    method Append(r: Record, env: Env) returns (ok: bool)
      requires View().EnvFits(env, 1)
      modifies this`disk, this`records, this`failed
      ensures (View(), disk, ok) == old(View()).Append(old(disk), r, env)
      ensures ok <==>
        !old(failed) && (flushing || old(records) < 10000 || env.checkpointOk) && env.write.Synced?
      ensures ok ==>
        !failed && disk.durable == |disk.lines| && |disk.lines| > 0 && disk.lines[|disk.lines| - 1] == r &&
        (flushing || old(records) < 10000 ==> disk.lines == old(disk.lines) + [r] && records == old(records) + 1)
    {
      var compact := !flushing && records >= COMPACT_AT;
      if failed || (compact && !env.checkpointOk) { return false; }
      if compact { WriteCheckpoint(env.order); }
      match env.write
      case Failed(n, torn) =>
        disk, failed := disk.(lines := disk.lines + [r][..n], torn := torn), true;
        ok := false;
      case Synced =>
        disk := Disk(disk.lines + [r], |disk.lines| + 1, disk.torn);
        records, ok := records + 1, true;
    }

    method Command(num: int, env: Env) returns (ok: bool)
      requires View().EnvFits(env, 1)
      modifies this
      ensures (View(), disk, ok) == old(View()).Command(old(disk), num, env)
      ensures cursors == old(cursors) && pending == old(pending) && batch == old(batch) && queued == old(queued)
      ensures commandSeq == if ok && num > old(commandSeq) then num else old(commandSeq)
      ensures ok <==>
        0 <= num <= 0xffff_ffff && !old(failed) &&
        (num <= old(commandSeq) ||
         (env.write.Synced? && (flushing || old(records) < 10000 || env.checkpointOk)))
      ensures ok && num > old(commandSeq) ==>
        disk.durable == |disk.lines| && |disk.lines| > 0 && disk.lines[|disk.lines| - 1] == Cmd(num)
    {
      if !U32(num) || failed { return false; }
      if num <= commandSeq { return true; }
      ok := Append(Cmd(num), env);
      if ok { commandSeq := num; }
    }

    method Reset(uid: Uid, env: Env) returns (r: Option<bool>)
      requires View().EnvFits(env, 1)
      modifies this
      ensures (View(), disk, r) == old(View()).Reset(old(disk), uid, env)
      ensures commandSeq == old(commandSeq) && pending == old(pending) && batch == old(batch) && queued == old(queued)
      ensures cursors == if r.Some? then old(cursors) - {uid} else old(cursors)
      ensures r.Some? ==> r.value == (uid in old(cursors))
      ensures r.Some? <==>
        0 <= uid <= 0xffff_ffff_ffff && queued == 0 && !old(failed) && env.write.Synced? &&
        (flushing || old(records) < 10000 || env.checkpointOk)
      ensures r.Some? ==>
        disk.durable == |disk.lines| && |disk.lines| > 0 && disk.lines[|disk.lines| - 1] == Forget(uid)
    {
      if !IsUid(uid) || queued != 0 { return None; }
      var existed := uid in cursors;
      var ok := Append(Forget(uid), env);
      if !ok { return None; }
      cursors := cursors - {uid};
      return Some(existed);
    }
  }
}

/** The broker itself (src/algo/params.ts:64-403), step by step on its own fields. */
module ParamServer {
  import opened Wrappers
  import opened Params

  /**
   * The report shows the value asked for, and is late enough: a newer one than at the command where
   * reports are numbered, received since, of the same boot, having seen a command at least as new.
   */
  predicate Shows(r: Report, param: int, c: Change) {
    param in r.values && r.values[param] == c.to && c.cmdSeq.Some? && r.lastCmd >= c.cmdSeq.value &&
    r.receivedAt >= c.sent.at && (c.sent.boot.Some? ==> c.sent.boot.value == r.boot) &&
    match c.sent.generation
    case None => true
    case Some(g) => if r.generation.None? then 0 > g else r.generation.value > g
  }

  /**
   * What confirm does to each change, from the reports alone: one that shows is confirmed, or, when it
   * was on its way back, gone once that is saved; nothing else is touched.
   */
  ghost predicate Told(was: map<Key, Change>, reports: map<int, Report>, left: map<Key, Change>, save: Save) {
    (forall k <- left :: k in was &&
       left[k] == if k.uid in reports && Shows(reports[k.uid], k.param, was[k]) && !was[k].restoring
                  then was[k].(confirmed := true) else was[k]) &&
    (forall k <- was :: k !in left ==> was[k].restoring && save == Done) &&
    (save == Done ==> forall k <- was :: was[k].restoring ==>
       (k !in left <==> k.uid in reports && !was[k].confirmed && Shows(reports[k.uid], k.param, was[k])))
  }

  class ParamBroker {
    var pending: map<Key, Change>
    var busy: map<Key, Task>
    var persisting: set<int>
    var file: map<Key, Change>
    var reports: map<int, Report>

    ghost function View(): Broker
      reads this
    {
      Broker(pending, busy, persisting, file, reports)
    }

    constructor ()
      ensures View() == EMPTY
    {
      pending, busy, persisting, file, reports := map[], map[], {}, map[], map[];
    }

    /** savePending: every device change, in one file that is replaced whole. */
    method SavePending(save: Save) returns (ok: bool)
      modifies this`file
      ensures file == Write(old(file), pending, save) && ok == save.Done?
    {
      if !save.Failed? { file := pending; }
      ok := save.Done?;
    }

    /** Start with the journal found on disk, or refuse it. */
    method Load(now: int, bytes: nat) returns (ok: bool)
      modifies this
      ensures ok <==> Readable(old(file), bytes)
      ensures View() == Restarted(old(View()), now, bytes)
      ensures ok ==> pending.Keys == old(file).Keys && busy == map[] && forall k <- pending ::
        pending[k].revertAt == now
    {
      ok := false;
      if bytes > MAX_BYTES || |file| > MAX_ENTRIES { return; }
      var found: map<Key, Change> := map[];
      var left := file.Keys;
      while left != {}
        invariant left <= file.Keys && View() == old(View()) && found.Keys == file.Keys - left
        invariant forall k <- found ::
          found[k] == file[k].(revertAt := now) && Known(k.param) && InLimits(k.param, file[k].from)
        decreases left
      {
        var k :| k in left;
        if !Known(k.param) || !InLimits(k.param, file[k].from) { return; }
        left := left - {k};
        found := found[k := file[k].(revertAt := now)];
      }
      pending, busy, persisting, reports := found, map[], {}, map[];
      ok := true;
    }

    /** The checks before a change is recorded. */
    method MayStart(k: Key, value: int) returns (ok: bool)
      ensures ok == MayApply(View(), k, value)
      ensures ok <==>
        k.uid !in persisting && 0 <= k.param < 10 && InLimits(k.param, value) && k !in busy &&
        k.uid in reports && k.param in reports[k.uid].values
    {
      if k.uid in persisting || !Known(k.param) || !InLimits(k.param, value) { return false; }
      if k.uid !in reports || k.param !in reports[k.uid].values { return false; }
      return k !in busy;
    }

    /** apply, up to the command: what was sent, if anything. */
    method Apply(k: Key, value: int, now: int, boot: Option<int>, save: Save, again: Save)
      returns (command: Option<int>)
      modifies this
      ensures Outcome(View(), command) == StartApply(old(View()), k, value, now, boot, save, again)
      ensures persisting == old(persisting) && reports == old(reports)
      ensures command.Some? <==>
        k.uid !in persisting && 0 <= k.param < 10 && InLimits(k.param, value) && k !in old(busy) && save == Done &&
        k.uid in reports && k.param in reports[k.uid].values
      ensures command.Some? ==>
        command.value == value && busy == old(busy)[k := Applying] && file == pending &&
        pending == old(pending)[k := Change(
          if k in old(pending) then old(pending)[k].from else reports[k.uid].values[k.param],
          value, now + 900_000, false, None, false, Sent(now, boot, reports[k.uid].generation))]
      ensures command.None? ==> pending == old(pending) && busy == old(busy)
    {
      command := None;
      var free := MayStart(k, value);
      if !free { return; }
      var from := reports[k.uid].values[k.param];
      var existing := if k in pending then Some(pending[k]) else None;
      var change := Change(if existing.Some? then existing.value.from else from, value, now + REVERT_MS,
                           false, None, false, Sent(now, boot, reports[k.uid].generation));
      pending := pending[k := change];
      busy := busy[k := Applying];
      var saved := SavePending(save);
      if saved { return Some(value); }
      pending := if existing.Some? then pending[k := existing.value] else pending - {k};
      assert pending == old(pending);
      saved := SavePending(again);
      busy := busy - {k};
      assert busy == old(busy);
    }

    /** apply, once the command has been answered or refused. */
    method Applied(k: Key, reply: Option<int>, now: int)
      modifies this
      ensures View() == EndApply(old(View()), k, reply, now)
      ensures file == old(file) && persisting == old(persisting) && reports == old(reports)
      ensures var inFlight := k in old(busy) && old(busy)[k] == Applying && k in old(pending);
        busy == (if inFlight then old(busy) - {k} else old(busy)) &&
        pending ==
          if !inFlight then old(pending)
          else if reply.Some? then old(pending)[k := old(pending)[k].(cmdSeq := reply)]
          else old(pending)[k := old(pending)[k].(revertAt := now + 5_000)]
    {
      if k !in busy || busy[k] != Applying || k !in pending { return; }
      pending := pending[k := if reply.Some? then pending[k].(cmdSeq := reply)
        else pending[k].(revertAt := now + RETRY_MS)];
      busy := busy - {k};
    }

    /** revert, up to the command. */
    method Revert(k: Key, now: int, boot: Option<int>) returns (command: Option<int>)
      modifies this`pending, this`busy
      ensures Outcome(View(), command) == StartRevert(old(View()), k, now, boot)
      ensures command.Some? <==> k in old(pending) && k !in old(busy) && k.uid !in persisting
      ensures command.Some? ==>
        command.value == old(pending)[k].from && busy == old(busy)[k := Restoring] &&
        pending == old(pending)[k := old(pending)[k].(
          sent := Sent(now, boot, if k.uid in reports then reports[k.uid].generation else None))]
      ensures command.None? ==> pending == old(pending) && busy == old(busy)
    {
      if k !in pending || k in busy || k.uid in persisting { return None; }
      var c := pending[k];
      busy := busy[k := Restoring];
      var generation := if k.uid in reports then reports[k.uid].generation else None;
      pending := pending[k := c.(sent := Sent(now, boot, generation))];
      return Some(c.from);
    }

    /** revert, once the command has been answered or refused. */
    method Reverted(k: Key, reply: Option<int>, now: int, save: Save, second: Save)
      modifies this
      ensures View() == EndRevert(old(View()), k, reply, now, save, second)
      ensures var inFlight := k in old(busy) && old(busy)[k] == Restoring;
        (!inFlight ==> pending == old(pending) && busy == old(busy) && file == old(file)) &&
        (inFlight ==> busy == old(busy) - {k}) &&
        (inFlight && reply.None? ==>
           pending == (if k in old(pending) then old(pending)[k := old(pending)[k].(revertAt := now + 5_000)]
                       else old(pending)) &&
           file == if save == Failed then old(file) else pending)
      ensures k in old(busy) && old(busy)[k] == Restoring && reply.Some? && save != Done && k in old(pending) ==>
        pending == old(pending)[k := old(pending)[k].(
          cmdSeq := reply, restoring := true, to := old(pending)[k].from, confirmed := false, revertAt := now + 5_000)]
    {
      if k !in busy || busy[k] != Restoring { return; }
      if k in pending { pending := pending[k := Answered(pending[k], reply, now)]; }
      busy := busy - {k};
      var saved := SavePending(save);
      if reply.Some? && saved { Confirm(second); }
    }

    /** The loop of confirm: mark what has landed, and take out what has been restored. */
    method Match() returns (restored: map<Key, Change>)
      modifies this`pending
      ensures pending == Unrestored(old(View())) && pending + restored == AllMarked(old(View()))
      ensures restored.Keys == {} <==> forall k <- old(View()).pending :: !Restored(old(View()), k)
    {
      ghost var b := View();
      restored := map[];
      var left := pending.Keys;
      while left != {}
        invariant left <= b.pending.Keys
        invariant restored.Keys + pending.Keys == b.pending.Keys && restored.Keys !! pending.Keys
        invariant forall k <- restored :: k !in left && Restored(b, k) && restored[k] == b.pending[k]
        invariant forall k <- pending :: pending[k] == if k in left then b.pending[k] else Marked(b, k)
        invariant forall k <- pending :: k in left || !Restored(b, k)
        decreases left
      {
        var k :| k in left;
        left := left - {k};
        var c := pending[k];
        if k.uid in reports && Landed(c, k.param, reports[k.uid]) {
          if c.restoring {
            pending := pending - {k};
            restored := restored[k := c];
          } else {
            pending := pending[k := c.(confirmed := true)];
          }
        }
      }
      LoopLeaves(b, pending, restored);
    }

    /** confirm: match what was asked for against what the nodes report. */
    method Confirm(save: Save)
      modifies this`pending, this`file
      ensures View() == Confirmed(old(View()), save)
      ensures Told(old(pending), reports, pending, save)
    {
      ghost var b := View();
      var restored := Match();
      ConfirmEnds(b, pending, restored, save);
      ConfirmLeaves(b, save);
      if restored.Keys != {} {
        var saved := SavePending(save);
        if !saved { pending := pending + restored; }
      }
    }

    /** commit: the change stays, and is no longer on a timer. */
    method Commit(k: Key, save: Save) returns (ok: bool)
      modifies this
      ensures View() == Committed(old(View()), k, save)
      ensures ok <==> k !in old(busy) && k in old(pending) && save.Done?
      ensures busy == old(busy) && persisting == old(persisting) && reports == old(reports)
      ensures ok ==> pending == old(pending) - {k} && file == pending
      ensures !ok ==> pending == old(pending)
    {
      ok := false;
      if k in busy || k !in pending { return; }
      var c := pending[k];
      pending := pending - {k};
      ok := SavePending(save);
      if !ok { pending := pending[k := c]; }
    }

    /** persist, up to the command: refused while a change of the node is in flight or on its way back. */
    method Persist(uid: int) returns (sent: bool)
      modifies this`persisting
      ensures View() == StartPersist(old(View()), uid)
      ensures sent <==>
        uid !in old(persisting) && forall k <- pending :: k.uid == uid ==> k !in busy && !pending[k].restoring
      ensures persisting == if sent then old(persisting) + {uid} else old(persisting)
    {
      sent := false;
      if uid in persisting { return; }
      var left := pending.Keys;
      while left != {}
        invariant left <= pending.Keys
        invariant forall k <- pending :: k in left || k.uid != uid || (k !in busy && !pending[k].restoring)
        decreases left
      {
        var k :| k in left;
        left := left - {k};
        if k.uid == uid && (k in busy || pending[k].restoring) { return; }
      }
      persisting := persisting + {uid};
      sent := true;
    }

    /** persist, once the node has answered. */
    method Persisted(uid: int, ok: bool, save: Save)
      modifies this
      ensures View() == EndPersist(old(View()), uid, ok, save)
      ensures uid !in persisting
      ensures persisting == old(persisting) - {uid} && busy == old(busy) && reports == old(reports)
      ensures if uid in old(persisting) && ok && save == Done then
          file == pending &&
          (forall k :: k in pending <==> k in old(pending) && k.uid != uid) &&
          (forall k <- pending :: pending[k] == old(pending)[k])
        else pending == old(pending)
    {
      if uid !in persisting { return; }
      persisting := persisting - {uid};
      if !ok { return; }
      var previous := pending;
      var left := pending.Keys;
      while left != {}
        invariant left <= previous.Keys && file == old(file)
        invariant busy == old(busy) && reports == old(reports) && persisting == old(persisting) - {uid}
        invariant forall k :: k in pending <==> k in previous && (k in left || k.uid != uid)
        invariant forall k <- pending :: pending[k] == previous[k]
        decreases left
      {
        var k :| k in left;
        left := left - {k};
        if k.uid == uid { pending := pending - {k}; }
      }
      assert pending == Others(previous, uid);
      var saved := SavePending(save);
      if !saved { pending := previous; }
    }

    /** sweep: every change that is due, and not already under way, is on its way back. */
    method Sweep(now: int, boots: map<int, int>) returns (commands: map<Key, int>)
      modifies this`pending, this`busy
      ensures forall k :: k in commands <==>
        k in old(pending) && old(pending)[k].revertAt <= now && k !in old(busy) && k.uid !in persisting
      ensures forall k <- commands :: commands[k] == old(pending)[k].from && k in busy && busy[k] == Restoring
      ensures forall k :: k !in commands ==>
        (k in pending <==> k in old(pending)) && (k in pending ==> pending[k] == old(pending)[k])
      ensures forall k <- pending :: k in old(pending) && pending[k].from == old(pending)[k].from
      ensures pending.Keys == old(pending).Keys
    {
      commands := map[];
      var left := pending.Keys;
      while left != {}
        invariant left <= pending.Keys && pending.Keys == old(pending).Keys
        invariant forall k :: k in commands <==>
          k in pending && k !in left && old(pending)[k].revertAt <= now && k !in old(busy) && k.uid !in persisting
        invariant forall k <- commands :: commands[k] == old(pending)[k].from && k in busy && busy[k] == Restoring
        invariant forall k <- pending ::
          pending[k].from == old(pending)[k].from && (k !in commands ==> pending[k] == old(pending)[k])
        invariant forall k :: k in busy <==> k in old(busy) || k in commands
        decreases left
      {
        var k :| k in left;
        left := left - {k};
        if pending[k].revertAt <= now {
          var command := Revert(k, now, if k.uid in boots then Some(boots[k.uid]) else None);
          if command.Some? { commands := commands[k := command.value]; }
        }
      }
    }
  }

  /** What is left to do once the loop has run. */
  lemma ConfirmEnds(b: Broker, left: map<Key, Change>, restored: map<Key, Change>, save: Save)
    requires left == Unrestored(b) && left + restored == AllMarked(b)
    requires restored.Keys == {} <==> forall k <- b.pending :: !Restored(b, k)
    ensures Confirmed(b, save) ==
      if restored.Keys == {} then b.(pending := left)
      else b.(pending := if save.Done? then left else left + restored, file := if save.Failed? then b.file else left)
  {
    if restored.Keys == {} { assert left + restored == left; }
  }

  lemma ConfirmLeaves(b: Broker, save: Save)
    ensures Told(b.pending, b.reports, Confirmed(b, save).pending, save)
    ensures Confirmed(b, save).pending.Keys != b.pending.Keys ==> Confirmed(b, save).file == Confirmed(b, save).pending
  {
    forall k | k in b.pending
      ensures Lands(b, k) <==>
        k.uid in b.reports && !b.pending[k].confirmed && Shows(b.reports[k.uid], k.param, b.pending[k])
    {
    }
  }

  /** What the loop of confirm leaves in memory and sets aside. */
  lemma LoopLeaves(b: Broker, pending: map<Key, Change>, restored: map<Key, Change>)
    requires restored.Keys + pending.Keys == b.pending.Keys && restored.Keys !! pending.Keys
    requires forall k <- restored :: Restored(b, k) && restored[k] == b.pending[k]
    requires forall k <- pending :: !Restored(b, k) && pending[k] == Marked(b, k)
    ensures pending == Unrestored(b) && pending + restored == AllMarked(b)
    ensures restored.Keys == {} <==> forall k <- b.pending :: !Restored(b, k)
  {
    if restored.Keys != {} {
      var k :| k in restored.Keys;
      assert k in b.pending && Restored(b, k);
    }
  }
}

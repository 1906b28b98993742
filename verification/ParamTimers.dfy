/**
 * When a live parameter change falls due (src/algo/params.ts:263, 394-400): fifteen minutes after it
 * was sent, unless something has been asked of it since, and never once it has been kept.
 */
module ParamTimers {
  import opened Wrappers
  import opened Params
  import opened ParamsSafety

  /** What sweep looks at. */
  predicate DueAt(b: Broker, k: Key, now: int) { k in b.pending && b.pending[k].revertAt <= now }

  // ---- after an apply ----------------------------------------------------------------------------------

  /** Nothing that sets the timer of k: no new apply of it, refused command, answered restore or start. */
  predicate LeavesTimer(e: Event, k: Key) {
    !(e.ApplyStart? && e.key == k) && !(e.ApplyEnd? && e.key == k && e.reply.None?) &&
    !(e.RevertEnd? && e.key == k) && !e.Restart?
  }

  predicate SameTimer(b: Broker, n: Broker, k: Key) {
    k in n.pending ==>
      k in b.pending && n.pending[k].revertAt == b.pending[k].revertAt &&
        n.pending[k].restoring == b.pending[k].restoring
  }

  lemma ConfirmLeavesTimer(b: Broker, save: Save, k: Key)
    ensures SameTimer(b, Confirmed(b, save), k)
    ensures k in b.pending && !b.pending[k].restoring ==> k in Confirmed(b, save).pending
  {
  }

  lemma StepLeavesTimer(b: Broker, e: Event, k: Key)
    requires LeavesTimer(e, k)
    ensures SameTimer(b, Step(b, e).broker, k)
    ensures LetsBe(e, k) && k in b.pending && !b.pending[k].restoring ==> k in Step(b, e).broker.pending
  {
    match e
    case Confirm(save) => ConfirmLeavesTimer(b, save, k);
    case RevertEnd(j, reply, now, save, second) =>
      ConfirmLeavesTimer(Rewritten(b, j, reply, now, save), second, k);
    case _ =>
  }

  /** From state i to state j nothing sets the timer of k. */
  ghost predicate Unset(h: History, i: nat, j: nat, k: Key) {
    forall m :: i <= m < j && m < |h.events| ==> LeavesTimer(h.events[m], k)
  }

  /** The timer an apply at time t starts, kept and still running. */
  predicate Ticks(b: Broker, k: Key, t: int) {
    k in b.pending ==> b.pending[k].revertAt == t + 900_000 && !b.pending[k].restoring
  }

  lemma WriteTicks(h: History, i: nat, k: Key)
    requires Happens(h) && i < |h.events| && Writes(h, i, k)
    ensures k in h.states[i + 1].pending && Ticks(h.states[i + 1], k, h.events[i].now)
  {
    assert Follows(h, i);
  }

  lemma {:induction false} TimerRuns(h: History, i: nat, j: nat, k: Key)
    requires Happens(h) && i < j < |h.states| && Writes(h, i, k) && Unset(h, i + 1, j, k)
    ensures Ticks(h.states[j], k, h.events[i].now)
    ensures (forall m :: i < m < j ==> LetsBe(h.events[m], k)) ==> k in h.states[j].pending
    decreases j
  {
    if j == i + 1 {
      WriteTicks(h, i, k);
    } else {
      var m := j - 1;
      TimerRuns(h, i, m, k);
      assert Follows(h, m) && LeavesTimer(h.events[m], k);
      StepLeavesTimer(h.states[m], h.events[m], k);
    }
  }

  /**
   * Over every run: a change sent at time t, with no new apply of it, refused command, answered restore
   * or start since, is due at no time before t + 15 minutes and at every time from then on, for as long
   * as it is pending; and it is pending unless it was committed or saved to flash.
   */
  lemma DueAfterFifteenMinutes(h: History, i: nat, j: nat, k: Key, now: int)
    requires Happens(h) && i < j < |h.states| && Writes(h, i, k) && Unset(h, i + 1, j, k)
    ensures DueAt(h.states[j], k, now) <==> k in h.states[j].pending && h.events[i].now + 900_000 <= now
    ensures (forall m :: i < m < j ==> LetsBe(h.events[m], k)) ==> k in h.states[j].pending
  {
    TimerRuns(h, i, j, k);
  }

  // ---- after a commit or a save to flash ---------------------------------------------------------------

  /** The step keeps k for good: a commit of it, or a save of its node, that succeeds. */
  predicate Keeps(b: Broker, e: Event, k: Key) {
    (e.Commit? && e.key == k && e.save.Done? && k in b.pending && k !in b.busy) ||
    (e.PersistEnd? && e.uid == k.uid && e.ok && e.save.Done? && k.uid in b.persisting)
  }

  predicate Gone(b: Broker, k: Key) { k !in b.pending && k !in b.file }

  lemma KeptIsGone(b: Broker, e: Event, k: Key)
    requires Keeps(b, e, k)
    ensures Gone(Step(b, e).broker, k)
  {
  }

  lemma ConfirmStaysGone(b: Broker, save: Save, k: Key)
    requires Gone(b, k)
    ensures Gone(Confirmed(b, save), k)
  {
  }

  lemma RevertStaysGone(b: Broker, j: Key, reply: Option<int>, now: int, save: Save, second: Save, k: Key)
    requires Gone(b, k)
    ensures Gone(EndRevert(b, j, reply, now, save, second), k)
  {
    var written := Rewritten(b, j, reply, now, save);
    assert Gone(written, k);
    ConfirmStaysGone(written, second, k);
  }

  lemma StaysGone(b: Broker, e: Event, k: Key)
    requires Gone(b, k) && !(e.ApplyStart? && e.key == k)
    ensures Gone(Step(b, e).broker, k)
  {
    match e
    case RevertEnd(j, reply, now, save, second) => RevertStaysGone(b, j, reply, now, save, second, k);
    case Confirm(save) => ConfirmStaysGone(b, save, k);
    case _ =>
  }

  lemma {:induction false} GoneUntilApplied(h: History, i: nat, j: nat, k: Key)
    requires Happens(h) && i < j < |h.states| && Keeps(h.states[i], h.events[i], k)
    requires forall m :: i < m < j ==> !(h.events[m].ApplyStart? && h.events[m].key == k)
    ensures Gone(h.states[j], k)
    decreases j
  {
    assert Follows(h, j - 1);
    if j == i + 1 {
      KeptIsGone(h.states[i], h.events[i], k);
    } else {
      GoneUntilApplied(h, i, j - 1, k);
      StaysGone(h.states[j - 1], h.events[j - 1], k);
    }
  }

  /**
   * A change that was committed, or saved to flash with its node, is off the timer for good: until it is
   * applied anew it is never due and never sent back, not even after a crash and a start.
   */
  lemma KeptIsNeverSentBack(h: History, i: nat, j: nat, k: Key, now: int, boot: Option<int>)
    requires Happens(h) && i < j < |h.states| && Keeps(h.states[i], h.events[i], k)
    requires forall m :: i < m < j ==> !(h.events[m].ApplyStart? && h.events[m].key == k)
    ensures !DueAt(h.states[j], k, now) && Step(h.states[j], RevertStart(k, now, boot)).command.None?
  {
    GoneUntilApplied(h, i, j, k);
  }
}

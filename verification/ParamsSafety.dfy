/** What holds of parameter writes over whole runs: applies, failures, reverts and restarts. */
module ParamsSafety {
  import opened Wrappers
  import opened Params

  /** From state w on no event of the run commits k or saves its node to flash. */
  ghost predicate Uncommitted(h: History, w: nat, k: Key) {
    forall i :: w <= i < |h.events| ==> LetsBe(h.events[i], k)
  }

  /**
   * No change of k is on its way back, and one in memory is in the journal: so after every first
   * start and every apply.
   */
  predicate AtRest(b: Broker, k: Key) {
    (k in b.pending ==> !b.pending[k].restoring && SameFrom(b.file, b.pending, k)) &&
    (k in b.file ==> !b.file[k].restoring) && !(k in b.busy && b.busy[k] == Restoring)
  }

  // ---- steps on a key that has no change -----------------------------------------------------

  lemma StepEnters(b: Broker, e: Event, k: Key)
    requires Journalled(b, k) && LetsBe(e, k) && k !in b.pending
    ensures Journalled(Step(b, e).broker, k)
    ensures k in Step(b, e).broker.pending ==> k in Step(b, e).broker.file
  {
    match e
    case ApplyStart(j, value, now, boot, save, again) => StartApplyKeeps(b, j, value, now, boot, save, again, k);
    case RevertEnd(j, reply, now, save, second) => EndRevertElsewhere(b, j, reply, now, save, second, k);
    case _ =>
  }

  lemma ConfirmElsewhere(b: Broker, save: Save, k: Key)
    requires Aimed(b.file, k) && k !in b.pending
    ensures Aimed(Confirmed(b, save).file, k) && k !in Confirmed(b, save).pending
  {
  }

  lemma EndRevertElsewhere(b: Broker, j: Key, reply: Option<int>, now: int, save: Save, second: Save, k: Key)
    requires Aimed(b.file, k) && k !in b.pending
    ensures Aimed(EndRevert(b, j, reply, now, save, second).file, k)
    ensures k !in EndRevert(b, j, reply, now, save, second).pending
  {
    if j in b.busy && b.busy[j] == Restoring {
      ConfirmElsewhere(Rewritten(b, j, reply, now, save), second, k);
    }
  }

  lemma NextJournals(h: History, w: nat, i: nat, k: Key)
    requires Happens(h) && Uncommitted(h, w, k) && w <= i < |h.events| && Journalled(h.states[i], k)
    ensures Journalled(h.states[i + 1], k)
  {
    assert Follows(h, i);
    if k in h.states[i].pending {
      StepKeeps(h.states[i], h.events[i], k);
    } else {
      StepEnters(h.states[i], h.events[i], k);
    }
  }

  lemma {:induction false} RunJournals(h: History, w: nat, i: nat, k: Key)
    requires Happens(h) && w <= i < |h.states| && AtRest(h.states[w], k) && Uncommitted(h, w, k)
    ensures Journalled(h.states[i], k)
    decreases i
  {
    if i > w {
      RunJournals(h, w, i - 1, k);
      NextJournals(h, w, i - 1, k);
    }
  }

  // ---- the value to return to --------------------------------------------------------------------

  /** The change of k is unresolved from state i to state j. */
  ghost predicate Unresolved(h: History, i: nat, j: nat, k: Key)
    requires i <= j < |h.states|
  {
    forall m :: i <= m <= j ==> k in h.states[m].pending
  }

  /** How one step of a history may treat the change of k. */
  lemma NextKeeps(h: History, w: nat, i: nat, k: Key)
    requires Happens(h) && Uncommitted(h, w, k) && w <= i < |h.events|
    requires Journalled(h.states[i], k) && k in h.states[i].pending
    ensures k in h.states[i + 1].pending ==> h.states[i + 1].pending[k].from == h.states[i].pending[k].from
    ensures k !in h.states[i + 1].pending || k !in h.states[i + 1].file ==>
      k !in h.states[i].file || LandsBack(h.states[i], h.events[i], k, h.states[i].pending[k].from)
  {
    assert Follows(h, i);
    var b, e := h.states[i], h.events[i];
    StepKeeps(b, e, k);
    if e.Restart? { RestartSame(b, e.now, e.bytes, k); }
  }

  lemma {:induction false} FromStays(h: History, i: nat, j: nat, k: Key)
    requires Happens(h) && i <= j < |h.states| && AtRest(h.states[i], k) && Uncommitted(h, i, k) &&
      Unresolved(h, i, j, k)
    ensures h.states[j].pending[k].from == h.states[i].pending[k].from
    decreases j
  {
    if i < j {
      FromStays(h, i, j - 1, k);
      RunJournals(h, i, j - 1, k);
      NextKeeps(h, i, j - 1, k);
    }
  }

  lemma RestartSame(b: Broker, now: int, bytes: nat, k: Key)
    requires Journalled(b, k) && k in b.pending
    ensures k in Restarted(b, now, bytes).pending ==> Restarted(b, now, bytes).pending[k].from == b.pending[k].from
    ensures k in b.file ==> k in Restarted(b, now, bytes).pending && k in Restarted(b, now, bytes).file
  {
  }

  /** The i-th event writes to k, and its command goes out. */
  ghost predicate Writes(h: History, i: nat, k: Key)
    requires i < |h.events| && i < |h.states|
  {
    h.events[i].ApplyStart? && h.events[i].key == k && Step(h.states[i], h.events[i]).command.Some?
  }

  /** What the node last reported for k. */
  function ReportedValue(b: Broker, k: Key): Option<int> {
    if k.uid in b.reports && k.param in b.reports[k.uid].values then Some(b.reports[k.uid].values[k.param]) else None
  }

  /** After a write the change is in the journal and not on its way back. */
  lemma WriteIsAtRest(h: History, i: nat, k: Key)
    requires Happens(h) && i < |h.events| && Writes(h, i, k)
    ensures k in h.states[i + 1].pending && AtRest(h.states[i + 1], k)
  {
    assert Follows(h, i);
  }

  lemma FirstWrite(h: History, i: nat, k: Key)
    requires Happens(h) && i < |h.events| && Writes(h, i, k) && k !in h.states[i].pending
    ensures k in h.states[i + 1].pending && ReportedValue(h.states[i], k) == Some(h.states[i + 1].pending[k].from)
  {
    assert Follows(h, i);
  }

  /**
   * Through re-applies, failed dispatches, reverts and restarts, an unresolved change returns to
   * what the node reported before the first of its applies.
   */
  lemma ReturnsToFirstReport(h: History, i: nat, j: nat, k: Key)
    requires Happens(h) && i < j < |h.states| && Uncommitted(h, i, k)
    requires Writes(h, i, k) && k !in h.states[i].pending && Unresolved(h, i + 1, j, k)
    ensures ReportedValue(h.states[i], k) == Some(h.states[j].pending[k].from)
  {
    WriteIsAtRest(h, i, k);
    FirstWrite(h, i, k);
    FromStays(h, i + 1, j, k);
  }

  // ---- where a restore comes from ---------------------------------------------------------------------

  predicate SameRestore(c: Change, d: Change) { c.from == d.from && c.cmdSeq == d.cmdSeq && d.restoring }

  /** A change on its way back was so before the step, or the step brought the answer. */
  predicate Origin(b: Broker, e: Event, k: Key, c: Change) {
    !c.restoring || (k in b.pending && SameRestore(c, b.pending[k])) || (k in b.file && SameRestore(c, b.file[k])) ||
    (e.RevertEnd? && e.key == k && e.reply.Some? && e.reply == c.cmdSeq && k in b.busy && b.busy[k] == Restoring &&
     k in b.pending && b.pending[k].from == c.from)
  }

  predicate Origins(b: Broker, e: Event, k: Key, after: Broker) {
    (k in after.pending ==> Origin(b, e, k, after.pending[k])) && (k in after.file ==> Origin(b, e, k, after.file[k]))
  }

  /** A change being applied is not on its way back. */
  predicate AppliesForward(b: Broker, k: Key) {
    k in b.busy && b.busy[k] == Applying && k in b.pending ==> !b.pending[k].restoring
  }

  /** The restore in flight for k was in flight before, or this step sent it. */
  predicate Flights(b: Broker, e: Event, k: Key, after: Broker) {
    k in after.busy && after.busy[k] == Restoring && k in after.pending ==>
      (k in b.busy && b.busy[k] == Restoring && k in b.pending && b.pending[k].from == after.pending[k].from) ||
      (e.RevertStart? && e.key == k && Step(b, e).command == Some(after.pending[k].from))
  }

  lemma ConfirmOrigin(b: Broker, save: Save, k: Key)
    requires AppliesForward(b, k)
    ensures var after := Confirmed(b, save);
      AppliesForward(after, k) && after.busy == b.busy &&
      (k in after.pending ==> k in b.pending && after.pending[k].from == b.pending[k].from) &&
      (k in after.pending && after.pending[k].restoring ==> SameRestore(after.pending[k], b.pending[k])) &&
      (k in after.file && after.file[k].restoring ==>
         (k in b.pending && SameRestore(after.file[k], b.pending[k])) ||
           (k in b.file && SameRestore(after.file[k], b.file[k])))
  {
  }

  lemma RewriteOrigin(b: Broker, j: Key, reply: Option<int>, now: int, save: Save, second: Save, k: Key)
    requires AppliesForward(b, k) && j in b.busy && b.busy[j] == Restoring
    ensures var after, e := Rewritten(b, j, reply, now, save), RevertEnd(j, reply, now, save, second);
      Origins(b, e, k, after) && AppliesForward(after, k) && Flights(b, e, k, after)
  {
  }

  lemma EndRevertOrigin(b: Broker, j: Key, reply: Option<int>, now: int, save: Save, second: Save, k: Key)
    requires AppliesForward(b, k)
    ensures var after, e := EndRevert(b, j, reply, now, save, second), RevertEnd(j, reply, now, save, second);
      Origins(b, e, k, after) && AppliesForward(after, k) && Flights(b, e, k, after)
  {
    if j in b.busy && b.busy[j] == Restoring {
      RewriteOrigin(b, j, reply, now, save, second, k);
      ConfirmOrigin(Rewritten(b, j, reply, now, save), second, k);
    }
  }

  lemma StartOrigin(b: Broker, e: Event, k: Key)
    requires AppliesForward(b, k) && (e.ApplyStart? || e.RevertStart? || e.ApplyEnd?)
    ensures var after := Step(b, e).broker;
      Origins(b, e, k, after) && AppliesForward(after, k) && Flights(b, e, k, after)
  {
  }

  lemma RemovalOrigin(b: Broker, e: Event, k: Key)
    requires AppliesForward(b, k) && (e.Commit? || e.PersistEnd?)
    ensures var after := Step(b, e).broker;
      Origins(b, e, k, after) && AppliesForward(after, k) && Flights(b, e, k, after)
  {
  }

  lemma OtherOrigin(b: Broker, e: Event, k: Key)
    requires AppliesForward(b, k) && (e.Reported? || e.PersistStart? || e.Restart?)
    ensures var after := Step(b, e).broker;
      Origins(b, e, k, after) && AppliesForward(after, k) && Flights(b, e, k, after)
  {
  }

  lemma StepOrigin(b: Broker, e: Event, k: Key)
    requires AppliesForward(b, k)
    ensures var after := Step(b, e).broker;
      Origins(b, e, k, after) && AppliesForward(after, k) && Flights(b, e, k, after)
  {
    match e
    case RevertEnd(j, reply, now, save, second) => EndRevertOrigin(b, j, reply, now, save, second, k);
    case Confirm(save) => ConfirmOrigin(b, save, k);
    case ApplyStart(_, _, _, _, _, _) => StartOrigin(b, e, k);
    case RevertStart(_, _, _) => StartOrigin(b, e, k);
    case ApplyEnd(_, _, _) => StartOrigin(b, e, k);
    case Commit(_, _) => RemovalOrigin(b, e, k);
    case PersistEnd(_, _, _) => RemovalOrigin(b, e, k);
    case _ => OtherOrigin(b, e, k);
  }

  /** The s-th event sends k its old value. */
  ghost predicate SendsBack(h: History, s: nat, k: Key, from: int)
    requires |h.states| == |h.events| + 1
  {
    s < |h.events| && h.events[s].RevertStart? && h.events[s].key == k &&
      Step(h.states[s], h.events[s]).command == Some(from)
  }

  /** The a-th event brings the answer to a restore of k: the number its command went out under. */
  ghost predicate AnsweredBy(h: History, a: nat, k: Key, seqNo: Option<int>) {
    a < |h.events| && h.events[a].RevertEnd? && h.events[a].key == k && seqNo.Some? && h.events[a].reply == seqNo
  }

  /** Between states w and i a restore of k to `from` was sent, and after that one was answered. */
  ghost predicate Traced(h: History, w: nat, i: nat, k: Key, from: int, seqNo: Option<int>)
    requires |h.states| == |h.events| + 1
  {
    exists s: nat, a: nat :: w <= s < a < i && SendsBack(h, s, k, from) && AnsweredBy(h, a, k, seqNo)
  }

  ghost predicate SentBack(h: History, w: nat, i: nat, k: Key, from: int)
    requires |h.states| == |h.events| + 1
  {
    exists s: nat :: w <= s < i && SendsBack(h, s, k, from)
  }

  ghost predicate TracedIn(h: History, w: nat, i: nat, k: Key, changes: map<Key, Change>)
    requires |h.states| == |h.events| + 1
  {
    k in changes && changes[k].restoring ==> Traced(h, w, i, k, changes[k].from, changes[k].cmdSeq)
  }

  /** Whatever is on its way back in state i was sent and answered since state w. */
  ghost predicate Accounted(h: History, w: nat, i: nat, k: Key)
    requires |h.states| == |h.events| + 1 && i < |h.states|
  {
    var b := h.states[i];
    AppliesForward(b, k) && TracedIn(h, w, i, k, b.pending) && TracedIn(h, w, i, k, b.file) &&
    (k in b.busy && b.busy[k] == Restoring && k in b.pending ==> SentBack(h, w, i, k, b.pending[k].from))
  }

  lemma TraceNext(h: History, w: nat, i: nat, k: Key, c: Change)
    requires Happens(h) && w <= i < |h.events| && Accounted(h, w, i, k)
    requires Origin(h.states[i], h.events[i], k, c) && c.restoring
    ensures Traced(h, w, i + 1, k, c.from, c.cmdSeq)
  {
    var b, e := h.states[i], h.events[i];
    if (k in b.pending && SameRestore(c, b.pending[k])) || (k in b.file && SameRestore(c, b.file[k])) {
      var s: nat, a: nat :| w <= s < a < i && SendsBack(h, s, k, c.from) && AnsweredBy(h, a, k, c.cmdSeq);
      assert w <= s < a < i + 1 && SendsBack(h, s, k, c.from) && AnsweredBy(h, a, k, c.cmdSeq);
    } else {
      var s: nat :| w <= s < i && SendsBack(h, s, k, c.from);
      assert w <= s < i < i + 1 && SendsBack(h, s, k, c.from) && AnsweredBy(h, i, k, c.cmdSeq);
    }
  }

  lemma TracesNext(h: History, w: nat, i: nat, k: Key, changes: map<Key, Change>)
    requires Happens(h) && w <= i < |h.events| && Accounted(h, w, i, k)
    requires k in changes ==> Origin(h.states[i], h.events[i], k, changes[k])
    ensures TracedIn(h, w, i + 1, k, changes)
  {
    if k in changes && changes[k].restoring { TraceNext(h, w, i, k, changes[k]); }
  }

  lemma FlightNext(h: History, w: nat, i: nat, k: Key, after: Broker)
    requires Happens(h) && w <= i < |h.events| && Accounted(h, w, i, k) && Flights(h.states[i], h.events[i], k, after)
    requires k in after.busy && after.busy[k] == Restoring && k in after.pending
    ensures SentBack(h, w, i + 1, k, after.pending[k].from)
  {
    var e := h.events[i];
    if e.RevertStart? && e.key == k && Step(h.states[i], e).command == Some(after.pending[k].from) {
      assert SendsBack(h, i, k, after.pending[k].from);
    } else {
      var s: nat :| w <= s < i && SendsBack(h, s, k, after.pending[k].from);
      assert w <= s < i + 1 && SendsBack(h, s, k, after.pending[k].from);
    }
  }

  lemma NextOrigin(h: History, i: nat, k: Key)
    requires Happens(h) && i < |h.events| && AppliesForward(h.states[i], k)
    ensures var b, e, after := h.states[i], h.events[i], h.states[i + 1];
      Origins(b, e, k, after) && AppliesForward(after, k) && Flights(b, e, k, after)
  {
    assert Follows(h, i);
    StepOrigin(h.states[i], h.events[i], k);
  }

  lemma {:induction false} RunAccounts(h: History, w: nat, i: nat, k: Key)
    requires Happens(h) && w <= i < |h.states| && AtRest(h.states[w], k)
    ensures Accounted(h, w, i, k)
    decreases i
  {
    if i > w {
      RunAccounts(h, w, i - 1, k);
      NextOrigin(h, i - 1, k);
      var after := h.states[i];
      TracesNext(h, w, i - 1, k, after.pending);
      TracesNext(h, w, i - 1, k, after.file);
      if k in after.busy && after.busy[k] == Restoring && k in after.pending { FlightNext(h, w, i - 1, k, after); }
    }
  }

  // ---- gone only when back ----------------------------------------------------------------------------

  /**
   * The m-th event finds in a report, newer than the last command sent and of a command at least
   * as new as seqNo, that the node runs the value `from`.
   */
  ghost predicate SeenBack(h: History, m: nat, k: Key, from: int, seqNo: Option<int>)
    requires |h.states| == |h.events| + 1
  {
    m < |h.events| && LandsBack(h.states[m], h.events[m], k, from) &&
    var b := Checked(h.states[m], h.events[m]).value;
    seqNo.Some? && seqNo == b.pending[k].cmdSeq &&
    b.reports[k.uid].lastCmd >= seqNo.value && b.reports[k.uid].values[k.param] == from
  }

  /**
   * The restore of k to `from` that event s sent, or a later one, was answered by event a, and seen
   * landed by event m.
   */
  ghost predicate Returned(h: History, s: nat, a: nat, m: nat, k: Key, from: int)
    requires |h.states| == |h.events| + 1
  {
    s < a <= m && SendsBack(h, s, k, from) && a < |h.events| && h.events[a].RevertEnd? &&
    AnsweredBy(h, a, k, h.events[a].reply) && SeenBack(h, m, k, from, h.events[a].reply)
  }

  /** Between states w and j a restore of k to `from` was sent, then answered, and then found to have landed. */
  ghost predicate BroughtBack(h: History, w: nat, j: nat, k: Key, from: int)
    requires |h.states| == |h.events| + 1
  {
    exists s: nat, a: nat, m: nat :: w <= s && m < j && Returned(h, s, a, m, k, from)
  }

  /** A landing is the last of three: the restore was sent and answered before. */
  lemma LandingWasSent(h: History, w: nat, m: nat, k: Key, from: int)
    requires Happens(h) && w <= m < |h.events| && AtRest(h.states[w], k)
    requires LandsBack(h.states[m], h.events[m], k, from)
    ensures BroughtBack(h, w, m + 1, k, from)
  {
    var b, e := h.states[m], h.events[m];
    var c := Checked(b, e).value.pending[k];
    RunAccounts(h, w, m, k);
    if e.RevertEnd? { RewriteOrigin(b, e.key, e.reply, e.now, e.save, e.second, k); }
    TraceNext(h, w, m, k, c);
    var s: nat, a: nat :| w <= s < a < m + 1 && SendsBack(h, s, k, from) && AnsweredBy(h, a, k, c.cmdSeq);
    assert Returned(h, s, a, m, k, from);
  }

  lemma BroughtBackLater(h: History, w: nat, i: nat, j: nat, k: Key, from: int)
    requires Happens(h) && i <= j && BroughtBack(h, w, i, k, from)
    ensures BroughtBack(h, w, j, k, from)
  {
    var s: nat, a: nat, m: nat :| w <= s && m < i && Returned(h, s, a, m, k, from);
    assert w <= s && m < j && Returned(h, s, a, m, k, from);
  }

  lemma NextEnters(h: History, w: nat, i: nat, k: Key)
    requires Happens(h) && Uncommitted(h, w, k) && w <= i < |h.events| && Journalled(h.states[i], k)
    requires k !in h.states[i].pending && k in h.states[i + 1].pending
    ensures k in h.states[i + 1].file
  {
    assert Follows(h, i);
    StepEnters(h.states[i], h.events[i], k);
  }

  /** What is in memory and not in the journal has been brought back since state w. */
  lemma {:induction false} MissingWasBroughtBack(h: History, w: nat, j: nat, k: Key)
    requires Happens(h) && w <= j < |h.states| && AtRest(h.states[w], k) && Uncommitted(h, w, k)
    requires k in h.states[j].pending && k !in h.states[j].file
    ensures BroughtBack(h, w, j, k, h.states[j].pending[k].from)
    decreases j
  {
    if j > w {
      RunJournals(h, w, j - 1, k);
      if k !in h.states[j - 1].pending {
        NextEnters(h, w, j - 1, k);
      } else {
        NextKeeps(h, w, j - 1, k);
        if k !in h.states[j - 1].file {
          MissingWasBroughtBack(h, w, j - 1, k);
          BroughtBackLater(h, w, j - 1, j, k, h.states[j].pending[k].from);
        } else {
          LandingWasSent(h, w, j - 1, k, h.states[j].pending[k].from);
        }
      }
    }
  }

  /** From a state in which nothing of k is on its way back: what is gone was brought back since then. */
  lemma {:induction false} GoneSinceRest(h: History, w: nat, i: nat, j: nat, k: Key)
    requires Happens(h) && w <= i < j < |h.states| && AtRest(h.states[w], k) && Uncommitted(h, w, k)
    requires k in h.states[i].pending && k !in h.states[j].pending
    ensures BroughtBack(h, w, j, k, h.states[i].pending[k].from)
    decreases j - i
  {
    var from := h.states[i].pending[k].from;
    RunJournals(h, w, i, k);
    NextKeeps(h, w, i, k);
    if k in h.states[i + 1].pending {
      GoneSinceRest(h, w, i + 1, j, k);
    } else if k !in h.states[i].file {
      MissingWasBroughtBack(h, w, i, k);
      BroughtBackLater(h, w, i, j, k, from);
    } else {
      LandingWasSent(h, w, i, k, from);
      BroughtBackLater(h, w, i + 1, j, k, from);
    }
  }

  /**
   * A change is gone only because its way back was taken to its end: after each of its applies a
   * restore to the value was sent, one was answered after that, and then a report newer than the
   * last one sent showed the value. What happened to earlier changes of k does not count.
   */
  lemma GoneOnlyWhenBack(h: History, w: nat, i: nat, j: nat, k: Key)
    requires Happens(h) && w < i < j < |h.states| && Writes(h, w, k) && Uncommitted(h, w, k)
    requires k in h.states[i].pending && k !in h.states[j].pending
    ensures exists s: nat, a: nat, m: nat :: w < s < a <= m < j && Returned(h, s, a, m, k, h.states[i].pending[k].from)
  {
    var from := h.states[i].pending[k].from;
    WriteIsAtRest(h, w, k);
    GoneSinceRest(h, w + 1, i, j, k);
    var s: nat, a: nat, m: nat :| w + 1 <= s && m < j && Returned(h, s, a, m, k, from);
    assert w < s < a <= m < j && Returned(h, s, a, m, k, from);
  }

  // ---- journal before command ---------------------------------------------------------------------------

  /** The i-th event sends a command for k: an apply or a restore. */
  ghost predicate Commands(h: History, i: nat, k: Key)
    requires i < |h.events| && i < |h.states|
  {
    (h.events[i].ApplyStart? || h.events[i].RevertStart?) && h.events[i].key == k &&
      Step(h.states[i], h.events[i]).command.Some?
  }

  lemma CommandKeeps(b: Broker, e: Event, k: Key)
    requires (e.ApplyStart? || e.RevertStart?) && e.key == k && Step(b, e).command.Some? && Journalled(b, k)
    ensures k in Step(b, e).broker.pending && Journalled(Step(b, e).broker, k)
    ensures k !in Step(b, e).broker.file ==> e.RevertStart? && k in b.pending && k !in b.file
    ensures e.ApplyStart? ==> k in Step(b, e).broker.file && Some(Step(b, e).broker.file[k].to) == Step(b, e).command
    ensures e.RevertStart? ==> Step(b, e).command == Some(Step(b, e).broker.pending[k].from)
  {
  }

  /**
   * Whenever a command for k goes out, to apply or to restore, the journal holds the value the
   * node reported before the first of the applies, or else it is a restore, and one has landed
   * since the last of the applies.
   */
  lemma JournalBeforeCommand(h: History, w: nat, i: nat, k: Key)
    requires Happens(h) && w <= i < |h.events| && Uncommitted(h, w, k)
    requires Writes(h, w, k) && k !in h.states[w].pending && Unresolved(h, w + 1, i + 1, k) && Commands(h, i, k)
    ensures ReportedValue(h.states[w], k) == Some(h.states[i + 1].pending[k].from)
    ensures h.events[i].RevertStart? ==> Step(h.states[i], h.events[i]).command == ReportedValue(h.states[w], k)
    ensures k in h.states[i + 1].file ==> Some(h.states[i + 1].file[k].from) == ReportedValue(h.states[w], k)
    ensures k !in h.states[i + 1].file ==> h.events[i].RevertStart?
    ensures k !in h.states[i + 1].file ==>
      forall x: nat :: w <= x < i && Writes(h, x, k) ==>
        BroughtBack(h, x + 1, i, k, ReportedValue(h.states[w], k).value)
  {
    WriteIsAtRest(h, w, k);
    ReturnsToFirstReport(h, w, i + 1, k);
    if i > w {
      RunJournals(h, w + 1, i, k);
      CommandAfter(h, w, i, k);
    } else {
      assert Follows(h, i);
    }
  }

  /** A later command of the same change. */
  lemma CommandAfter(h: History, w: nat, i: nat, k: Key)
    requires Happens(h) && w < i < |h.events| && Uncommitted(h, w, k) && Journalled(h.states[i], k)
    requires k in h.states[i].pending && k in h.states[i + 1].pending && Commands(h, i, k)
    ensures h.events[i].RevertStart? ==> Step(h.states[i], h.events[i]).command == Some(h.states[i + 1].pending[k].from)
    ensures k in h.states[i + 1].file ==> h.states[i + 1].file[k].from == h.states[i + 1].pending[k].from
    ensures k !in h.states[i + 1].file ==> h.events[i].RevertStart?
    ensures k !in h.states[i + 1].file ==>
      forall x: nat :: w <= x < i && Writes(h, x, k) ==> BroughtBack(h, x + 1, i, k, h.states[i + 1].pending[k].from)
  {
    assert Follows(h, i);
    CommandKeeps(h.states[i], h.events[i], k);
    if k !in h.states[i + 1].file {
      NextKeeps(h, w, i, k);
      var from := h.states[i + 1].pending[k].from;
      forall x: nat | w <= x < i && Writes(h, x, k) ensures BroughtBack(h, x + 1, i, k, from) {
        WriteIsAtRest(h, x, k);
        MissingWasBroughtBack(h, x + 1, i, k);
      }
    }
  }

  /** So a crash at any point, with the write possibly on the ceiling, starts with the restore due. */
  lemma CrashKeepsTheWayBack(h: History, w: nat, i: nat, k: Key, now: int, bytes: nat)
    requires Happens(h) && w <= i < |h.states| && AtRest(h.states[w], k) && Uncommitted(h, w, k)
    requires k in h.states[i].pending && !h.states[i].pending[k].restoring && Readable(h.states[i].file, bytes)
    ensures var after := Restarted(h.states[i], now, bytes);
      k in after.pending && after.pending[k].from == h.states[i].pending[k].from && after.pending[k].revertAt == now &&
        k !in after.busy
  {
    RunJournals(h, w, i, k);
  }

  // ---- a restore resolves the change ------------------------------------------------------------------------

  /** The node's last report is that of a node which has taken the restore sent as `sent` under number seqNo. */
  predicate ShowsRestored(b: Broker, k: Key, from: int, sent: Sent, seqNo: int) {
    k.uid in b.reports &&
    var r := b.reports[k.uid];
    k.param in r.values && r.values[k.param] == from && r.lastCmd >= seqNo && r.receivedAt >= sent.at &&
    (sent.boot.Some? ==> r.boot == sent.boot.value) &&
    (sent.generation.Some? ==> (if r.generation.Some? then r.generation.value else 0) > sent.generation.value)
  }

  /** The event neither changes k again, nor sends for it again, nor answers for it, nor is a start. */
  predicate LeavesAlone(e: Event, k: Key) {
    !e.Restart? && !(e.ApplyStart? && e.key == k) && !(e.RevertStart? && e.key == k) && !(e.RevertEnd? && e.key == k)
  }

  /** The restore is in flight; the change may meanwhile be gone. */
  predicate Underway(b: Broker, k: Key, from: int, sent: Sent) {
    k in b.busy && b.busy[k] == Restoring && (k in b.pending ==> b.pending[k].from == from && b.pending[k].sent == sent)
  }

  /** The restore was answered under number seqNo; the change may meanwhile be gone. */
  predicate Homeward(b: Broker, k: Key, from: int, sent: Sent, seqNo: int) {
    k !in b.busy &&
    (k in b.pending ==>
      var c := b.pending[k];
      c.from == from && c.to == from && c.sent == sent && c.cmdSeq == Some(seqNo) && c.restoring && !c.confirmed)
  }

  lemma ConfirmOnTheWay(b: Broker, save: Save, k: Key, from: int, sent: Sent, seqNo: int)
    ensures Underway(b, k, from, sent) ==> Underway(Confirmed(b, save), k, from, sent)
    ensures Homeward(b, k, from, sent, seqNo) ==> Homeward(Confirmed(b, save), k, from, sent, seqNo)
    ensures Homeward(b, k, from, sent, seqNo) && ShowsRestored(b, k, from, sent, seqNo) && save.Done? ==>
      k !in Confirmed(b, save).pending
  {
  }

  lemma RevertElsewhere(b: Broker, e: Event, k: Key, from: int, sent: Sent, seqNo: int)
    requires e.RevertEnd? && e.key != k
    ensures Underway(b, k, from, sent) ==> Underway(Step(b, e).broker, k, from, sent)
    ensures Homeward(b, k, from, sent, seqNo) ==> Homeward(Step(b, e).broker, k, from, sent, seqNo)
  {
    if e.key in b.busy && b.busy[e.key] == Restoring {
      ConfirmOnTheWay(Rewritten(b, e.key, e.reply, e.now, e.save), e.second, k, from, sent, seqNo);
    }
  }

  lemma StayUnderway(b: Broker, e: Event, k: Key, from: int, sent: Sent)
    requires Underway(b, k, from, sent) && LeavesAlone(e, k)
    ensures Underway(Step(b, e).broker, k, from, sent)
  {
    match e
    case RevertEnd(_, _, _, _, _) => RevertElsewhere(b, e, k, from, sent, 0);
    case Confirm(save) => ConfirmOnTheWay(b, save, k, from, sent, 0);
    case _ =>
  }

  lemma StayHomeward(b: Broker, e: Event, k: Key, from: int, sent: Sent, seqNo: int)
    requires Homeward(b, k, from, sent, seqNo) && LeavesAlone(e, k)
    ensures Homeward(Step(b, e).broker, k, from, sent, seqNo)
  {
    match e
    case RevertEnd(_, _, _, _, _) => RevertElsewhere(b, e, k, from, sent, seqNo);
    case Confirm(save) => ConfirmOnTheWay(b, save, k, from, sent, seqNo);
    case _ =>
  }

  lemma {:induction false} UnderwayUntil(h: History, x: nat, i: nat, k: Key, from: int, sent: Sent)
    requires Happens(h) && x <= i < |h.states| && Underway(h.states[x], k, from, sent)
    requires forall m :: x <= m < i ==> LeavesAlone(h.events[m], k)
    ensures Underway(h.states[i], k, from, sent)
    decreases i
  {
    if i > x {
      UnderwayUntil(h, x, i - 1, k, from, sent);
      assert Follows(h, i - 1);
      StayUnderway(h.states[i - 1], h.events[i - 1], k, from, sent);
    }
  }

  lemma {:induction false} HomewardUntil(h: History, a: nat, i: nat, k: Key, from: int, sent: Sent, seqNo: int)
    requires Happens(h) && a <= i < |h.states| && Homeward(h.states[a], k, from, sent, seqNo)
    requires forall m :: a <= m < i ==> LeavesAlone(h.events[m], k)
    ensures Homeward(h.states[i], k, from, sent, seqNo)
    decreases i
  {
    if i > a {
      HomewardUntil(h, a, i - 1, k, from, sent, seqNo);
      assert Follows(h, i - 1);
      StayHomeward(h.states[i - 1], h.events[i - 1], k, from, sent, seqNo);
    }
  }

  /** The answer turns a restore that is under way into one whose number is known. */
  lemma AnswerTurns(b: Broker, e: Event, k: Key, from: int, sent: Sent, seqNo: int)
    requires Underway(b, k, from, sent) && e.RevertEnd? && e.key == k && e.reply == Some(seqNo)
    ensures Homeward(Step(b, e).broker, k, from, sent, seqNo)
    ensures ShowsRestored(b, k, from, sent, seqNo) && e.save.Done? && e.second.Done? ==> k !in Step(b, e).broker.pending
  {
    var written := Rewritten(b, k, e.reply, e.now, e.save);
    assert Homeward(written, k, from, sent, seqNo);
    ConfirmOnTheWay(written, e.second, k, from, sent, seqNo);
  }

  /** What a restore that event e sends from b is marked with. */
  function Dispatched(b: Broker, e: Event): Sent
    requires e.RevertStart?
  {
    Sent(e.now, e.boot, if e.key.uid in b.reports then b.reports[e.key.uid].generation else None)
  }

  /** The event compares what was asked for with the reports, and all it writes is written. */
  predicate Looks(e: Event) { e == Confirm(Done) || (e.RevertEnd? && e.save.Done? && e.second.Done?) }

  /**
   * And a restore resolves the change: sent by event x and answered by event a, it is gone after
   * event f, from a on, if that looks while the node's last report is of a node that has taken it.
   * The report may come before the answer or after it, saves before the last may fail, and
   * anything may happen in between but a start and further commands for k.
   */
  lemma RestoreResolves(h: History, x: nat, a: nat, f: nat, k: Key, from: int, seqNo: int)
    requires Happens(h) && x < a <= f < |h.events| && SendsBack(h, x, k, from) && AnsweredBy(h, a, k, Some(seqNo))
    requires forall m :: x < m < f && m != a ==> LeavesAlone(h.events[m], k)
    requires ShowsRestored(h.states[f], k, from, Dispatched(h.states[x], h.events[x]), seqNo)
    requires Looks(h.events[f]) && (f > a ==> h.events[f].Confirm?)
    ensures k !in h.states[f + 1].pending
  {
    var sent := Dispatched(h.states[x], h.events[x]);
    assert Follows(h, x) && Follows(h, a) && Follows(h, f);
    UnderwayUntil(h, x + 1, a, k, from, sent);
    AnswerTurns(h.states[a], h.events[a], k, from, sent, seqNo);
    if f > a {
      HomewardUntil(h, a + 1, f, k, from, sent, seqNo);
      ConfirmOnTheWay(h.states[f], Done, k, from, sent, seqNo);
    }
  }

  // ---- saving to flash ---------------------------------------------------------------------------------------

  /** While a node is being saved, none of its changes is in flight or on its way back. */
  ghost predicate Settled(b: Broker) {
    (forall k <- b.busy :: k in b.pending ==> k.uid !in b.persisting) &&
    (forall k <- b.pending :: b.pending[k].restoring ==> k.uid !in b.persisting)
  }

  lemma ConfirmSettles(b: Broker, save: Save)
    requires Settled(b)
    ensures Settled(Confirmed(b, save))
  {
  }

  lemma EndRevertSettles(b: Broker, k: Key, reply: Option<int>, now: int, save: Save, second: Save)
    requires Settled(b)
    ensures Settled(EndRevert(b, k, reply, now, save, second))
  {
    if k in b.busy && b.busy[k] == Restoring {
      ConfirmSettles(Rewritten(b, k, reply, now, save), second);
    }
  }

  lemma EndPersistSettles(b: Broker, uid: int, ok: bool, save: Save)
    requires Settled(b)
    ensures Settled(EndPersist(b, uid, ok, save))
  {
  }

  lemma DispatchSettles(b: Broker, e: Event)
    requires Settled(b) && (e.ApplyStart? || e.ApplyEnd? || e.RevertStart?)
    ensures Settled(Step(b, e).broker)
  {
  }

  lemma QuietSettles(b: Broker, e: Event)
    requires Settled(b) && (e.Reported? || e.Commit? || e.PersistStart? || e.Restart?)
    ensures Settled(Step(b, e).broker)
  {
  }

  lemma StepSettles(b: Broker, e: Event)
    requires Settled(b)
    ensures Settled(Step(b, e).broker)
  {
    var after := Step(b, e).broker;
    assert Settled(after) by {
      match e
      case RevertEnd(k, reply, now, save, second) => EndRevertSettles(b, k, reply, now, save, second);
      case Confirm(save) => ConfirmSettles(b, save);
      case PersistEnd(uid, ok, save) => EndPersistSettles(b, uid, ok, save);
      case ApplyStart(_, _, _, _, _, _) => DispatchSettles(b, e);
      case ApplyEnd(_, _, _) => DispatchSettles(b, e);
      case RevertStart(_, _, _) => DispatchSettles(b, e);
      case _ => QuietSettles(b, e);
    }
  }

  lemma NextSettles(h: History, i: nat)
    requires Happens(h) && i < |h.events| && Settled(h.states[i])
    ensures Settled(h.states[i + 1])
  {
    assert Follows(h, i);
    StepSettles(h.states[i], h.events[i]);
  }

  /** Saving to flash therefore only ever takes changes that are at rest. */
  lemma {:induction false} FlashTakesSettled(h: History, i: nat)
    requires Happens(h) && i < |h.states|
    ensures Settled(h.states[i])
  {
    if i > 0 {
      FlashTakesSettled(h, i - 1);
      NextSettles(h, i - 1);
    }
  }

  // ---- can the journal be read again --------------------------------------------------------------------------

  /** The values to return to are ones the constructor takes. */
  ghost predicate Sound(changes: map<Key, Change>) {
    forall k <- changes :: Known(k.param) && InLimits(k.param, changes[k].from)
  }

  ghost predicate AllSound(b: Broker) {
    Sound(b.pending) && Sound(b.file) &&
    forall u, p :: u in b.reports && Known(p) && p in b.reports[u].values ==> InLimits(p, b.reports[u].values[p])
  }

  ghost predicate ReportsInLimits(e: Event) {
    e.Reported? ==> forall p <- e.report.values :: Known(p) ==> InLimits(p, e.report.values[p])
  }

  lemma ConfirmSound(b: Broker, save: Save)
    requires AllSound(b)
    ensures AllSound(Confirmed(b, save))
  {
  }

  lemma EndRevertSound(b: Broker, k: Key, reply: Option<int>, now: int, save: Save, second: Save)
    requires AllSound(b)
    ensures AllSound(EndRevert(b, k, reply, now, save, second))
  {
    if k in b.busy && b.busy[k] == Restoring {
      ConfirmSound(Rewritten(b, k, reply, now, save), second);
    }
  }

  lemma StartApplySound(b: Broker, k: Key, value: int, now: int, boot: Option<int>, save: Save, again: Save)
    requires AllSound(b)
    ensures AllSound(StartApply(b, k, value, now, boot, save, again).broker)
  {
  }

  lemma EndPersistSound(b: Broker, uid: int, ok: bool, save: Save)
    requires AllSound(b)
    ensures AllSound(EndPersist(b, uid, ok, save))
  {
  }

  lemma ReportSound(b: Broker, uid: int, report: Report)
    requires AllSound(b) && forall p <- report.values :: Known(p) ==> InLimits(p, report.values[p])
    ensures AllSound(b.(reports := b.reports[uid := report]))
  {
  }

  lemma CommandSound(b: Broker, k: Key, reply: Option<int>, now: int, boot: Option<int>)
    requires AllSound(b)
    ensures AllSound(EndApply(b, k, reply, now)) && AllSound(StartRevert(b, k, now, boot).broker)
  {
  }

  lemma RestSound(b: Broker, k: Key, save: Save, uid: int, now: int, bytes: nat)
    requires AllSound(b)
    ensures AllSound(Committed(b, k, save)) && AllSound(StartPersist(b, uid)) && AllSound(Restarted(b, now, bytes))
  {
  }

  lemma StepSound(b: Broker, e: Event)
    requires AllSound(b) && ReportsInLimits(e)
    ensures AllSound(Step(b, e).broker)
  {
    match e
    case ApplyStart(k, value, now, boot, save, again) => StartApplySound(b, k, value, now, boot, save, again);
    case RevertEnd(k, reply, now, save, second) => EndRevertSound(b, k, reply, now, save, second);
    case ApplyEnd(k, reply, now) => CommandSound(b, k, reply, now, None);
    case RevertStart(k, now, boot) => CommandSound(b, k, None, now, boot);
    case Confirm(save) => ConfirmSound(b, save);
    case Reported(uid, report) => ReportSound(b, uid, report);
    case PersistEnd(uid, ok, save) => EndPersistSound(b, uid, ok, save);
    case Commit(k, save) => RestSound(b, k, save, 0, 0, 0);
    case PersistStart(uid) => RestSound(b, Key(0, 0), Done, uid, 0, 0);
    case Restart(now, bytes) => RestSound(b, Key(0, 0), Done, 0, now, bytes);
  }

  lemma NextSound(h: History, i: nat)
    requires Happens(h) && i < |h.events| && AllSound(h.states[i]) && ReportsInLimits(h.events[i])
    ensures AllSound(h.states[i + 1])
  {
    assert Follows(h, i);
    StepSound(h.states[i], h.events[i]);
  }

  /** Nodes that report values within the limits leave a journal the next start takes, if it is not too large. */
  lemma {:induction false} JournalStarts(h: History, i: nat, bytes: nat)
    requires Happens(h) && i < |h.states| && forall j :: 0 <= j < |h.events| ==> ReportsInLimits(h.events[j])
    ensures AllSound(h.states[i])
    ensures Readable(h.states[i].file, bytes) <==> |h.states[i].file| <= MAX_ENTRIES && bytes <= MAX_BYTES
  {
    if i > 0 {
      JournalStarts(h, i - 1, bytes);
      NextSound(h, i - 1);
    }
  }

  lemma AddedReadable(pending: map<Key, Change>, k: Key, c: Change, bytes: nat)
    requires Sound(pending) && Known(k.param)
    ensures Readable(pending[k := c], bytes) <==>
      InLimits(k.param, c.from) && |pending.Keys + {k}| <= MAX_ENTRIES && bytes <= MAX_BYTES
  {
    assert k in pending[k := c];
    assert pending[k := c].Keys == pending.Keys + {k};
    assert |pending[k := c]| == |pending[k := c].Keys|;
  }

  /**
   * Reports are not checked: one value out of range, once tuned, makes a journal no start takes.
   * A change whose save failed leaves the journal it found, or the one with the change taken out.
   */
  lemma StartsAgainIff(b: Broker, k: Key, value: int, now: int, boot: Option<int>, save: Save, again: Save, bytes: nat)
    requires MayApply(b, k, value) && Sound(b.pending)
    ensures var file := StartApply(b, k, value, now, boot, save, again).broker.file;
      if save.Done? || (save.Doubtful? && again.Failed?) then
        Readable(file, bytes) <==>
          (k !in b.pending ==> InLimits(k.param, b.reports[k.uid].values[k.param])) &&
          |b.pending.Keys + {k}| <= MAX_ENTRIES && bytes <= MAX_BYTES
      else file == if again.Failed? then b.file else b.pending
  {
    AddedReadable(b.pending, k, NewChange(b, k, value, now, boot), bytes);
  }

  /** The run tunes k once, and leaves a journal that no start takes, however short its text. */
  ghost predicate Unstartable(h: History, k: Key) {
    Happens(h) && |h.events| == 2 && Uncommitted(h, 0, k) && Writes(h, 1, k) &&
    forall bytes: nat :: !Readable(h.states[2].file, bytes)
  }

  /** One such run: a node reports 5 for a setting that starts at 10, and the setting is changed to 100. */
  lemma OddReportStopsStart()
    ensures exists h, k :: Unstartable(h, k)
  {
    var k := Key(1, 0);
    var report := Report(map[0 := 5], 0, None, 0, 0);
    var e0, e1 := Reported(1, report), ApplyStart(k, 100, 0, None, Done, Done);
    var b1 := EMPTY.(reports := map[1 := report]);
    var h := History([EMPTY, b1, Step(b1, e1).broker], [e0, e1]);
    assert EMPTY.reports[1 := report] == map[1 := report];
    assert Follows(h, 0) && Follows(h, 1);
    StartsNever(b1, k, 100, 0);
    assert Unstartable(h, k);
  }

  lemma StartsNever(b: Broker, k: Key, value: int, now: int)
    requires MayApply(b, k, value) && Sound(b.pending) && k !in b.pending &&
      !InLimits(k.param, b.reports[k.uid].values[k.param])
    ensures forall bytes: nat :: !Readable(StartApply(b, k, value, now, None, Done, Done).broker.file, bytes)
  {
    forall bytes: nat ensures !Readable(StartApply(b, k, value, now, None, Done, Done).broker.file, bytes) {
      StartsAgainIff(b, k, value, now, None, Done, Done, bytes);
    }
  }
}

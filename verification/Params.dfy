/**
 * Recoverable writes of device parameters (src/algo/params.ts). A write is a command that may be
 * lost; until it is committed, saved to flash or taken back, the journal holds the value to
 * return to. Every await splits a call into a start and an end.
 */
module Params {
  import opened Wrappers

  const REVERT_MS := 900_000
  const RETRY_MS := 5_000
  const MAX_ENTRIES := 50_000
  const MAX_BYTES := 8 * 1024 * 1024

  /** A parameter of a node: the node's number and the parameter's place in the wire order. */
  datatype Key = Key(uid: int, param: int)

  predicate Known(param: int) { 0 <= param < 10 }

  /** What the firmware takes for each parameter. */
  predicate InLimits(param: int, v: int) {
    if param == 0 then 10 <= v <= 2000
    else if param == 1 then 10 <= v <= 3000
    else if param == 2 then 10 <= v <= 200
    else if param == 3 then 1 <= v <= 200
    else if param == 4 then 1 <= v <= 768
    else if param == 5 then 5 <= v <= 20000
    else if param == 6 then 3 <= v <= 600
    else if param == 7 then 0 <= v <= 3600
    else if param == 8 then 1 <= v <= 5
    else param == 9 && 5 <= v <= 100
  }

  /** When a command went out, and what the node's last report looked like then. */
  datatype Sent = Sent(at: int, boot: Option<int>, generation: Option<int>)

  datatype Change = Change(from: int, to: int, revertAt: int, confirmed: bool, cmdSeq: Option<int>, restoring: bool,
    sent: Sent)

  datatype Report = Report(values: map<int, int>, lastCmd: int, generation: Option<int>, receivedAt: int, boot: int)

  datatype Task = Applying | Restoring

  datatype Broker = Broker(
    pending: map<Key, Change>, busy: map<Key, Task>, persisting: set<int>,
    file: map<Key, Change>, reports: map<int, Report>)

  const EMPTY := Broker(map[], map[], {}, map[], map[])

  /** A save: done; failed before the file was replaced; or replaced but reported as failed. */
  datatype Save = Done | Failed | Doubtful

  datatype Event =
    | ApplyStart(key: Key, value: int, now: int, boot: Option<int>, save: Save, again: Save)
    | ApplyEnd(key: Key, reply: Option<int>, now: int)
    | RevertStart(key: Key, now: int, boot: Option<int>)
    | RevertEnd(key: Key, reply: Option<int>, now: int, save: Save, second: Save)
    | Confirm(save: Save)
    | Reported(uid: int, report: Report)
    | Commit(key: Key, save: Save)
    | PersistStart(uid: int)
    | PersistEnd(uid: int, ok: bool, save: Save)
    | Restart(now: int, bytes: nat)  // the length of the journal's text

  /** The state after a step and the value a command was sent with, if one was. */
  datatype Outcome = Outcome(broker: Broker, command: Option<int>)

  function Write(file: map<Key, Change>, pending: map<Key, Change>, save: Save): map<Key, Change> {
    if save.Failed? then file else pending
  }

  // ---- applying ---------------------------------------------------------------------------------

  predicate MayApply(b: Broker, k: Key, value: int) {
    k.uid !in b.persisting && Known(k.param) && InLimits(k.param, value) &&
    k.uid in b.reports && k.param in b.reports[k.uid].values && k !in b.busy
  }

  function NewChange(b: Broker, k: Key, value: int, now: int, boot: Option<int>): Change
    requires k.uid in b.reports && k.param in b.reports[k.uid].values
  {
    var from := if k in b.pending then b.pending[k].from else b.reports[k.uid].values[k.param];
    Change(from, value, now + REVERT_MS, false, None, false, Sent(now, boot, b.reports[k.uid].generation))
  }

  /** Journal first, then send; a journal that fails puts everything back. */
  function StartApply(b: Broker, k: Key, value: int, now: int, boot: Option<int>, save: Save, again: Save): Outcome {
    if !MayApply(b, k, value) then Outcome(b, None)
    else
      var pending := b.pending[k := NewChange(b, k, value, now, boot)];
      if save.Done? then Outcome(b.(pending := pending, file := pending, busy := b.busy[k := Applying]), Some(value))
      else Outcome(b.(file := Write(Write(b.file, pending, save), b.pending, again)), None)
  }

  function EndApply(b: Broker, k: Key, reply: Option<int>, now: int): Broker {
    if k !in b.busy || b.busy[k] != Applying || k !in b.pending then b
    else
      var c := b.pending[k];
      b.(busy := b.busy - {k},
         pending := b.pending[k := if reply.Some? then c.(cmdSeq := reply) else c.(revertAt := now + RETRY_MS)])
  }

  // ---- reverting --------------------------------------------------------------------------------

  function StartRevert(b: Broker, k: Key, now: int, boot: Option<int>): Outcome {
    if k !in b.pending || k in b.busy || k.uid in b.persisting then Outcome(b, None)
    else
      var generation := if k.uid in b.reports then b.reports[k.uid].generation else None;
      Outcome(b.(pending := b.pending[k := b.pending[k].(sent := Sent(now, boot, generation))],
        busy := b.busy[k := Restoring]),
              Some(b.pending[k].from))
  }

  /** The restore was sent: from here on the value asked for is the one to return to. */
  function Returning(c: Change, seqNo: Option<int>, now: int): Change {
    c.(cmdSeq := seqNo, restoring := true, to := c.from, confirmed := false, revertAt := now + RETRY_MS)
  }

  function Answered(c: Change, reply: Option<int>, now: int): Change {
    if reply.Some? then Returning(c, reply, now) else c.(revertAt := now + RETRY_MS)
  }

  /** The change after the answer, in memory and, as far as the save went, in the journal. */
  function Rewritten(b: Broker, k: Key, reply: Option<int>, now: int, save: Save): Broker {
    var pending := if k !in b.pending then b.pending else b.pending[k := Answered(b.pending[k], reply, now)];
    b.(pending := pending, busy := b.busy - {k}, file := Write(b.file, pending, save))
  }

  function EndRevert(b: Broker, k: Key, reply: Option<int>, now: int, save: Save, second: Save): Broker {
    if k !in b.busy || b.busy[k] != Restoring then b
    else
      var written := Rewritten(b, k, reply, now, save);
      if reply.Some? && save.Done? then Confirmed(written, second) else written
  }

  // ---- confirming -------------------------------------------------------------------------------

  /** The report shows the value asked for and has seen a command at least as new. */
  predicate Landed(c: Change, param: int, r: Report) {
    !c.confirmed &&
    (c.sent.generation.Some? ==> (if r.generation.Some? then r.generation.value else 0) > c.sent.generation.value) &&
    r.receivedAt >= c.sent.at && (c.sent.boot.Some? ==> r.boot == c.sent.boot.value) &&
    c.cmdSeq.Some? && r.lastCmd >= c.cmdSeq.value && param in r.values && r.values[param] == c.to
  }

  predicate Lands(b: Broker, k: Key) {
    k in b.pending && k.uid in b.reports && Landed(b.pending[k], k.param, b.reports[k.uid])
  }

  predicate Restored(b: Broker, k: Key) { Lands(b, k) && b.pending[k].restoring }

  function Marked(b: Broker, k: Key): Change
    requires k in b.pending
  {
    if Lands(b, k) && !b.pending[k].restoring then b.pending[k].(confirmed := true) else b.pending[k]
  }

  function AllMarked(b: Broker): map<Key, Change> { map k | k in b.pending :: Marked(b, k) }

  function Unrestored(b: Broker): map<Key, Change> { map k | k in b.pending && !Restored(b, k) :: Marked(b, k) }

  /** What has landed is marked; what has been restored is dropped once that is on disk. */
  function Confirmed(b: Broker, save: Save): Broker {
    if forall k <- b.pending :: !Restored(b, k) then b.(pending := AllMarked(b))
    else if save.Done? then b.(pending := Unrestored(b), file := Unrestored(b))
    else b.(pending := AllMarked(b), file := Write(b.file, Unrestored(b), save))
  }

  // ---- committing, saving to flash, starting again ----------------------------------------------

  function Committed(b: Broker, k: Key, save: Save): Broker {
    if k in b.busy || k !in b.pending then b
    else
      var left := b.pending - {k};
      if save.Done? then b.(pending := left, file := left) else b.(file := Write(b.file, left, save))
  }

  function StartPersist(b: Broker, uid: int): Broker {
    if uid in b.persisting ||
       exists k :: k in b.pending && k.uid == uid && (k in b.busy || b.pending[k].restoring) then b
    else b.(persisting := b.persisting + {uid})
  }

  function Others(pending: map<Key, Change>, uid: int): map<Key, Change> {
    map k | k in pending && k.uid != uid :: pending[k]
  }

  function EndPersist(b: Broker, uid: int, ok: bool, save: Save): Broker {
    if uid !in b.persisting then b
    else
      var rest := b.(persisting := b.persisting - {uid});
      var left := Others(b.pending, uid);
      if !ok then rest
      else if save.Done? then rest.(pending := left, file := left)
      else rest.(file := Write(b.file, left, save))
  }

  /** What the constructor asks of the journal it finds. */
  predicate Readable(file: map<Key, Change>, bytes: nat) {
    bytes <= MAX_BYTES && |file| <= MAX_ENTRIES && forall k <- file :: Known(k.param) && InLimits(k.param, file[k].from)
  }

  function Restarted(b: Broker, now: int, bytes: nat): Broker {
    if !Readable(b.file, bytes) then b
    else Broker(map k | k in b.file :: b.file[k].(revertAt := now), map[], {}, b.file, map[])
  }

  function Step(b: Broker, e: Event): Outcome {
    match e
    case ApplyStart(k, value, now, boot, save, again) => StartApply(b, k, value, now, boot, save, again)
    case ApplyEnd(k, reply, now) => Outcome(EndApply(b, k, reply, now), None)
    case RevertStart(k, now, boot) => StartRevert(b, k, now, boot)
    case RevertEnd(k, reply, now, save, second) => Outcome(EndRevert(b, k, reply, now, save, second), None)
    case Confirm(save) => Outcome(Confirmed(b, save), None)
    case Reported(uid, report) => Outcome(b.(reports := b.reports[uid := report]), None)
    case Commit(k, save) => Outcome(Committed(b, k, save), None)
    case PersistStart(uid) => Outcome(StartPersist(b, uid), None)
    case PersistEnd(uid, ok, save) => Outcome(EndPersist(b, uid, ok, save), None)
    case Restart(now, bytes) => Outcome(Restarted(b, now, bytes), None)
  }

  // ---- histories --------------------------------------------------------------------------------

  /** A run: the states it passes through and the events between them. */
  datatype History = History(states: seq<Broker>, events: seq<Event>)

  ghost predicate Follows(h: History, i: nat)
    requires i < |h.events| && |h.states| == |h.events| + 1
  {
    h.states[i + 1] == Step(h.states[i], h.events[i]).broker
  }

  /** From a first start, each state follows from the one before. */
  ghost predicate Happens(h: History) {
    |h.states| == |h.events| + 1 && h.states[0] == EMPTY && forall i: nat {:trigger Follows(h, i)} :: i < |h.events| ==>
      Follows(h, i)
  }

  // ---- the value to return to ---------------------------------------------------------------------

  /** The step neither commits the change nor saves its node to flash. */
  predicate LetsBe(e: Event, k: Key) {
    !(e.Commit? && e.key == k) && !(e.PersistEnd? && e.uid == k.uid)
  }

  predicate SameFrom(a: map<Key, Change>, b: map<Key, Change>, k: Key) { k in a && k in b && a[k].from == b[k].from }

  /** A restore asks for the value to return to. */
  predicate Aimed(changes: map<Key, Change>, k: Key) {
    k in changes && changes[k].restoring ==> changes[k].to == changes[k].from
  }

  /**
   * A change in memory is in the journal with the same way back; only one whose restore has
   * landed can be missing there.
   */
  predicate Journalled(b: Broker, k: Key) {
    Aimed(b.pending, k) && Aimed(b.file, k) &&
    (k in b.pending ==> SameFrom(b.file, b.pending, k) || (k !in b.file && b.pending[k].restoring))
  }

  /** The node's last report shows the value the change is to return to. */
  predicate ShowsFrom(b: Broker, k: Key)
    requires k in b.pending
  {
    k.uid in b.reports && k.param in b.reports[k.uid].values && b.reports[k.uid].values[k.param] == b.pending[k].from
  }

  /** What the event checks against the reports, if it comes to that. */
  function Checked(b: Broker, e: Event): Option<Broker> {
    match e
    case Confirm(_) => Some(b)
    case RevertEnd(k, reply, now, save, _) =>
      if k in b.busy && b.busy[k] == Restoring && reply.Some? && save.Done?
      then Some(Rewritten(b, k, reply, now, save)) else None
    case _ => None
  }

  /** An answered restore of k to `from` is found to have landed: a report newer than it shows the value. */
  predicate LandsBack(b: Broker, e: Event, k: Key, from: int) {
    var c := Checked(b, e);
    c.Some? && Restored(c.value, k) && c.value.pending[k].from == from && ShowsFrom(c.value, k)
  }

  /** How one step may treat the change of k: it goes only when its restore is found to have landed. */
  predicate Kept(b: Broker, e: Event, after: Broker, k: Key)
    requires k in b.pending
  {
    Journalled(after, k) &&
    (k in after.pending ==> after.pending[k].from == b.pending[k].from) &&
    (k !in after.pending ==> LandsBack(b, e, k, b.pending[k].from)) &&
    (k in b.file && k !in after.file ==> LandsBack(b, e, k, b.pending[k].from))
  }

  lemma ConfirmKeeps(b: Broker, save: Save, k: Key)
    requires Journalled(b, k) && k in b.pending
    ensures Journalled(Confirmed(b, save), k)
    ensures k in Confirmed(b, save).pending ==> Confirmed(b, save).pending[k].from == b.pending[k].from
    ensures k !in Confirmed(b, save).pending ==> Restored(b, k) && ShowsFrom(b, k)
    ensures k in b.file && k !in Confirmed(b, save).file ==> Restored(b, k) && ShowsFrom(b, k)
  {
  }

  lemma RewriteKeeps(b: Broker, k: Key, reply: Option<int>, now: int, save: Save, j: Key)
    requires Journalled(b, j) && j in b.pending
    ensures var written := Rewritten(b, k, reply, now, save);
      Journalled(written, j) && j in written.pending && written.pending[j].from == b.pending[j].from &&
      (j in b.file ==> j in written.file)
  {
  }

  lemma EndRevertKeeps(b: Broker, k: Key, reply: Option<int>, now: int, save: Save, second: Save, j: Key)
    requires Journalled(b, j) && j in b.pending
    ensures Kept(b, RevertEnd(k, reply, now, save, second), EndRevert(b, k, reply, now, save, second), j)
  {
    if k in b.busy && b.busy[k] == Restoring {
      RewriteKeeps(b, k, reply, now, save, j);
      ConfirmKeeps(Rewritten(b, k, reply, now, save), second, j);
    }
  }

  lemma StartApplyKeeps(b: Broker, k: Key, value: int, now: int, boot: Option<int>, save: Save, again: Save, j: Key)
    requires Journalled(b, j)
    ensures Journalled(StartApply(b, k, value, now, boot, save, again).broker, j)
    ensures j in b.pending ==>
      Kept(b, ApplyStart(k, value, now, boot, save, again), StartApply(b, k, value, now, boot, save, again).broker, j)
  {
  }

  lemma EndPersistKeeps(b: Broker, uid: int, ok: bool, save: Save, j: Key)
    requires Journalled(b, j) && j.uid != uid
    ensures Journalled(EndPersist(b, uid, ok, save), j)
    ensures j in b.pending ==> Kept(b, PersistEnd(uid, ok, save), EndPersist(b, uid, ok, save), j)
  {
  }

  /** What a step may leave of the change of k: a start takes it from the journal, any other step keeps it. */
  predicate StepKept(b: Broker, e: Event, after: Broker, k: Key)
    requires k in b.pending
  {
    Journalled(after, k) &&
    if e.Restart? then k in b.file ==> SameFrom(b.pending, after.pending, k) else Kept(b, e, after, k)
  }

  lemma DispatchKeeps(b: Broker, e: Event, k: Key)
    requires Journalled(b, k) && k in b.pending && (e.ApplyEnd? || e.RevertStart?)
    ensures StepKept(b, e, Step(b, e).broker, k)
  {
  }

  lemma QuietKeeps(b: Broker, e: Event, k: Key)
    requires Journalled(b, k) && LetsBe(e, k) && k in b.pending &&
      (e.Reported? || e.Commit? || e.PersistStart? || e.Restart?)
    ensures StepKept(b, e, Step(b, e).broker, k)
  {
  }

  /**
   * Any step that neither commits k nor saves its node: the way back stays as it was, in memory
   * and in the journal, until a report newer than an answered restore shows the value; a start
   * after a crash loses a change only if its removal was already on disk.
   */
  lemma StepKeeps(b: Broker, e: Event, k: Key)
    requires Journalled(b, k) && LetsBe(e, k) && k in b.pending
    ensures StepKept(b, e, Step(b, e).broker, k)
  {
    var after := Step(b, e).broker;
    assert StepKept(b, e, after, k) by {
      match e
      case ApplyStart(j, value, now, boot, save, again) => StartApplyKeeps(b, j, value, now, boot, save, again, k);
      case RevertEnd(j, reply, now, save, second) => EndRevertKeeps(b, j, reply, now, save, second, k);
      case Confirm(save) => ConfirmKeeps(b, save, k);
      case PersistEnd(uid, ok, save) => EndPersistKeeps(b, uid, ok, save, k);
      case ApplyEnd(_, _, _) => DispatchKeeps(b, e, k);
      case RevertStart(_, _, _) => DispatchKeeps(b, e, k);
      case _ => QuietKeeps(b, e, k);
    }
  }
}

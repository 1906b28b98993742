/**
 * What the check at admission (src/edge/ingest.ts:312-338) promises by itself: it looks only at
 * memory, and memory knows every acceptance, also after a write has failed.
 */
module AdmissionSafety {
  import opened Wrappers
  import opened Journal
  import opened Replay
  import opened Ingest
  import opened IngestSafety

  ghost predicate KnownIn(cursors: map<Uid, Cursor>, last: Option<Cursor>, uid: Uid) {
    last.Some? ==> uid in cursors && !Newer(last.value, cursors[uid])
  }

  /** While the edge is up its saved cursors are at least what was last accepted from each node. */
  ghost predicate Remembers(e: Edge) { e.up ==> forall uid :: KnownIn(e.store.cursors, Last(e.log, uid), uid) }

  lemma FinishRemembers(e: Edge, i: nat, open: bool)
    requires Safe(e) && Remembers(e) && Enabled(e, Finish(i, open))
    ensures Remembers(Step(e, Finish(i, open)))
  {
    var job := e.adm.jobs[i];
    assert JobSafe(e, job);
    forall uid ensures KnownIn(e.store.cursors, Last(AfterFinish(e, i, open).log, uid), uid) {
      LastSnoc(e.log, Accept(job.packet.uid, job.packet.cursor), uid);
    }
  }

  lemma SyncRemembers(e: Edge, ok: bool)
    requires Safe(e) && Remembers(e) && Enabled(e, SyncDone(ok))
    ensures Remembers(Step(e, SyncDone(ok)))
  {
    var n := Step(e, SyncDone(ok));
    forall uid ensures KnownIn(n.store.cursors, Last(n.log, uid), uid) {
      assert KnownIn(e.store.cursors, Last(e.log, uid), uid);
      if uid in e.store.cursors { CursorsRise(e, uid); }
    }
  }

  lemma CommandRemembers(e: Edge, seconds: int, env: Env)
    requires Remembers(e) && Enabled(e, Allocate(seconds, env))
    ensures Remembers(Step(e, Allocate(seconds, env)))
  {
    var n := Step(e, Allocate(seconds, env));
    SameLast(e.log, Max(seconds, e.adm.lastCommandSeq + 1));
    forall uid
      ensures KnownIn(n.store.cursors, Last(n.log, uid), uid)
    {
      assert KnownIn(e.store.cursors, Last(e.log, uid), uid);
    }
  }

  lemma ResetRemembers(e: Edge, uid: Uid, env: Env)
    requires Remembers(e) && Enabled(e, ResetCursor(uid, env))
    ensures Remembers(Step(e, ResetCursor(uid, env)))
  {
    var n := Step(e, ResetCursor(uid, env));
    forall u ensures KnownIn(n.store.cursors, Last(n.log, u), u) {
      assert KnownIn(e.store.cursors, Last(e.log, u), u);
      LastSnoc(e.log, Forgot(uid), u);
    }
  }

  lemma RestartRemembers(e: Edge, kept: nat, torn: bool, order: seq<Uid>, checkpointOk: bool)
    requires Safe(e) && Enabled(e, Restart(kept, torn, order, checkpointOk))
    ensures Remembers(Step(e, Restart(kept, torn, order, checkpointOk)))
  {
    assert Covers(After(e.disk, kept), e.log);
  }

  lemma StepRemembers(e: Edge, a: Action)
    requires Safe(e) && Remembers(e) && Enabled(e, a)
    ensures Remembers(Step(e, a))
  {
    match a
    case SyncDone(ok) => SyncRemembers(e, ok);
    case Finish(i, open) => FinishRemembers(e, i, open);
    case Allocate(seconds, env) => CommandRemembers(e, seconds, env);
    case ResetCursor(uid, env) => ResetRemembers(e, uid, env);
    case Restart(kept, torn, order, ok) => RestartRemembers(e, kept, torn, order, ok);
    case _ =>
  }

  lemma {:induction false} RunRemembers(states: seq<Edge>, actions: seq<Action>, i: nat)
    requires Run(states, actions) && i < |states|
    ensures Safe(states[i]) && Remembers(states[i])
  {
    Reachable(states, actions, i);
    if i > 0 {
      RunRemembers(states, actions, i - 1);
      StepRemembers(states[i - 1], actions[i - 1]);
    }
  }

  /**
   * In every state of every run, latched stores included, a packet passes admission only if it is
   * newer than everything accepted from its node since its cursor was last reset.
   */
  lemma AdmittedIsNewer(states: seq<Edge>, actions: seq<Action>, i: nat, job: nat, refuses: bool)
    requires Run(states, actions) && i < |states| && Enabled(states[i], Admit(job, refuses))
    requires Admissible(states[i].adm, states[i].store, states[i].adm.jobs[job].packet, refuses)
    ensures var p := states[i].adm.jobs[job].packet; Older(Last(states[i].log, p.uid), p.cursor)
  {
    RunRemembers(states, actions, i);
    var p := states[i].adm.jobs[job].packet;
    assert KnownIn(states[i].store.cursors, Last(states[i].log, p.uid), p.uid);
  }

  // ---- command numbers -------------------------------------------------------------------------------

  /** While the edge is up every number issued so far is at most the last one it used or saw. */
  ghost predicate KnowsIssued(e: Edge) {
    e.up ==> forall i :: 0 <= i < |e.log| && e.log[i].Issue? ==> e.log[i].num <= e.adm.lastCommandSeq
  }

  lemma IssueIsKnown(e: Edge, seconds: int, env: Env)
    requires KnowsIssued(e) && Enabled(e, Allocate(seconds, env)) && e.store.commandSeq <= e.adm.lastCommandSeq
    ensures KnowsIssued(Step(e, Allocate(seconds, env)))
  {
    AllocateIs(e, seconds, env);
  }

  lemma RestartKnows(e: Edge, kept: nat, torn: bool, order: seq<Uid>, checkpointOk: bool)
    requires Safe(e) && Enabled(e, Restart(kept, torn, order, checkpointOk))
    ensures KnowsIssued(Step(e, Restart(kept, torn, order, checkpointOk)))
  {
    assert Covers(After(e.disk, kept), e.log);
  }

  /** Any other step issues nothing, and takes no number back. */
  lemma OthersIssueNothing(e: Edge, a: Action)
    requires Enabled(e, a) && !a.Allocate? && !a.Restart? && e.up
    ensures var n := Step(e, a); n.up && e.adm.lastCommandSeq <= n.adm.lastCommandSeq
    ensures var n := Step(e, a); n.log == e.log || (|n.log| == |e.log| + 1 && e.log <= n.log && !n.log[|e.log|].Issue?)
  {
  }

  lemma StepKnowsIssued(e: Edge, a: Action)
    requires Safe(e) && KnowsIssued(e) && Enabled(e, a)
    ensures KnowsIssued(Step(e, a))
  {
    match a
    case Allocate(seconds, env) => IssueIsKnown(e, seconds, env);
    case Restart(kept, torn, order, ok) => RestartKnows(e, kept, torn, order, ok);
    case _ => OthersIssueNothing(e, a);
  }

  lemma {:induction false} RunKnowsIssued(states: seq<Edge>, actions: seq<Action>, i: nat)
    requires Run(states, actions) && i < |states|
    ensures Safe(states[i]) && KnowsIssued(states[i])
  {
    Reachable(states, actions, i);
    if i > 0 {
      RunKnowsIssued(states, actions, i - 1);
      StepKnowsIssued(states[i - 1], actions[i - 1]);
    }
  }

  /**
   * In every state of every run, latched stores included, an allocation would hand out a number
   * above all that were handed out before, or none.
   */
  lemma NextIsNewer(states: seq<Edge>, actions: seq<Action>, i: nat, seconds: int, env: Env)
    requires Run(states, actions) && i < |states| && Enabled(states[i], Allocate(seconds, env))
    ensures var e, n := states[i], Step(states[i], Allocate(seconds, env));
      n.log == e.log ||
      (n.log == e.log + [Issue(NextNumber(e, seconds))] && NextNumber(e, seconds) >= seconds &&
       forall j :: 0 <= j < |e.log| && e.log[j].Issue? ==> e.log[j].num < NextNumber(e, seconds))
  {
    RunKnowsIssued(states, actions, i);
    AllocateIs(states[i], seconds, env);
  }
}

/**
 * The other side of replay protection (src/edge/ingest.ts:312-440): what a healthy edge is bound to
 * let through.
 */
module Acceptance {
  import opened Wrappers
  import opened Journal
  import opened Replay
  import opened Ingest
  import opened IngestSafety

  /** Above the node's saved cursor as a pair, or from a node there is still room for. */
  ghost predicate Due(e: Edge, p: Packet) {
    (p.uid in e.store.cursors ==>
       e.store.cursors[p.uid].boot < p.cursor.boot ||
       (e.store.cursors[p.uid].boot == p.cursor.boot && e.store.cursors[p.uid].num < p.cursor.num)) &&
    (p.uid !in e.store.cursors ==> |e.store.cursors| + |e.adm.pendingNew| < 5000)
  }

  /** Links never lie above what is saved, so the saved cursors alone decide. */
  lemma DueIsAdmissible(e: Edge, p: Packet)
    requires Safe(e) && e.up
    ensures Admissible(e.adm, e.store, p, false) <==> Due(e, p)
  {
    AdmissibleIff(e.adm, e.store, p, false);
    assert |e.adm.links.Keys| <= |e.store.cursors.Keys| by { SetBound(e.adm.links.Keys, e.store.cursors.Keys); }
    assert |e.adm.links| == |e.adm.links.Keys| && |e.store.cursors| == |e.store.cursors.Keys|;
  }

  /** A packet that may go ahead: its node has no other in flight, and its fields are in range. */
  ghost predicate Free(e: Edge, p: Packet) {
    |e.adm.jobs| < 4096 && (forall k :: 0 <= k < |e.adm.jobs| ==> e.adm.jobs[k].packet.uid != p.uid) &&
    0 <= p.uid <= 0xffff_ffff_ffff && 0 <= p.cursor.boot <= 0xffff_ffff && 0 <= p.cursor.num <= 0xffff_ffff &&
    (p.lastCmd.Some? ==> 0 <= p.lastCmd.value <= 0xffff_ffff)
  }

  ghost predicate Healthy(e: Edge) { e.up && !e.store.failed && !e.store.flushing && e.store.queued < 10000 }

  /** After arrival and admission: the entry is the last one pending, the job writes. */
  lemma Queued(e: Edge, p: Packet) returns (a: Edge, n: Edge)
    requires Safe(e) && Healthy(e) && Free(e, p) && Due(e, p)
    ensures Leads(e, Arrive(p, false), a) && Leads(a, Admit(|e.adm.jobs|, false), n)
    ensures n.up && n.log == e.log && n.disk == e.disk && n.adm.jobs == e.adm.jobs + [Job(p, Writing)]
    ensures n.store == e.store.(pending := e.store.pending + [Pending(p.uid, p.cursor, p.lastCmd)],
                                queued := e.store.queued + 1)
  {
    a := Step(e, Arrive(p, false));
    assert a == e.(adm := e.adm.(jobs := e.adm.jobs + [Job(p, Waiting)]));
    DueIsAdmissible(e, p);
    AdmissibleIff(e.adm, e.store, p, false);
    AdmissibleIff(a.adm, a.store, p, false);
    n := Step(a, Admit(|e.adm.jobs|, false));
    assert a.adm.jobs[|e.adm.jobs| := Job(p, Writing)] == e.adm.jobs + [Job(p, Writing)];
  }

  /** A batch that is written: everything pending is in it, and no promise is rejected. */
  lemma Written(e: Edge, env: Env) returns (n: Edge)
    requires !e.store.failed && Enabled(e, Flush(env)) && env.checkpointOk && env.write.Synced?
    ensures Leads(e, Flush(env), n)
    ensures n.up && n.log == e.log && n.adm.jobs == e.adm.jobs && n.store.batch == e.store.pending
    ensures n.store.flushing && !n.store.failed
  {
    n := Step(e, Flush(env));
    assert Settle(e.adm.jobs, [], false) == e.adm.jobs;
  }

  /** A batch that is synced settles the packets in it, where they stand. */
  lemma Synced(e: Edge, i: nat) returns (n: Edge)
    requires e.up && e.store.flushing && !e.store.failed && i < |e.adm.jobs| && e.adm.jobs[i].phase.Writing?
    requires Writes(e.store.batch, e.adm.jobs[i].packet.uid)
    ensures Leads(e, SyncDone(true), n)
    ensures n.up && n.log == e.log && |n.adm.jobs| == |e.adm.jobs|
    ensures n.adm.jobs[i] == Job(e.adm.jobs[i].packet, Settled(true))
  {
    n := Step(e, SyncDone(true));
  }

  /**
   * In every state of every run: a packet above its node's saved cursor, or from a new node while
   * there is room, that meets no failure on its way is accepted, and it is the only thing that is.
   * Other nodes' packets may be in flight around it.
   */
  lemma NewerIsAccepted(states: seq<Edge>, actions: seq<Action>, s: nat, p: Packet, env: Env)
    returns (a: Edge, b: Edge, c: Edge, d: Edge, n: Edge)
    requires Run(states, actions) && s < |states| && Healthy(states[s]) && Free(states[s], p) && Due(states[s], p)
    requires Enumerates(env.order, states[s].store.cursors.Keys) && env.checkpointOk && env.write.Synced?
    ensures var i := |states[s].adm.jobs|;
      Leads(states[s], Arrive(p, false), a) && Leads(a, Admit(i, false), b) && Leads(b, Flush(env), c) &&
      Leads(c, SyncDone(true), d) && Leads(d, Finish(i, true), n)
    ensures n.log == states[s].log + [Accept(p.uid, p.cursor)]
    ensures p.uid in n.adm.links && n.adm.links[p.uid] == p.cursor
  {
    var e := states[s];
    Reachable(states, actions, s);
    a, b := Queued(e, p);
    c := Written(b, env);
    var i := |e.adm.jobs|;
    assert c.store.batch[|e.store.pending|].uid == p.uid;
    assert Writes(c.store.batch, p.uid);
    d := Synced(c, i);
    n := Step(d, Finish(i, true));
  }

  /** Any other packet is dropped at admission, and leaves no trace. */
  lemma OlderIsDropped(states: seq<Edge>, actions: seq<Action>, s: nat, p: Packet)
    requires Run(states, actions) && s < |states| && states[s].up && Free(states[s], p) && !Due(states[s], p)
    ensures exists a ::
      Leads(states[s], Arrive(p, false), a) && Leads(a, Admit(|states[s].adm.jobs|, false), states[s])
  {
    var e := states[s];
    Reachable(states, actions, s);
    DueIsAdmissible(e, p);
    var a := Step(e, Arrive(p, false));
    AdmissibleIff(e.adm, e.store, p, false);
    AdmissibleIff(a.adm, a.store, p, false);
    assert Drop(e.adm.jobs + [Job(p, Waiting)], |e.adm.jobs|) == e.adm.jobs;
    assert Leads(e, Arrive(p, false), a) && Leads(a, Admit(|e.adm.jobs|, false), e);
  }
}

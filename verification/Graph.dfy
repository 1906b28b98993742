/**
 * Pipeline graphs (src/algo/graph.ts): Kahn's execution order, and what a node depends on.
 * Ids are numbers standing for the strings of the program; 0 stands for the empty string.
 */
module Graph {
  import opened Wrappers

  type Id = int

  const EMPTY_ID: Id := 0

  datatype Edge = Edge(source: Id, target: Id)

  ghost predicate Distinct(s: seq<Id>) { forall i, j :: 0 <= i < j < |s| ==> s[i] != s[j] }

  ghost function SetOf(s: seq<Id>): set<Id> { set i | 0 <= i < |s| :: s[i] }

  /** A walk along the edges. */
  ghost predicate Walk(edges: seq<Edge>, p: seq<Id>) {
    |p| > 0 && forall j, k :: 0 <= j < k < |p| && k == j + 1 ==> Edge(p[j], p[k]) in edges
  }

  ghost predicate Reaches(edges: seq<Edge>, a: Id, b: Id) {
    exists p :: Walk(edges, p) && p[0] == a && p[|p| - 1] == b
  }

  ghost predicate HasCycle(edges: seq<Edge>) {
    exists p :: Walk(edges, p) && |p| > 1 && p[0] == p[|p| - 1]
  }

  lemma ConsWalk(edges: seq<Edge>, a: Id, p: seq<Id>)
    requires Walk(edges, p) && Edge(a, p[0]) in edges
    ensures Walk(edges, [a] + p)
  {
    var q := [a] + p;
    forall j, k | 0 <= j < k < |q| && k == j + 1 ensures Edge(q[j], q[k]) in edges {
      assert q[k] == p[j];
      if j > 0 { assert q[j] == p[j - 1]; }
    }
  }

  lemma SubWalk(edges: seq<Edge>, p: seq<Id>, i: nat, j: nat)
    requires Walk(edges, p) && i <= j < |p|
    ensures Walk(edges, p[i..j + 1])
  {
    var c := p[i..j + 1];
    forall a, b | 0 <= a < b < |c| && b == a + 1 ensures Edge(c[a], c[b]) in edges {
      assert c[a] == p[i + a] && c[b] == p[i + b];
    }
  }

  lemma InitWalk(edges: seq<Edge>, p: seq<Id>)
    requires Walk(edges, p) && |p| > 1
    ensures Walk(edges, p[..|p| - 1]) && p[..|p| - 1][0] == p[0] && p[..|p| - 1][|p| - 2] == p[|p| - 2]
  {
    SubWalk(edges, p, 0, |p| - 2);
    assert p[0..|p| - 1] == p[..|p| - 1];
  }

  lemma LastStep(edges: seq<Edge>, p: seq<Id>)
    requires Walk(edges, p) && |p| > 1
    ensures Edge(p[|p| - 2], p[|p| - 1]) in edges
  {
  }

  // ---- sets of a sequence ----------------------------------------------------------------

  lemma SetSnoc(s: seq<Id>, x: Id)
    ensures SetOf(s + [x]) == SetOf(s) + {x}
  {
    var t := s + [x];
    forall y | y in SetOf(s) ensures y in SetOf(t) {
      var i :| 0 <= i < |s| && s[i] == y;
      assert t[i] == y;
    }
    assert t[|s|] in SetOf(t);
  }

  lemma {:induction false} SetSize(s: seq<Id>)
    ensures |SetOf(s)| <= |s|
    ensures Distinct(s) <==> |SetOf(s)| == |s|
  {
    if s == [] {
      assert SetOf(s) == {};
    } else {
      var rest, x := s[..|s| - 1], s[|s| - 1];
      SetSize(rest);
      assert s == rest + [x];
      SetSnoc(rest, x);
      if x in SetOf(rest) {
        var i :| 0 <= i < |rest| && rest[i] == x;
        assert s[i] == s[|s| - 1];
      } else {
        assert forall i :: 0 <= i < |rest| ==> rest[i] in SetOf(rest);
        assert Distinct(rest) ==> Distinct(s);
      }
    }
  }

  lemma SubsetSize(a: set<Id>, b: set<Id>)
    requires a <= b
    ensures |a| <= |b| && (|a| == |b| ==> a == b)
  {
    assert b == a + (b - a);
  }

  // ---- counting edges --------------------------------------------------------------------------

  /** The edges both of whose ends are nodes. */
  function Known(edges: seq<Edge>, nodes: set<Id>): seq<Edge> {
    if edges == [] then []
    else
      var e := edges[|edges| - 1];
      Known(edges[..|edges| - 1], nodes) + (if e.source in nodes && e.target in nodes then [e] else [])
  }

  /** Edges into t whose source is not done yet. */
  ghost function InDegree(ks: seq<Edge>, t: Id, done: set<Id>): nat {
    if ks == [] then 0
    else
      var e := ks[|ks| - 1];
      InDegree(ks[..|ks| - 1], t, done) + (if e.target == t && e.source !in done then 1 else 0)
  }

  /** The targets of the edges out of id, in order. */
  function Targets(ks: seq<Edge>, id: Id): seq<Id> {
    if ks == [] then []
    else
      var e := ks[|ks| - 1];
      Targets(ks[..|ks| - 1], id) + (if e.source == id then [e.target] else [])
  }

  ghost function Occurs(s: seq<Id>, t: Id): nat {
    if s == [] then 0 else Occurs(s[..|s| - 1], t) + (if s[|s| - 1] == t then 1 else 0)
  }

  lemma OccursSnoc(s: seq<Id>, x: Id, t: Id)
    ensures Occurs(s + [x], t) == Occurs(s, t) + (if x == t then 1 else 0)
  {
    assert (s + [x])[..|s|] == s;
  }

  lemma {:induction false} OccursPrefix(s: seq<Id>, k: nat, t: Id)
    requires k <= |s|
    ensures Occurs(s[..k], t) <= Occurs(s, t)
    ensures k < |s| && s[k] == t ==> Occurs(s[..k], t) < Occurs(s, t)
    decreases |s|
  {
    if k < |s| {
      assert s[..|s| - 1][..k] == s[..k];
      OccursPrefix(s[..|s| - 1], k, t);
    } else {
      assert s[..k] == s;
    }
  }

  /** Doing one more node takes its edges out of the counts. */
  lemma {:induction false} DoneOne(ks: seq<Edge>, t: Id, done: set<Id>, id: Id)
    requires id !in done
    ensures InDegree(ks, t, done + {id}) + Occurs(Targets(ks, id), t) == InDegree(ks, t, done)
  {
    if ks != [] {
      DoneOne(ks[..|ks| - 1], t, done, id);
      var e, before := ks[|ks| - 1], Targets(ks[..|ks| - 1], id);
      OccursSnoc(before, e.target, t);
      assert Targets(ks, id) == if e.source == id then before + [e.target] else before;
    }
  }

  lemma {:induction false} DegreeZero(ks: seq<Edge>, t: Id, done: set<Id>)
    ensures InDegree(ks, t, done) == 0 <==> forall k :: 0 <= k < |ks| && ks[k].target == t ==> ks[k].source in done
  {
    if ks != [] {
      DegreeZero(ks[..|ks| - 1], t, done);
      assert forall k :: 0 <= k < |ks| - 1 ==> ks[..|ks| - 1][k] == ks[k];
    }
  }

  lemma {:induction false} KnownAre(edges: seq<Edge>, nodes: set<Id>)
    ensures forall e :: e in Known(edges, nodes) <==> e in edges && e.source in nodes && e.target in nodes
  {
    if edges != [] {
      KnownAre(edges[..|edges| - 1], nodes);
      assert edges == edges[..|edges| - 1] + [edges[|edges| - 1]];
    }
  }

  lemma {:induction false} TargetsAre(ks: seq<Edge>, id: Id)
    ensures forall k :: 0 <= k < |Targets(ks, id)| ==> Edge(id, Targets(ks, id)[k]) in ks
  {
    if ks != [] {
      TargetsAre(ks[..|ks| - 1], id);
      assert ks == ks[..|ks| - 1] + [ks[|ks| - 1]];
    }
  }

  // ---- Kahn's algorithm ---------------------------------------------------------------------------

  /** Every edge into a sorted node comes from an earlier one. */
  ghost predicate SourcesFirst(ks: seq<Edge>, sorted: seq<Id>) {
    forall e, j :: e in ks && 0 <= j < |sorted| && e.target == sorted[j] ==> e.source in sorted[..j]
  }

  ghost predicate Counting(ks: seq<Edge>, nodes: set<Id>, incoming: map<Id, int>, done: set<Id>) {
    incoming.Keys == nodes && forall t <- nodes :: incoming[t] == InDegree(ks, t, done)
  }

  ghost predicate Ready(nodes: set<Id>, incoming: map<Id, int>, done: set<Id>, ready: seq<Id>) {
    incoming.Keys == nodes && Distinct(ready) &&
    forall t :: t in ready <==> t in nodes && t !in done && incoming[t] == 0
  }

  /** A count of zero for every node. */
  method ZeroCounts(nodes: seq<Id>) returns (incoming: map<Id, int>)
    ensures incoming.Keys == SetOf(nodes) && forall t <- incoming :: incoming[t] == 0
  {
    incoming := map[];
    for i := 0 to |nodes|
      invariant incoming.Keys == SetOf(nodes[..i]) && forall t <- incoming :: incoming[t] == 0
    {
      assert nodes[..i + 1] == nodes[..i] + [nodes[i]];
      SetSnoc(nodes[..i], nodes[i]);
      incoming := incoming[nodes[i] := 0];
    }
    assert nodes[..|nodes|] == nodes;
  }

  function TargetsIn(out: map<Id, seq<Id>>, id: Id): seq<Id> { if id in out then out[id] else [] }

  /** The tables agree with the known edges read so far. */
  ghost predicate Tabled(ks: seq<Edge>, nodes: set<Id>, incoming: map<Id, int>, out: map<Id, seq<Id>>) {
    Counting(ks, nodes, incoming, {}) && forall id :: TargetsIn(out, id) == Targets(ks, id)
  }

  lemma DegreeSnoc(ks: seq<Edge>, e: Edge, t: Id, done: set<Id>)
    ensures InDegree(ks + [e], t, done) == InDegree(ks, t, done) + (if e.target == t && e.source !in done then 1 else 0)
  {
    assert (ks + [e])[..|ks|] == ks;
  }

  lemma TargetsSnoc(ks: seq<Edge>, e: Edge, id: Id)
    ensures Targets(ks + [e], id) == if e.source == id then Targets(ks, id) + [e.target] else Targets(ks, id)
  {
    assert (ks + [e])[..|ks|] == ks;
  }

  lemma TableOne(ks: seq<Edge>, nodes: set<Id>, incoming: map<Id, int>, out: map<Id, seq<Id>>, e: Edge)
    requires Tabled(ks, nodes, incoming, out) && e.source in nodes && e.target in nodes
    ensures Tabled(ks + [e], nodes, incoming[e.target := incoming[e.target] + 1],
                   out[e.source := TargetsIn(out, e.source) + [e.target]])
  {
    forall t: Id { DegreeSnoc(ks, e, t, {}); }
    forall id: Id { TargetsSnoc(ks, e, id); }
  }

  /** Initial counts: one per known edge, and the successor lists. */
  method CountEdges(nodes: seq<Id>, edges: seq<Edge>) returns (incoming: map<Id, int>, out: map<Id, seq<Id>>)
    ensures Tabled(Known(edges, SetOf(nodes)), SetOf(nodes), incoming, out)
  {
    ghost var all := SetOf(nodes);
    incoming := ZeroCounts(nodes);
    out := map[];
    for k := 0 to |edges|
      invariant Tabled(Known(edges[..k], all), all, incoming, out)
    {
      var e := edges[k];
      assert edges[..k + 1][..k] == edges[..k];
      if e.source !in incoming || e.target !in incoming {
        assert Known(edges[..k + 1], all) == Known(edges[..k], all);
        continue;
      }
      TableOne(Known(edges[..k], all), all, incoming, out, e);
      assert Known(edges[..k + 1], all) == Known(edges[..k], all) + [e];
      incoming := incoming[e.target := incoming[e.target] + 1];
      out := out[e.source := TargetsIn(out, e.source) + [e.target]];
    }
    assert edges[..|edges|] == edges;
  }

  /** The nodes nothing points at, in the order the nodes are listed. */
  method FirstReady(nodes: seq<Id>, incoming: map<Id, int>) returns (ready: seq<Id>)
    requires incoming.Keys == SetOf(nodes)
    ensures Ready(SetOf(nodes), incoming, {}, ready)
  {
    ready := [];
    for i := 0 to |nodes|
      invariant Distinct(ready)
      invariant forall t :: t in ready <==> t in SetOf(nodes[..i]) && incoming[t] == 0
    {
      assert nodes[..i + 1] == nodes[..i] + [nodes[i]];
      SetSnoc(nodes[..i], nodes[i]);
      assert nodes[i] in SetOf(nodes);
      if incoming[nodes[i]] == 0 && nodes[i] !in ready { ready := ready + [nodes[i]]; }
    }
    assert nodes[..|nodes|] == nodes;
  }

  /** The counts with the first k of the released edges taken out. */
  ghost predicate Releasing(ks: seq<Edge>, nodes: set<Id>, counts: map<Id, int>, done: set<Id>, gone: seq<Id>) {
    counts.Keys == nodes && forall t <- nodes :: counts[t] == InDegree(ks, t, done) - Occurs(gone, t)
  }

  lemma ReleaseOne(ks: seq<Edge>, nodes: set<Id>, counts: map<Id, int>, done: set<Id>, gone: seq<Id>, t: Id)
    requires Releasing(ks, nodes, counts, done, gone) && t in nodes
    ensures Releasing(ks, nodes, counts[t := counts[t] - 1], done, gone + [t])
  {
    forall u: Id { OccursSnoc(gone, t, u); }
  }

  /** An edge still to be released is still counted. */
  lemma StillCounted(ks: seq<Edge>, nodes: set<Id>, counts: map<Id, int>, done: set<Id>, id: Id, k: nat)
    requires id !in done && k < |Targets(ks, id)| && Targets(ks, id)[k] in nodes
    requires Releasing(ks, nodes, counts, done, Targets(ks, id)[..k])
    ensures counts[Targets(ks, id)[k]] > 0
  {
    var t := Targets(ks, id)[k];
    OccursPrefix(Targets(ks, id), k, t);
    DoneOne(ks, t, done, id);
  }

  lemma Released(ks: seq<Edge>, nodes: set<Id>, counts: map<Id, int>, done: set<Id>, id: Id)
    requires id !in done && Releasing(ks, nodes, counts, done, Targets(ks, id))
    ensures Counting(ks, nodes, counts, done + {id})
  {
    forall t | t in nodes ensures counts[t] == InDegree(ks, t, done + {id}) { DoneOne(ks, t, done, id); }
  }

  /** A counted node is not done: done nodes have nothing left to count. */
  lemma NotDone(ks: seq<Edge>, nodes: set<Id>, counts: map<Id, int>, done: set<Id>, gone: seq<Id>, t: Id)
    requires Releasing(ks, nodes, counts, done, gone) && t in nodes && counts[t] > 0
    requires forall u <- done :: InDegree(ks, u, done) == 0
    ensures t !in done
  {
  }

  /** Take one sorted node's edges out of the counts; what drops to zero becomes ready. */
  method Release(ghost ks: seq<Edge>, ghost nodes: set<Id>, list: seq<Id>, incoming: map<Id, int>, ready: seq<Id>,
                 ghost done: set<Id>, ghost id: Id)
    returns (counts: map<Id, int>, next: seq<Id>)
    requires Counting(ks, nodes, incoming, done) && id in nodes && id !in done && incoming[id] == 0
    requires list == Targets(ks, id) && (forall e <- ks :: e.target in nodes)
    requires forall t <- done :: InDegree(ks, t, done) == 0
    requires Ready(nodes, incoming, done + {id}, ready)
    ensures Counting(ks, nodes, counts, done + {id}) && Ready(nodes, counts, done + {id}, next)
  {
    counts, next := incoming, ready;
    TargetsAre(ks, id);
    for k := 0 to |list|
      invariant Releasing(ks, nodes, counts, done, list[..k]) && counts[id] <= 0
      invariant Ready(nodes, counts, done + {id}, next)
    {
      var t := list[k];
      assert Edge(id, t) in ks;
      StillCounted(ks, nodes, counts, done, id, k);
      NotDone(ks, nodes, counts, done, list[..k], t);
      ReleaseOne(ks, nodes, counts, done, list[..k], t);
      assert list[..k + 1] == list[..k] + [t];
      var left := counts[t] - 1;
      counts := counts[t := left];
      if left == 0 { next := next + [t]; }
    }
    assert list[..|list|] == list;
    Released(ks, nodes, counts, done, id);
  }

  /** What the loop keeps true between two nodes. */
  ghost predicate Sorting(ks: seq<Edge>, nodes: set<Id>, incoming: map<Id, int>, ready: seq<Id>, sorted: seq<Id>) {
    Counting(ks, nodes, incoming, SetOf(sorted)) && Ready(nodes, incoming, SetOf(sorted), ready) &&
    Distinct(sorted) && SetOf(sorted) <= nodes && SourcesFirst(ks, sorted) && EMPTY_ID !in sorted &&
    forall t <- SetOf(sorted) :: InDegree(ks, t, SetOf(sorted)) == 0
  }

  lemma DegreeFalls(ks: seq<Edge>, t: Id, done: set<Id>, more: set<Id>)
    requires done <= more && InDegree(ks, t, done) == 0
    ensures InDegree(ks, t, more) == 0
  {
    DegreeZero(ks, t, done);
    DegreeZero(ks, t, more);
  }

  lemma SortedOne(ks: seq<Edge>, nodes: set<Id>, incoming: map<Id, int>, ready: seq<Id>, sorted: seq<Id>, id: Id)
    requires Sorting(ks, nodes, incoming, ready, sorted) && id in ready && id != EMPTY_ID
    ensures SetOf(sorted + [id]) == SetOf(sorted) + {id} && id !in SetOf(sorted) && id in nodes
    ensures Distinct(sorted + [id]) && SourcesFirst(ks, sorted + [id]) && EMPTY_ID !in sorted + [id]
    ensures forall t <- SetOf(sorted + [id]) :: InDegree(ks, t, SetOf(sorted + [id])) == 0
  {
    SetSnoc(sorted, id);
    var next := sorted + [id];
    forall i | 0 <= i < |sorted| ensures sorted[i] != id { assert sorted[i] in SetOf(sorted); }
    DegreeZero(ks, id, SetOf(sorted));
    forall e, j | e in ks && 0 <= j < |next| && e.target == next[j] ensures e.source in next[..j] {
      if j < |sorted| {
        assert next[..j] == sorted[..j];
      } else {
        var k :| 0 <= k < |ks| && ks[k] == e;
        assert e.source in SetOf(sorted);
        assert next[..j] == sorted;
      }
    }
    forall t | t in SetOf(next)
      ensures InDegree(ks, t, SetOf(next)) == 0
    {
      DegreeFalls(ks, t, SetOf(sorted), SetOf(next));
    }
  }

  lemma ReadyRest(nodes: set<Id>, incoming: map<Id, int>, done: set<Id>, ready: seq<Id>)
    requires Ready(nodes, incoming, done, ready) && ready != []
    ensures Ready(nodes, incoming, done + {ready[0]}, ready[1..])
  {
    assert ready == [ready[0]] + ready[1..];
    forall i | 0 <= i < |ready[1..]| ensures ready[1..][i] != ready[0] { assert ready[1..][i] == ready[i + 1]; }
  }

  /**
   * order: a list of all nodes, each once, with the source of every known edge before its target;
   * null exactly when an id is empty or repeated or the known edges form a cycle.
   */
  method Order(nodes: seq<Id>, edges: seq<Edge>) returns (r: Option<seq<Id>>)
    ensures r.Some? <==> Distinct(nodes) && EMPTY_ID !in nodes && !HasCycle(Known(edges, SetOf(nodes)))
    ensures r.Some? ==> Distinct(r.value) && SetOf(r.value) == SetOf(nodes) && |r.value| == |nodes|
    ensures r.Some? ==> SourcesFirst(Known(edges, SetOf(nodes)), r.value)
  {
    ghost var ks, all := Known(edges, SetOf(nodes)), SetOf(nodes);
    KnownAre(edges, all);
    var incoming, out := CountEdges(nodes, edges);
    var ready := FirstReady(nodes, incoming);
    var sorted: seq<Id> := [];
    assert SetOf(sorted) == {};
    while |ready| > 0
      invariant Sorting(ks, all, incoming, ready, sorted)
      decreases all - SetOf(sorted)
    {
      var id := ready[0];
      if id == EMPTY_ID { break; }
      SortedOne(ks, all, incoming, ready, sorted, id);
      ReadyRest(all, incoming, SetOf(sorted), ready);
      ghost var done := SetOf(sorted);
      incoming, ready := Release(ks, all, TargetsIn(out, id), incoming, ready[1..], done, id);
      sorted := sorted + [id];
    }
    if |sorted| == |nodes| {
      Complete(nodes, ks, sorted);
    } else if Distinct(nodes) && EMPTY_ID !in nodes {
      Incomplete(nodes, ks, incoming, ready, sorted);
    }
    return if |sorted| == |nodes| then Some(sorted) else None;
  }

  /** A complete list when the loop ends: nothing stood in the way. */
  lemma Complete(nodes: seq<Id>, ks: seq<Edge>, sorted: seq<Id>)
    requires Distinct(sorted) && SetOf(sorted) <= SetOf(nodes) && SourcesFirst(ks, sorted) && EMPTY_ID !in sorted
    requires |sorted| == |nodes| && forall e <- ks :: e.target in SetOf(nodes)
    ensures SetOf(sorted) == SetOf(nodes) && Distinct(nodes) && EMPTY_ID !in nodes && !HasCycle(ks)
  {
    SetSize(nodes);
    SetSize(sorted);
    SubsetSize(SetOf(sorted), SetOf(nodes));
    forall i | 0 <= i < |nodes| ensures nodes[i] != EMPTY_ID { assert nodes[i] in SetOf(sorted); }
    NoCycleWhenSorted(ks, sorted);
  }

  /** Nothing is ready but nodes are left: they feed one another. */
  lemma Incomplete(nodes: seq<Id>, ks: seq<Edge>, incoming: map<Id, int>, ready: seq<Id>, sorted: seq<Id>)
    requires Sorting(ks, SetOf(nodes), incoming, ready, sorted) && |sorted| != |nodes|
    requires ready == [] || ready[0] == EMPTY_ID
    requires Distinct(nodes) && EMPTY_ID !in nodes && forall e <- ks :: e.source in SetOf(nodes)
    ensures HasCycle(ks)
  {
    var all, done := SetOf(nodes), SetOf(sorted);
    if ready != [] { assert ready[0] in all; }
    SetSize(nodes);
    SetSize(sorted);
    if all <= done {
      SubsetSize(all, done);
      SubsetSize(done, all);
    }
    var rest := all - done;
    var t0 := Outside(nodes, done);
    forall t | t in rest ensures Fed(ks, rest, t) {
      DegreeZero(ks, t, done);
      assert t !in ready;
    }
    StuckIsCyclic(ks, rest, t0);
  }

  // ---- cycles ------------------------------------------------------------------------------------------

  lemma {:induction false} PositionsRise(ks: seq<Edge>, sorted: seq<Id>, p: seq<Id>, i: nat)
    requires Distinct(sorted) && SourcesFirst(ks, sorted) && Walk(ks, p) && i < |sorted| && sorted[i] == p[|p| - 1]
    ensures |p| > 1 ==> exists j :: 0 <= j < i && sorted[j] == p[0]
    ensures p[0] in sorted[..i + 1]
    decreases |p|
  {
    if |p| == 1 {
      assert sorted[..i + 1][i] == p[0];
    } else {
      var e := Edge(p[|p| - 2], p[|p| - 1]);
      LastStep(ks, p);
      assert e in ks && e.source in sorted[..i];
      var k :| 0 <= k < i && sorted[k] == e.source;
      InitWalk(ks, p);
      PositionsRise(ks, sorted, p[..|p| - 1], k);
      var j :| 0 <= j < k + 1 && sorted[j] == p[0];
      assert sorted[..i + 1][j] == p[0];
    }
  }

  lemma NoCycleWhenSorted(ks: seq<Edge>, sorted: seq<Id>)
    requires Distinct(sorted) && SourcesFirst(ks, sorted) && forall e <- ks :: e.target in SetOf(sorted)
    ensures !HasCycle(ks)
  {
    forall p | Walk(ks, p) && |p| > 1 ensures p[0] != p[|p| - 1] {
      LastStep(ks, p);
      assert p[|p| - 1] in SetOf(sorted);
      var i :| 0 <= i < |sorted| && sorted[i] == p[|p| - 1];
      PositionsRise(ks, sorted, p, i);
    }
  }

  /** Some edge leads from rest to t. */
  ghost predicate Fed(ks: seq<Edge>, rest: set<Id>, t: Id) {
    exists k :: 0 <= k < |ks| && ks[k].target == t && ks[k].source in rest
  }

  ghost predicate Stuck(ks: seq<Edge>, rest: set<Id>) {
    forall t {:trigger Fed(ks, rest, t)} :: t in rest ==> Fed(ks, rest, t)
  }

  lemma Outside(nodes: seq<Id>, done: set<Id>) returns (t: Id)
    requires !(SetOf(nodes) <= done)
    ensures t in SetOf(nodes) && t !in done
  {
    var i := 0;
    while i < |nodes| && nodes[i] in done
      invariant i <= |nodes| && forall j :: 0 <= j < i ==> nodes[j] in done
    {
      i := i + 1;
    }
    t := nodes[i];
  }

  /** A walk of n steps that stays among the stuck nodes. */
  ghost predicate LongWalk(ks: seq<Edge>, rest: set<Id>, n: nat, p: seq<Id>) {
    Walk(ks, p) && |p| == n + 1 && forall k :: 0 <= k < |p| ==> p[k] in rest
  }

  lemma {:induction false} BackWalk(ks: seq<Edge>, rest: set<Id>, t: Id, n: nat)
    requires Stuck(ks, rest) && t in rest
    ensures exists p :: LongWalk(ks, rest, n, p)
  {
    if n == 0 {
      assert LongWalk(ks, rest, n, [t]);
    } else {
      BackWalk(ks, rest, t, n - 1);
      var q :| LongWalk(ks, rest, n - 1, q);
      var longer := Extend(ks, rest, n - 1, q);
      assert LongWalk(ks, rest, n, longer);
    }
  }

  lemma Extend(ks: seq<Edge>, rest: set<Id>, n: nat, q: seq<Id>) returns (p: seq<Id>)
    requires Stuck(ks, rest) && LongWalk(ks, rest, n, q)
    ensures LongWalk(ks, rest, n + 1, p)
  {
    assert q[0] in rest;
    assert Fed(ks, rest, q[0]);
    var k :| 0 <= k < |ks| && ks[k].target == q[0] && ks[k].source in rest;
    assert ks[k] == Edge(ks[k].source, q[0]);
    ConsWalk(ks, ks[k].source, q);
    p := [ks[k].source] + q;
  }

  /** More entries than values: some value comes twice. */
  lemma Pigeonhole(p: seq<Id>, rest: set<Id>)
    requires |p| > |rest| && forall k :: 0 <= k < |p| ==> p[k] in rest
    ensures exists i: nat, j: nat :: i < j < |p| && p[i] == p[j]
  {
    SetSize(p);
    SubsetSize(SetOf(p), rest);
  }

  lemma StuckIsCyclic(ks: seq<Edge>, rest: set<Id>, t: Id)
    requires Stuck(ks, rest) && t in rest
    ensures HasCycle(ks)
  {
    BackWalk(ks, rest, t, |rest|);
    var p :| LongWalk(ks, rest, |rest|, p);
    Pigeonhole(p, rest);
    var i: nat, j: nat :| i < j < |p| && p[i] == p[j];
    SubWalk(ks, p, i, j);
    var c := p[i..j + 1];
    assert |c| > 1 && c[0] == p[i] && c[|c| - 1] == p[j];
  }

  // ---- what a node depends on -----------------------------------------------------------------------------

  lemma ReachesStep(edges: seq<Edge>, a: Id, b: Id, c: Id)
    requires Edge(a, b) in edges && Reaches(edges, b, c)
    ensures Reaches(edges, a, c)
  {
    var p :| Walk(edges, p) && p[0] == b && p[|p| - 1] == c;
    var q := [a] + p;
    ConsWalk(edges, a, p);
    assert Walk(edges, q) && q[0] == a && q[|q| - 1] == c;
  }

  /** A set closed under taking sources holds every walk that ends in it. */
  lemma {:induction false} ClosedHolds(edges: seq<Edge>, need: set<Id>, p: seq<Id>)
    requires forall e <- edges :: e.target in need ==> e.source in need
    requires Walk(edges, p) && p[|p| - 1] in need
    ensures p[0] in need
    decreases |p|
  {
    if |p| > 1 {
      LastStep(edges, p);
      InitWalk(edges, p);
      ClosedHolds(edges, need, p[..|p| - 1]);
    }
  }

  /** upstreamOf: exactly the nodes from which a walk leads to the given one. */
  method UpstreamOf(edges: seq<Edge>, id: Id) returns (need: set<Id>)
    ensures forall x :: x in need <==> Reaches(edges, x, id)
  {
    need := {id};
    assert Walk(edges, [id]);
    ghost var all := {id} + (set k | 0 <= k < |edges| :: edges[k].source);
    var grew := true;
    while grew
      invariant id in need && need <= all && forall x <- need :: Reaches(edges, x, id)
      invariant !grew ==> forall e <- edges :: e.target in need ==> e.source in need
      decreases all - need, grew
    {
      grew := false;
      ghost var was := need;
      for k := 0 to |edges|
        invariant was <= need <= all && id in need && forall x <- need :: Reaches(edges, x, id)
        invariant grew <==> need != was
        invariant !grew ==> forall m :: 0 <= m < k && edges[m].target in need ==> edges[m].source in need
      {
        var e := edges[k];
        if e.target in need && e.source !in need {
          assert e == Edge(e.source, e.target) && e in edges;
          ReachesStep(edges, e.source, e.target, id);
          assert edges[k].source in all;
          need := need + {e.source};
          grew := true;
        }
      }
      if !grew { assert forall e <- edges :: e.target in need ==> e.source in need; }
    }
    forall x | Reaches(edges, x, id) ensures x in need {
      var p :| Walk(edges, p) && p[0] == x && p[|p| - 1] == id;
      ClosedHolds(edges, need, p);
    }
  }
}

/**
 * When training frames are kept (src/algo/autorecord.ts:56-118): in auto, a short pre-roll before
 * a person is seen and a hold after. A frame is a number standing for the write it would run.
 */
module Recording {
  import opened Wrappers

  const PREROLL_MS := 5_000
  const HOLD_MS := 10_000

  datatype Item = Item(at: int, id: nat)

  /** What the switch knows of one node: when a person was last seen, and the frames on hold. */
  datatype Node = Node(last: Option<int>, queue: seq<Item>)

  const QUIET := Node(None, [])

  datatype Event = Frame(at: int) | Presence(people: int, at: int)

  predicate Active(n: Node, now: int) { n.last.Some? && now - n.last.value <= HOLD_MS }

  /** The items still within the pre-roll, in order. */
  function Recent(queue: seq<Item>, now: int): seq<Item> {
    if queue == [] then []
    else
      var item := queue[|queue| - 1];
      Recent(queue[..|queue| - 1], now) + (if now - item.at <= PREROLL_MS then [item] else [])
  }

  function Ids(queue: seq<Item>): (r: seq<nat>)
    ensures |r| == |queue|
  {
    seq(|queue|, i requires 0 <= i < |queue| => queue[i].id)
  }

  datatype Outcome = Outcome(node: Node, written: seq<nat>)

  /** One call in auto: gate for a frame, presence for a verdict. */
  function Step(n: Node, e: Event, id: nat): Outcome {
    match e
    case Frame(at) =>
      if Active(n, at) then Outcome(n, [id]) else Outcome(n.(queue := Recent(n.queue, at) + [Item(at, id)]), [])
    case Presence(people, at) =>
      if people <= 0 then Outcome(n, [])
      else if Active(n, at) then Outcome(n.(last := Some(at)), [])
      else Outcome(Node(Some(at), []), Ids(Recent(n.queue, at)))
  }

  /** The events of one node in turn; the frame of event i is number i. */
  function Run(es: seq<Event>): Outcome {
    if es == [] then Outcome(QUIET, [])
    else
      var before := Run(es[..|es| - 1]);
      var last := Step(before.node, es[|es| - 1], |es| - 1);
      Outcome(last.node, before.written + last.written)
  }

  // ---- what should be kept -----------------------------------------------------------------------

  ghost predicate InOrder(es: seq<Event>) { forall i, j :: 0 <= i < j < |es| ==> es[i].at <= es[j].at }

  /** Event k shows a person close enough to event i. */
  predicate Near(es: seq<Event>, i: nat, k: nat)
    requires i < |es| && k < |es|
  {
    es[k].Presence? && es[k].people > 0 &&
    ((k < i && es[i].at - es[k].at <= HOLD_MS) || (i < k && es[k].at - es[i].at <= PREROLL_MS))
  }

  ghost predicate Kept(es: seq<Event>, i: nat)
    requires i < |es|
  {
    es[i].Frame? && exists k: nat :: k < |es| && Near(es, i, k)
  }

  predicate Ascending(s: seq<nat>) { forall i, j :: 0 <= i < j < |s| ==> s[i] < s[j] }

  // ---- the invariant -------------------------------------------------------------------------------

  predicate Seen(es: seq<Event>, k: nat)
    requires k < |es|
  {
    es[k].Presence? && es[k].people > 0
  }

  ghost predicate LastIs(es: seq<Event>, last: Option<int>) {
    (forall k: nat :: k < |es| && Seen(es, k) ==> last.Some? && es[k].at <= last.value) &&
    (last.Some? ==> exists k: nat :: k < |es| && Seen(es, k) && es[k].at == last.value)
  }

  /** A held frame came more than the hold after every person seen. */
  ghost predicate Held(es: seq<Event>, queue: seq<Item>) {
    forall q :: 0 <= q < |queue| ==>
      queue[q].id < |es| && es[queue[q].id] == Frame(queue[q].at) &&
      forall k: nat :: k < |es| && Seen(es, k) ==> es[k].at + HOLD_MS < queue[q].at
  }

  /** A frame neither written nor held is out of reach of any later person. */
  ghost predicate Accounted(es: seq<Event>, written: seq<nat>, queue: seq<Item>) {
    forall i: nat :: i < |es| && es[i].Frame? ==>
      i in written || i in Ids(queue) || es[|es| - 1].at - es[i].at > PREROLL_MS
  }

  ghost predicate Exact(es: seq<Event>, written: seq<nat>) {
    (forall w :: 0 <= w < |written| ==> written[w] < |es|) && forall i: nat :: i < |es| ==>
      (i in written <==> Kept(es, i))
  }

  ghost predicate Inv(es: seq<Event>, o: Outcome) {
    LastIs(es, o.node.last) && Held(es, o.node.queue) && Accounted(es, o.written, o.node.queue) &&
    Exact(es, o.written) && Ascending(o.written + Ids(o.node.queue))
  }

  // ---- small steps -----------------------------------------------------------------------------------

  lemma {:induction false} RecentAre(queue: seq<Item>, now: int)
    ensures forall x :: x in Recent(queue, now) <==> x in queue && now - x.at <= PREROLL_MS
  {
    if queue != [] {
      RecentAre(queue[..|queue| - 1], now);
      assert queue == queue[..|queue| - 1] + [queue[|queue| - 1]];
    }
  }

  lemma IdsSnoc(queue: seq<Item>, x: Item)
    ensures Ids(queue + [x]) == Ids(queue) + [x.id]
  {
  }

  lemma AscendingSnoc(s: seq<nat>, x: nat)
    ensures Ascending(s + [x]) <==> Ascending(s) && (forall i :: 0 <= i < |s| ==> s[i] < x)
  {
    var t := s + [x];
    assert t[|s|] == x;
    assert forall i :: 0 <= i < |s| ==> t[i] == s[i];
  }

  /** Dropping stale items keeps the order. */
  lemma {:induction false} RecentAscends(written: seq<nat>, queue: seq<Item>, now: int)
    requires Ascending(written + Ids(queue))
    ensures Ascending(written + Ids(Recent(queue, now)))
    ensures forall x :: x in written + Ids(Recent(queue, now)) ==> x in written + Ids(queue)
  {
    if queue != [] {
      var init, item := queue[..|queue| - 1], queue[|queue| - 1];
      assert queue == init + [item];
      IdsSnoc(init, item);
      assert written + Ids(queue) == (written + Ids(init)) + [item.id];
      AscendingSnoc(written + Ids(init), item.id);
      RecentAscends(written, init, now);
      var kept := Recent(init, now);
      if now - item.at <= PREROLL_MS {
        IdsSnoc(kept, item);
        assert written + Ids(kept + [item]) == (written + Ids(kept)) + [item.id];
        forall i | 0 <= i < |written + Ids(kept)| ensures (written + Ids(kept))[i] < item.id {
          assert (written + Ids(kept))[i] in written + Ids(init);
        }
        AscendingSnoc(written + Ids(kept), item.id);
      } else {
        assert kept + [] == kept;
      }
    }
  }

  lemma IdsOf(queue: seq<Item>, id: nat)
    ensures id in Ids(queue) <==> exists q :: 0 <= q < |queue| && queue[q].id == id
  {
    if id in Ids(queue) {
      var q :| 0 <= q < |Ids(queue)| && Ids(queue)[q] == id;
      assert queue[q].id == id;
    }
    if q :| 0 <= q < |queue| && queue[q].id == id { assert Ids(queue)[q] == id; }
  }

  /** While anything is on hold, nobody is around. */
  lemma HeldMeansQuiet(es: seq<Event>, n: Node, now: int)
    requires LastIs(es, n.last) && Held(es, n.queue) && n.queue != []
    requires forall i :: 0 <= i < |es| ==> es[i].at <= now
    ensures !Active(n, now)
  {
    if n.last.Some? {
      var k: nat :| k < |es| && Seen(es, k) && es[k].at == n.last.value;
      assert es[k].at + HOLD_MS < n.queue[0].at;
      assert es[n.queue[0].id].at <= now;
    }
  }

  lemma LastNext(es: seq<Event>, e: Event, n: Node, id: nat)
    requires LastIs(es, n.last) && forall i :: 0 <= i < |es| ==> es[i].at <= e.at
    ensures LastIs(es + [e], Step(n, e, id).node.last)
  {
    var next := es + [e];
    forall k: nat | k < |es| ensures Seen(next, k) <==> Seen(es, k) { assert next[k] == es[k]; }
    if e.Presence? && e.people > 0 {
      assert Seen(next, |es|) && next[|es|].at == e.at;
      assert forall k: nat :: k < |es| && Seen(next, k) ==> next[k].at <= e.at;
    } else if n.last.Some? {
      var k: nat :| k < |es| && Seen(es, k) && es[k].at == n.last.value;
      assert Seen(next, k) && next[k].at == n.last.value;
    }
  }

  /** One more event changes what is kept only for that event, or for frames just before a person. */
  lemma KeptNext(es: seq<Event>, e: Event, i: nat)
    requires i < |es|
    ensures Kept(es + [e], i) <==>
      Kept(es, i) || (es[i].Frame? && e.Presence? && e.people > 0 && e.at - es[i].at <= PREROLL_MS)
  {
    var next := es + [e];
    forall k: nat | k < |es|
      ensures Near(next, i, k) <==> Near(es, i, k)
    {
      assert next[k] == es[k] && next[i] == es[i];
    }
    if Kept(es, i) {
      var k: nat :| k < |es| && Near(es, i, k);
      assert Near(next, i, k);
    }
    assert Near(next, i, |es|) <==> e.Presence? && e.people > 0 && e.at - es[i].at <= PREROLL_MS;
  }

  lemma KeptLast(es: seq<Event>, e: Event, n: Node)
    requires LastIs(es, n.last) && forall i :: 0 <= i < |es| ==> es[i].at <= e.at
    ensures Kept(es + [e], |es|) <==> e.Frame? && Active(n, e.at)
  {
    var next := es + [e];
    forall k: nat | k < |es|
      ensures Near(next, |es|, k) <==> Seen(es, k) && e.at - es[k].at <= HOLD_MS
    {
      assert next[k] == es[k];
    }
    if Active(n, e.at) {
      var k: nat :| k < |es| && Seen(es, k) && es[k].at == n.last.value;
      assert Near(next, |es|, k);
    }
  }

  // ---- one step keeps the invariant ---------------------------------------------------------------------

  lemma AscendingNext(es: seq<Event>, e: Event, n: Node, written: seq<nat>)
    requires Inv(es, Outcome(n, written)) && forall i :: 0 <= i < |es| ==> es[i].at <= e.at
    ensures var o := Step(n, e, |es|); Ascending(written + o.written + Ids(o.node.queue))
  {
    var o := Step(n, e, |es|);
    if Active(n, e.at) && n.queue != [] { HeldMeansQuiet(es, n, e.at); }
    RecentAscends(written, n.queue, e.at);
    var all := written + Ids(n.queue);
    forall i | 0 <= i < |all| ensures all[i] < |es| {
      if i >= |written| { assert all[i] == n.queue[i - |written|].id; }
    }
    if e.Frame? {
      var kept := if Active(n, e.at) then [] else Recent(n.queue, e.at);
      var before := written + Ids(kept);
      assert Active(n, e.at) ==> before == all;
      forall i | 0 <= i < |before| ensures before[i] < |es| { assert before[i] in all; }
      AscendingSnoc(before, |es|);
      if Active(n, e.at) {
        assert written + o.written + Ids(o.node.queue) == before + [|es|];
      } else {
        IdsSnoc(kept, Item(e.at, |es|));
        assert written + o.written + Ids(o.node.queue) == before + [|es|];
      }
    } else if e.people > 0 && !Active(n, e.at) {
      assert written + o.written + Ids(o.node.queue) == written + Ids(Recent(n.queue, e.at));
    } else {
      assert written + o.written + Ids(o.node.queue) == all;
    }
  }

  lemma HeldNext(es: seq<Event>, e: Event, n: Node)
    requires LastIs(es, n.last) && Held(es, n.queue) && forall i :: 0 <= i < |es| ==> es[i].at <= e.at
    ensures Held(es + [e], Step(n, e, |es|).node.queue)
  {
    var next, o := es + [e], Step(n, e, |es|);
    RecentAre(n.queue, e.at);
    if Active(n, e.at) && n.queue != [] { HeldMeansQuiet(es, n, e.at); }
    forall q | 0 <= q < |o.node.queue|
      ensures var x := o.node.queue[q];
        x.id < |next| && next[x.id] == Frame(x.at) && forall k: nat :: k < |next| && Seen(next, k) ==>
          next[k].at + HOLD_MS < x.at
    {
      var x := o.node.queue[q];
      if x.id < |es| && x in n.queue {
        var p :| 0 <= p < |n.queue| && n.queue[p] == x;
        forall k: nat | k < |next| && Seen(next, k) ensures next[k].at + HOLD_MS < x.at {
          assert k < |es| ==> Seen(es, k);
        }
      } else {
        assert x == Item(e.at, |es|);
        forall k: nat | k < |next| && Seen(next, k) ensures next[k].at + HOLD_MS < x.at { assert Seen(es, k); }
      }
    }
  }

  lemma InRecent(queue: seq<Item>, now: int, id: nat)
    ensures id in Ids(Recent(queue, now)) ==> exists q ::
      0 <= q < |queue| && queue[q].id == id && now - queue[q].at <= PREROLL_MS
    ensures forall q :: 0 <= q < |queue| && queue[q].id == id && now - queue[q].at <= PREROLL_MS ==>
      id in Ids(Recent(queue, now))
  {
    RecentAre(queue, now);
    var kept := Recent(queue, now);
    IdsOf(kept, id);
    if id in Ids(kept) {
      var p :| 0 <= p < |kept| && kept[p].id == id;
      assert kept[p] in queue;
    }
    forall q | 0 <= q < |queue| && queue[q].id == id && now - queue[q].at <= PREROLL_MS ensures id in Ids(kept) {
      assert queue[q] in kept;
    }
  }

  lemma AccountedNext(es: seq<Event>, e: Event, n: Node, written: seq<nat>)
    requires Accounted(es, written, n.queue) && Held(es, n.queue) && forall i :: 0 <= i < |es| ==> es[i].at <= e.at
    ensures var o := Step(n, e, |es|); Accounted(es + [e], written + o.written, o.node.queue)
  {
    var next, o := es + [e], Step(n, e, |es|);
    forall i: nat | i < |next| && next[i].Frame?
      ensures i in written + o.written || i in Ids(o.node.queue) || e.at - next[i].at > PREROLL_MS
    {
      if i == |es| {
        if !Active(n, e.at) { IdsSnoc(Recent(n.queue, e.at), Item(e.at, |es|)); }
      } else {
        assert next[i] == es[i];
        if i in Ids(n.queue) {
          IdsOf(n.queue, i);
          InRecent(n.queue, e.at, i);
          if e.Frame? && !Active(n, e.at) { IdsSnoc(Recent(n.queue, e.at), Item(e.at, |es|)); }
        }
      }
    }
  }

  lemma ExactNext(es: seq<Event>, e: Event, n: Node, written: seq<nat>, i: nat)
    requires Inv(es, Outcome(n, written)) && i <= |es| && forall j :: 0 <= j < |es| ==> es[j].at <= e.at
    ensures i in written + Step(n, e, |es|).written <==> Kept(es + [e], i)
  {
    var o := Step(n, e, |es|);
    if i == |es| {
      KeptLast(es, e, n);
      assert i !in written;
      if e.Presence? { InRecent(n.queue, e.at, i); }
    } else {
      KeptNext(es, e, i);
      InRecent(n.queue, e.at, i);
      if Active(n, e.at) && n.queue != [] { HeldMeansQuiet(es, n, e.at); }
      IdsOf(n.queue, i);
    }
  }

  lemma StepKeeps(es: seq<Event>, e: Event, n: Node, written: seq<nat>)
    requires Inv(es, Outcome(n, written)) && forall j :: 0 <= j < |es| ==> es[j].at <= e.at
    ensures var o := Step(n, e, |es|); Inv(es + [e], Outcome(o.node, written + o.written))
  {
    var next, o := es + [e], Step(n, e, |es|);
    LastNext(es, e, n, |es|);
    HeldNext(es, e, n);
    AccountedNext(es, e, n, written);
    AscendingNext(es, e, n, written);
    forall i: nat | i < |next| ensures i in written + o.written <==> Kept(next, i) { ExactNext(es, e, n, written, i); }
    forall w | 0 <= w < |written + o.written| ensures (written + o.written)[w] < |next| {
      if w >= |written| { WrittenEarlier(es, e, n, w - |written|); }
    }
  }

  lemma WrittenEarlier(es: seq<Event>, e: Event, n: Node, w: nat)
    requires Held(es, n.queue) && w < |Step(n, e, |es|).written|
    ensures Step(n, e, |es|).written[w] <= |es|
  {
    var id := Step(n, e, |es|).written[w];
    if e.Presence? { InRecent(n.queue, e.at, id); }
  }

  lemma {:induction false} RunKeeps(es: seq<Event>)
    requires InOrder(es)
    ensures Inv(es, Run(es))
  {
    if es == [] {
      assert Ids([]) == [];
    } else {
      var init, e := es[..|es| - 1], es[|es| - 1];
      RunKeeps(init);
      StepKeeps(init, e, Run(init).node, Run(init).written);
      assert init + [e] == es;
    }
  }

  /**
   * In auto, with times that do not run backwards: a frame is written exactly when a person was
   * seen at most the hold before it or at most the pre-roll after it, once, in arrival order.
   */
  lemma KeptExactlyOnceInOrder(es: seq<Event>)
    requires InOrder(es)
    ensures forall i: nat :: i < |es| ==> (i in Run(es).written <==> Kept(es, i))
    ensures Ascending(Run(es).written)
  {
    RunKeeps(es);
    var all := Run(es).written + Ids(Run(es).node.queue);
    assert forall i :: 0 <= i < |Run(es).written| ==> all[i] == Run(es).written[i];
  }

  // ---- the switch ------------------------------------------------------------------------------------------

  datatype Mode = Off | Auto | On

  class RecordSwitch {
    var mode: Mode
    var lastPersonAt: map<int, int>
    var pending: map<int, seq<Item>>

    /** What the switch holds for one node. */
    ghost function NodeOf(uid: int): Node
      reads this
    {
      Node(if uid in lastPersonAt then Some(lastPersonAt[uid]) else None, if uid in pending then pending[uid] else [])
    }

    constructor ()
      ensures mode == Auto && forall uid :: NodeOf(uid) == QUIET
    {
      mode, lastPersonAt, pending := Auto, map[], map[];
    }

    method SetMode(next: Mode)
      modifies this
      ensures mode == next && lastPersonAt == old(lastPersonAt)
      ensures pending == if next == Auto then old(pending) else map[]
    {
      mode := next;
      if next != Auto { pending := map[]; }
    }

    method IsActive(uid: int, now: int) returns (r: bool)
      ensures r <==> Active(NodeOf(uid), now)
    {
      r := uid in lastPersonAt && now - lastPersonAt[uid] <= HOLD_MS;
    }

    /** presence: the writes it runs, in order. */
    method Presence(uid: int, people: int, now: int) returns (runs: seq<nat>)
      modifies this`lastPersonAt, this`pending
      ensures mode == Auto ==> Outcome(NodeOf(uid), runs) == Step(old(NodeOf(uid)), Event.Presence(people, now), 0)
      ensures mode != Auto ==> runs == [] && pending == old(pending)
      ensures forall other :: other != uid ==> NodeOf(other) == old(NodeOf(other))
    {
      if people <= 0 { return []; }
      var wasActive := IsActive(uid, now);
      lastPersonAt := lastPersonAt[uid := now];
      if mode != Auto || wasActive { return []; }
      var queued := if uid in pending then pending[uid] else [];
      pending := pending - {uid};
      runs := [];
      for i := 0 to |queued|
        invariant runs == Ids(Recent(queued[..i], now))
        invariant lastPersonAt == old(lastPersonAt)[uid := now] && pending == old(pending) - {uid}
      {
        assert queued[..i + 1][..i] == queued[..i];
        if now - queued[i].at <= PREROLL_MS {
          IdsSnoc(Recent(queued[..i], now), queued[i]);
          runs := runs + [queued[i].id];
        }
      }
      assert queued[..|queued|] == queued;
    }

    /** gate: whether the write of frame id ran at once. */
    method Gate(uid: int, id: nat, now: int) returns (ran: bool)
      modifies this`pending
      ensures mode == Auto ==>
        Outcome(NodeOf(uid), if ran then [id] else []) == Step(old(NodeOf(uid)), Frame(now), id)
      ensures mode != Auto ==> ran == (mode == On) && pending == old(pending)
      ensures forall other :: other != uid ==> NodeOf(other) == old(NodeOf(other))
    {
      if mode == Off { return false; }
      var near := IsActive(uid, now);
      if mode == On || near { return true; }
      var queued := Recent(if uid in pending then pending[uid] else [], now);
      pending := pending[uid := queued + [Item(now, id)]];
      ran := false;
    }
  }
}

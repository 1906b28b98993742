/**
 * Live tuning of the two edge settings that constrain each other, enterMin <= enterWindow
 * (src/edge/occupancy.ts:138-155), and the way back from it (src/algo/params.ts:219-400). Nothing
 * of it is on disk: a restart goes back to the configured settings.
 */
module EdgeTuning {
  import opened Wrappers

  const REVERT_MS := 900_000
  const RETRY_MS := 5_000

  datatype Field = Min | Window

  datatype Options = Options(enterMin: int, enterWindow: int) {
    function Get(f: Field): int { if f.Min? then enterMin else enterWindow }
    function With(f: Field, v: int): Options { if f.Min? then this.(enterMin := v) else this.(enterWindow := v) }
  }

  predicate Valid(o: Options) { 1 <= o.enterMin <= o.enterWindow <= 60 }

  function Clamped(v: real): real { if v < 1.0 then 1.0 else if v > 60.0 then 60.0 else v }

  /** setOptions for one field: clamp, round, and refuse a minimum above the window. */
  function Tuned(o: Options, f: Field, v: real): (r: Option<Options>)
    ensures Valid(o) && r.Some? ==> Valid(r.value)
  {
    var next := o.With(f, (Clamped(v) + 0.5).Floor);
    if next.enterMin > next.enterWindow then None else Some(next)
  }

  /** n is the value v stands for: the nearest whole number within 1 and 60, halves going up. */
  predicate Rounds(v: real, n: int) {
    if v < 1.0 then n == 1 else if v > 60.0 then n == 60 else n as real - 0.5 <= v < n as real + 0.5
  }

  /** With that value the minimum would lie above the window. */
  ghost predicate Clashes(o: Options, f: Field, v: real) {
    exists n :: Rounds(v, n) && (if f == Min then n > o.enterWindow else o.enterMin > n)
  }

  lemma RoundsOnce(v: real)
    ensures Rounds(v, (Clamped(v) + 0.5).Floor)
    ensures forall n :: Rounds(v, n) ==> n == (Clamped(v) + 0.5).Floor
  {
  }

  /** `uid` is the node whose pipeline the change was made from. */
  datatype Change = Change(from: int, uid: int, revertAt: int)

  /** `saving` holds the nodes whose parameters are being saved to flash. */
  datatype Edge = Edge(live: Options, pending: map<Field, Change>, saving: set<int>)

  /** apply: the first change of a field keeps the value it found; a refused one leaves no trace. */
  function Applied(e: Edge, uid: int, f: Field, v: real, now: int, saved: bool): Edge {
    if uid in e.saving || v < 1.0 || v > 60.0 || !saved || Tuned(e.live, f, v).None? then e
    else
      var from := if f in e.pending then e.pending[f].from else e.live.Get(f);
      e.(live := Tuned(e.live, f, v).value, pending := e.pending[f := Change(from, uid, now + REVERT_MS)])
  }

  /** revert: a refused one is tried again five seconds later; during a save to flash nothing is done. */
  function Reverted(e: Edge, uid: int, f: Field, now: int): Edge {
    if f !in e.pending || uid in e.saving then e
    else
      match Tuned(e.live, f, e.pending[f].from as real)
      case None => e.(pending := e.pending[f := e.pending[f].(revertAt := now + RETRY_MS)])
      case Some(o) => e.(live := o, pending := e.pending - {f})
  }

  function Committed(e: Edge, f: Field, saved: bool): Edge {
    if f in e.pending && saved then e.(pending := e.pending - {f}) else e
  }

  function RevertedIfDue(e: Edge, f: Field, now: int): Edge {
    if f in e.pending && e.pending[f].revertAt <= now then Reverted(e, e.pending[f].uid, f, now) else e
  }

  function Other(f: Field): Field { if f.Min? then Window else Min }

  /** sweep: the due changes, in the order they are held. */
  function Swept(e: Edge, first: Field, now: int): Edge {
    RevertedIfDue(RevertedIfDue(e, first, now), Other(first), now)
  }

  function Configured(config: Options): Edge { Edge(config, map[], {}) }

  datatype Event =
    | Apply(uid: int, field: Field, value: real, now: int, saved: bool)
    | Revert(uid: int, field: Field, now: int)
    | Sweep(first: Field, now: int)
    | Commit(field: Field, saved: bool)
    | SaveBegins(uid: int)
    | SaveEnds(uid: int)
    | Restart(config: Options)

  function Step(e: Edge, event: Event): Edge {
    match event
    case Apply(uid, f, v, now, saved) => Applied(e, uid, f, v, now, saved)
    case Revert(uid, f, now) => Reverted(e, uid, f, now)
    case Sweep(first, now) => Swept(e, first, now)
    case Commit(f, saved) => Committed(e, f, saved)
    case SaveBegins(uid) => e.(saving := e.saving + {uid})
    case SaveEnds(uid) => e.(saving := e.saving - {uid})
    case Restart(config) => Configured(config)
  }

  function Run(e: Edge, events: seq<Event>): Edge {
    if events == [] then e else Step(Run(e, events[..|events| - 1]), events[|events| - 1])
  }

  // ---- when a change falls due ---------------------------------------------------------------------

  /** The event leaves the timer of f alone: no new apply or revert of it, no sweep at its time, no start. */
  predicate LeavesTimer(event: Event, f: Field, due: int) {
    !(event.Apply? && event.field == f) && !(event.Revert? && event.field == f) &&
    !(event.Sweep? && event.now >= due) && !event.Restart?
  }

  lemma SweepLeaves(e: Edge, first: Field, now: int, f: Field)
    requires f in e.pending && now < e.pending[f].revertAt
    ensures var n := Swept(e, first, now); f in n.pending && n.pending[f] == e.pending[f]
  {
  }

  lemma StepLeaves(e: Edge, event: Event, f: Field)
    requires f in e.pending && LeavesTimer(event, f, e.pending[f].revertAt)
    ensures f in Step(e, event).pending ==> Step(e, event).pending[f] == e.pending[f]
    ensures !event.Commit? ==> f in Step(e, event).pending
  {
    if event.Sweep? { SweepLeaves(e, event.first, event.now, f); }
  }

  lemma StepAdds(e: Edge, event: Event, f: Field)
    requires f !in e.pending && !(event.Apply? && event.field == f)
    ensures f !in Step(e, event).pending
  {
  }

  /**
   * A change applied at time t stays, as it was made, through everything but a new apply or a revert of
   * the same setting, a commit, a start, and a sweep at t + 15 minutes or later.
   */
  lemma {:induction false} DueAfterFifteenMinutes(e: Edge, t: int, f: Field, events: seq<Event>)
    requires f in e.pending && e.pending[f].revertAt == t + 900_000
    requires forall i :: 0 <= i < |events| ==> LeavesTimer(events[i], f, t + 900_000)
    ensures f in Run(e, events).pending ==> Run(e, events).pending[f] == e.pending[f]
    ensures (forall i :: 0 <= i < |events| ==> !events[i].Commit?) ==> f in Run(e, events).pending
  {
    if events != [] {
      var init, last := events[..|events| - 1], events[|events| - 1];
      DueAfterFifteenMinutes(e, t, f, init);
      if f in Run(e, init).pending {
        StepLeaves(Run(e, init), last, f);
      } else {
        StepAdds(Run(e, init), last, f);
      }
    }
  }

  // ---- what the reverts go back to --------------------------------------------------------------

  /** The values before anyone started: the pending ones, and the live ones nobody touched. */
  function Base(e: Edge): Options {
    Options(if Min in e.pending then e.pending[Min].from else e.live.enterMin,
            if Window in e.pending then e.pending[Window].from else e.live.enterWindow)
  }

  predicate Sound(e: Edge) { Valid(e.live) && forall f :: f in e.pending ==> 1 <= e.pending[f].from <= 60 }

  lemma RoundsBack(n: int)
    requires 1 <= n <= 60
    ensures (Clamped(n as real) + 0.5).Floor == n
  {
  }

  lemma RevertKeeps(e: Edge, uid: int, f: Field, now: int)
    requires Sound(e)
    ensures Sound(Reverted(e, uid, f, now)) && Base(Reverted(e, uid, f, now)) == Base(e)
    ensures Reverted(e, uid, f, now).saving == e.saving
  {
    if f in e.pending { RoundsBack(e.pending[f].from); }
  }

  lemma SweepKeeps(e: Edge, first: Field, now: int)
    requires Sound(e)
    ensures Sound(Swept(e, first, now)) && Base(Swept(e, first, now)) == Base(e)
    ensures Swept(e, first, now).saving == e.saving
  {
    if first in e.pending { RevertKeeps(e, e.pending[first].uid, first, now); }
    var middle, g := RevertedIfDue(e, first, now), Other(first);
    if g in middle.pending { RevertKeeps(middle, middle.pending[g].uid, g, now); }
  }

  predicate ValidStart(event: Event) { event.Restart? ==> Valid(event.config) }

  lemma StepKeeps(e: Edge, event: Event)
    requires Sound(e) && ValidStart(event)
    ensures Sound(Step(e, event))
    ensures !event.Commit? && !event.Restart? ==> Base(Step(e, event)) == Base(e)
  {
    match event
    case Revert(uid, f, now) => RevertKeeps(e, uid, f, now);
    case Sweep(first, now) => SweepKeeps(e, first, now);
    case _ =>
  }

  ghost predicate Uncommitted(events: seq<Event>) { forall i :: 0 <= i < |events| ==> !events[i].Commit? }

  ghost predicate ValidStarts(events: seq<Event>) { forall i :: 0 <= i < |events| ==> ValidStart(events[i]) }

  /** The settings the edge was last started with. */
  function Settings(config: Options, events: seq<Event>): Options {
    if events == [] then config
    else
      var last := events[|events| - 1];
      if last.Restart? then last.config else Settings(config, events[..|events| - 1])
  }

  /** Applies, reverts, sweeps and saves never move what the reverts go back to. */
  lemma {:induction false} RunKeeps(e: Edge, events: seq<Event>)
    requires Sound(e) && ValidStarts(events)
    ensures Sound(Run(e, events)) && (Uncommitted(events) ==> Base(Run(e, events)) == Settings(Base(e), events))
  {
    if events != [] {
      RunKeeps(e, events[..|events| - 1]);
      StepKeeps(Run(e, events[..|events| - 1]), events[|events| - 1]);
    }
  }

  // ---- two sweeps restore both, unless a commit or a save came between ---------------------------------

  predicate AllDue(e: Edge, now: int) { forall f :: f in e.pending ==> e.pending[f].revertAt <= now }

  /** No pending change was made from a node that is being saved to flash. */
  predicate Free(e: Edge) { forall f :: f in e.pending ==> e.pending[f].uid !in e.saving }

  /** A revert is refused only by the other setting. */
  lemma RevertWorksIff(e: Edge, f: Field, now: int)
    requires Sound(e) && Free(e) && f in e.pending
    ensures var o, r := e.live.With(f, e.pending[f].from), Reverted(e, e.pending[f].uid, f, now);
      if o.enterMin <= o.enterWindow then r == e.(live := o, pending := e.pending - {f})
      else r == e.(pending := e.pending[f := e.pending[f].(revertAt := now + RETRY_MS)])
  {
    RoundsBack(e.pending[f].from);
  }

  lemma SweepRestoresOne(e: Edge, first: Field, now: int)
    requires Sound(e) && Free(e) && AllDue(e, now) && Base(e).enterMin <= Base(e).enterWindow
    ensures AllDue(Swept(e, first, now), now + RETRY_MS) && Free(Swept(e, first, now))
    ensures Min !in Swept(e, first, now).pending || Window !in Swept(e, first, now).pending
  {
    var f, g := first, Other(first);
    if f in e.pending { RevertWorksIff(e, f, now); }
    var middle := RevertedIfDue(e, f, now);
    if f in e.pending { RevertKeeps(e, e.pending[f].uid, f, now); }
    if g in middle.pending { RevertWorksIff(middle, g, now); }
  }

  lemma NoneLeft(pending: map<Field, Change>)
    requires Min !in pending && Window !in pending
    ensures pending == map[]
  {
    forall f: Field ensures f !in pending { assert f.Min? || f.Window?; }
  }

  lemma OneIsRestored(e: Edge, first: Field, now: int)
    requires Sound(e) && Free(e) && AllDue(e, now) && (Min !in e.pending || Window !in e.pending)
    requires Base(e).enterMin <= Base(e).enterWindow
    ensures Swept(e, first, now) == Edge(Base(e), map[], e.saving)
  {
    var f, g := first, Other(first);
    if f in e.pending { RevertWorksIff(e, f, now); }
    var middle := RevertedIfDue(e, f, now);
    if g in middle.pending { RevertWorksIff(middle, g, now); }
    NoneLeft(Swept(e, first, now).pending);
  }

  /** A change made from a node that is being saved stays as it is. */
  lemma SweepSpares(e: Edge, first: Field, now: int, f: Field)
    requires f in e.pending && e.pending[f].uid in e.saving
    ensures f in Swept(e, first, now).pending && Swept(e, first, now).pending[f] == e.pending[f]
    ensures Swept(e, first, now).saving == e.saving
  {
  }

  /**
   * The exact condition for the way back: whatever the order of the changes, two sweeps a retry
   * apart put both settings back exactly when the values to return to agree with each other and
   * no node a change was made from is being saved to flash.
   */
  lemma RestoredIff(e: Edge, first: Field, second: Field, now: int)
    requires Sound(e) && AllDue(e, now)
    ensures Swept(Swept(e, first, now), second, now + RETRY_MS) == Edge(Base(e), map[], e.saving) <==>
      Base(e).enterMin <= Base(e).enterWindow && Free(e)
  {
    var once := Swept(e, first, now);
    SweepKeeps(e, first, now);
    SweepKeeps(once, second, now + RETRY_MS);
    if f :| f in e.pending && e.pending[f].uid in e.saving {
      SweepSpares(e, first, now, f);
      SweepSpares(once, second, now + RETRY_MS, f);
    } else if Base(e).enterMin <= Base(e).enterWindow {
      SweepRestoresOne(e, first, now);
      OneIsRestored(once, second, now + RETRY_MS);
    }
  }

  /**
   * Without commits the two reverts never block each other: whatever was applied, reverted, saved
   * and restarted, the edge returns to the settings it was last started with, exactly when no save
   * is in flight for a node a change was made from.
   */
  lemma ReturnsToStart(config: Options, events: seq<Event>, first: Field, second: Field, now: int)
    requires Valid(config) && ValidStarts(events) && Uncommitted(events) && AllDue(Run(Configured(config), events), now)
    ensures var e := Run(Configured(config), events);
      Swept(Swept(e, first, now), second, now + RETRY_MS) == Edge(Settings(config, events), map[], e.saving) <==>
        Free(e)
  {
    RunKeeps(Configured(config), events);
    RestoredIff(Run(Configured(config), events), first, second, now);
    SettingsValid(config, events);
  }

  lemma {:induction false} SettingsValid(config: Options, events: seq<Event>)
    requires Valid(config) && ValidStarts(events)
    ensures Valid(Settings(config, events))
  {
    if events != [] { SettingsValid(config, events[..|events| - 1]); }
  }

  /** A save in flight does stop it: a change made from node 1 is not put back while node 1 is saved. */
  lemma SaveCanDelay()
    ensures exists events, now :: var e := Run(Configured(Options(3, 5)), events);
      Uncommitted(events) && AllDue(e, now) && e.pending != map[] && forall first :: Swept(e, first, now) == e
  {
    var a, s := Apply(1, Window, 10.0, 0, true), SaveBegins(1);
    var e := Edge(Options(3, 10), map[Window := Change(5, 1, REVERT_MS)], {1});
    assert [a, s][..1] == [a] && [a][..0] == [];
    assert Run(Configured(Options(3, 5)), [a]) == e.(saving := {});
    assert Run(Configured(Options(3, 5)), [a, s]) == e;
    assert Window in e.pending;
    assert Uncommitted([a, s]) && AllDue(e, REVERT_MS) && forall first :: Swept(e, first, REVERT_MS) == e;
  }

  /** The values to return to do not agree with each other, so no sweeps can put both back. */
  ghost predicate Blocked(e: Edge) { Sound(e) && Base(e).enterMin > Base(e).enterWindow }

  ghost predicate NeitherKeptNorRestarted(events: seq<Event>) {
    forall i :: 0 <= i < |events| ==> !events[i].Commit? && !events[i].Restart?
  }

  /**
   * Once the values to return to disagree, no number of applies, reverts, sweeps and saves ends the
   * recovery; a restart does, at the configured settings, and so does keeping what is pending.
   */
  lemma BlockedUntilKeptOrRestarted(e: Edge, events: seq<Event>, config: Options)
    requires Blocked(e) && NeitherKeptNorRestarted(events)
    ensures var blocked := Run(e, events);
      Blocked(blocked) && blocked.pending != map[] && Step(blocked, Restart(config)) == Configured(config) &&
      Step(Step(blocked, Commit(Min, true)), Commit(Window, true)) == blocked.(pending := map[])
  {
    RunStaysBlocked(e, events);
    NoneLeft(Step(Step(Run(e, events), Commit(Min, true)), Commit(Window, true)).pending);
  }

  lemma {:induction false} RunStaysBlocked(e: Edge, events: seq<Event>)
    requires Blocked(e) && NeitherKeptNorRestarted(events)
    ensures Blocked(Run(e, events))
  {
    if events != [] {
      RunStaysBlocked(e, events[..|events| - 1]);
      StepKeeps(Run(e, events[..|events| - 1]), events[|events| - 1]);
    }
  }

  /** A commit can make them disagree: window 5 to 10, minimum 3 to 8, keep the minimum. */
  lemma CommitCanBlock()
    ensures exists events :: Blocked(Run(Configured(Options(3, 5)), events))
  {
    var start := Configured(Options(3, 5));
    var a, b, c := Apply(1, Window, 10.0, 0, true), Apply(1, Min, 8.0, 0, true), Commit(Min, true);
    var window, min := Change(5, 1, REVERT_MS), Change(3, 1, REVERT_MS);
    assert [a, b, c][..2] == [a, b] && [a, b][..1] == [a] && [a][..0] == [];
    assert Run(start, [a]) == Edge(Options(3, 10), map[Window := window], {});
    assert Run(start, [a, b]) == Edge(Options(8, 10), map[Window := window, Min := min], {});
    assert Run(start, [a, b, c]) == Edge(Options(8, 10), map[Window := window], {});
    assert Base(Run(start, [a, b, c])) == Options(8, 5);
  }

  // ---- the engine's settings and the broker's pending changes ---------------------------------------

  class Tuner {
    var live: Options
    var pending: map<Field, Change>
    var saving: set<int>

    ghost function View(): Edge
      reads this
    {
      Edge(live, pending, saving)
    }

    constructor (config: Options)
      ensures View() == Configured(config)
    {
      live, pending, saving := config, map[], {};
    }

    /** setOptions for one setting. */
    method SetOption(f: Field, v: real) returns (ok: bool)
      modifies this`live
      ensures ok <==> Tuned(old(live), f, v).Some?
      ensures live == if ok then Tuned(old(live), f, v).value else old(live)
      ensures ok ==> live.Get(Other(f)) == old(live).Get(Other(f)) && Rounds(v, live.Get(f))
      ensures !ok <==> Clashes(old(live), f, v)
    {
      assert Rounds(v, (Clamped(v) + 0.5).Floor);
      RoundsOnce(v);
      var next := live.With(f, (Clamped(v) + 0.5).Floor);
      ok := next.enterMin <= next.enterWindow;
      if ok { live := next; }
    }

    method ApplyValue(uid: int, f: Field, v: real, now: int, saved: bool) returns (ok: bool)
      modifies this`live, this`pending
      ensures View() == Applied(old(View()), uid, f, v, now, saved)
      ensures !ok ==> View() == old(View())
      ensures ok ==>
        Rounds(v, live.Get(f)) &&
        live.Get(Other(f)) == old(live).Get(Other(f)) && live.enterMin <= live.enterWindow &&
        pending == old(pending)[f :=
          Change(if f in old(pending) then old(pending)[f].from else old(live).Get(f), uid, now + 900_000)]
      ensures ok <==> uid !in saving && 1.0 <= v <= 60.0 && saved && !Clashes(old(live), f, v)
    {
      ok := false;
      if uid in saving || v < 1.0 || v > 60.0 { return; }
      var existing := if f in pending then Some(pending[f]) else None;
      var from := if existing.Some? then existing.value.from else live.Get(f);
      pending := pending[f := Change(from, uid, now + REVERT_MS)];
      if saved { ok := SetOption(f, v); }
      if !ok {
        pending := if existing.Some? then pending[f := existing.value] else pending - {f};
        assert pending == old(pending);
      }
    }

    method RevertOne(uid: int, f: Field, now: int)
      modifies this`live, this`pending
      ensures View() == Reverted(old(View()), uid, f, now)
      ensures f !in old(pending) || uid in saving ==> live == old(live) && pending == old(pending)
      ensures f in old(pending) && uid !in saving ==>
        (live.Get(Other(f)) == old(live).Get(Other(f)) && Rounds(old(pending)[f].from as real, live.Get(f)) &&
         pending == old(pending) - {f}) ||
        (live == old(live) && pending == old(pending)[f := old(pending)[f].(revertAt := now + 5_000)])
    {
      if f !in pending || uid in saving { return; }
      var ok := SetOption(f, pending[f].from as real);
      pending := if ok then pending - {f} else pending[f := pending[f].(revertAt := now + RETRY_MS)];
    }

    method SweepDue(first: Field, now: int)
      modifies this`live, this`pending
      ensures View() == Swept(old(View()), first, now)
    {
      if first in pending && pending[first].revertAt <= now { RevertOne(pending[first].uid, first, now); }
      var second := Other(first);
      if second in pending && pending[second].revertAt <= now { RevertOne(pending[second].uid, second, now); }
    }
  }
}

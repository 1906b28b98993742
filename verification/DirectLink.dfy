/**
 * A node's direct session (src/edge/nodelink.ts): the filter that refuses delayed backlogs, and
 * the token buckets that limit its rate. Times are exact reals on a clock that does not go back.
 */
module DirectLink {
  import opened Wrappers

  const LAG_BUDGET_MS := 2000.0
  const UPTIME_WRAP := 0x1_0000_0000
  const HALF_WRAP := 0x8000_0000

  /** 200 parts per million of a time span. */
  function Drift(dt: real): real { dt * 0.0002 }

  /** What the filter remembers of the current boot of one node. */
  datatype Baseline = Baseline(boot: int, wraps: nat, lastUptime: int, offset: real, at: real)

  /** One packet: when it arrived, its boot, its 32-bit uptime, and the uptime it stands for. */
  datatype Arrival = Arrival(t: real, boot: int, uptime: int, age: nat)

  /** An admitted packet, with the uptime the filter worked out. */
  datatype Admitted = Admitted(t: real, boot: int, up: int, age: nat)

  predicate Stepped(b: Baseline, uptime: int) { uptime < b.lastUptime && b.lastUptime - uptime > HALF_WRAP }

  function Unwrapped(b: Baseline, uptime: int): int {
    (b.wraps + (if Stepped(b, uptime) then 1 else 0)) * UPTIME_WRAP + uptime
  }

  /** admit: the next baseline, and the uptime if the packet is let through. */
  function AdmitNext(b: Option<Baseline>, a: Arrival): (Option<Baseline>, Option<int>) {
    if b.None? || b.value.boot != a.boot then
      (Some(Baseline(a.boot, 0, a.uptime, a.t - a.uptime as real, a.t)), Some(a.uptime))
    else
      var s := b.value;
      var up := Unwrapped(s, a.uptime);
      var offset := a.t - up as real;
      var lag := offset - s.offset;
      if lag > LAG_BUDGET_MS then (b, None)
      else
        var drift := Drift(a.t - s.at);
        var next := if lag < 0.0 then offset else s.offset + (if lag < drift then lag else drift);
        (Some(Baseline(a.boot, s.wraps + (if Stepped(s, a.uptime) then 1 else 0), a.uptime, next, a.t)), Some(up))
  }

  /** The filter and the packets it let through, after a run of arrivals. */
  function Filtered(arrivals: seq<Arrival>): (Option<Baseline>, seq<Admitted>) {
    if arrivals == [] then (None, [])
    else
      var (b, log) := Filtered(arrivals[..|arrivals| - 1]);
      var a := arrivals[|arrivals| - 1];
      var (next, up) := AdmitNext(b, a);
      (next, if up.Some? then log + [Admitted(a.t, a.boot, up.value, a.age)] else log)
  }

  predicate InOrder(arrivals: seq<Arrival>) {
    forall i, j :: 0 <= i <= j < |arrivals| ==> arrivals[i].t <= arrivals[j].t
  }

  function Offset(p: Admitted): real { p.t - p.up as real }

  /** Packets i..j of the log are all from one boot. */
  predicate OneBoot(log: seq<Admitted>, i: nat, j: nat) {
    i <= j < |log| && forall k :: i <= k <= j ==> log[k].boot == log[i].boot
  }

  ghost predicate BaselineBelow(b: Option<Baseline>, log: seq<Admitted>) {
    (b.None? <==> log == []) &&
    (b.Some? ==>
      b.value.boot == log[|log| - 1].boot && b.value.at == log[|log| - 1].t &&
      forall i: nat :: OneBoot(log, i, |log| - 1) ==>
        b.value.offset <= Offset(log[i]) + Drift(b.value.at - log[i].t))
  }

  ghost predicate LagBounded(log: seq<Admitted>) {
    forall i: nat, j: nat :: i < j && OneBoot(log, i, j) ==>
      Offset(log[j]) - Offset(log[i]) <= LAG_BUDGET_MS + Drift(log[j].t - log[i].t)
  }

  lemma OneBootSnoc(log: seq<Admitted>, p: Admitted, i: nat, j: nat)
    requires j < |log|
    ensures OneBoot(log + [p], i, j) == OneBoot(log, i, j)
  {
    var next := log + [p];
    assert forall k :: 0 <= k < |log| ==> next[k] == log[k];
  }

  /** One admission keeps the baseline below every packet of the boot, and the bound. */
  lemma AdmitKeeps(b: Option<Baseline>, log: seq<Admitted>, a: Arrival)
    requires BaselineBelow(b, log) && LagBounded(log) && AdmitNext(b, a).1.Some?
    requires log != [] ==> log[|log| - 1].t <= a.t
    ensures var more := log + [Admitted(a.t, a.boot, AdmitNext(b, a).1.value, a.age)];
      BaselineBelow(AdmitNext(b, a).0, more) && LagBounded(more)
  {
    var (next, up) := AdmitNext(b, a);
    var p := Admitted(a.t, a.boot, up.value, a.age);
    var more := log + [p];
    assert forall k :: 0 <= k < |log| ==> more[k] == log[k];
    assert more[|log|] == p;
    forall i: nat | i < |log| && OneBoot(more, i, |log|)
      ensures next.value.offset <= Offset(more[i]) + Drift(p.t - more[i].t)
      ensures Offset(p) - Offset(more[i]) <= LAG_BUDGET_MS + Drift(p.t - more[i].t)
    {
      assert more[|log| - 1].boot == more[i].boot;
      OneBootSnoc(log, p, i, |log| - 1);
    }
    forall i: nat, j: nat | i < j && OneBoot(more, i, j)
      ensures Offset(more[j]) - Offset(more[i]) <= LAG_BUDGET_MS + Drift(more[j].t - more[i].t)
    {
      if j < |log| { OneBootSnoc(log, p, i, j); }
    }
  }

  /** The last packet let through did not come after the last arrival. */
  predicate LogBefore(log: seq<Admitted>, arrivals: seq<Arrival>) {
    log != [] ==> arrivals != [] && log[|log| - 1].t <= arrivals[|arrivals| - 1].t
  }

  ghost predicate FilterSafe(arrivals: seq<Arrival>) {
    var (b, log) := Filtered(arrivals);
    BaselineBelow(b, log) && LagBounded(log) && LogBefore(log, arrivals)
  }

  lemma FilterStep(arrivals: seq<Arrival>, a: Arrival)
    requires FilterSafe(arrivals) && (arrivals != [] ==> arrivals[|arrivals| - 1].t <= a.t)
    ensures FilterSafe(arrivals + [a])
  {
    var more := arrivals + [a];
    var (b, log) := Filtered(arrivals);
    assert more[..|more| - 1] == arrivals;
    var (next, up) := AdmitNext(b, a);
    if up.Some? {
      AdmitKeeps(b, log, a);
      assert Filtered(more) == (next, log + [Admitted(a.t, a.boot, up.value, a.age)]);
    } else {
      assert Filtered(more) == (b, log);
    }
  }

  lemma {:induction false} FilterInvariant(arrivals: seq<Arrival>)
    requires InOrder(arrivals)
    ensures FilterSafe(arrivals)
  {
    if arrivals == [] {
      FilterStart();
    } else {
      var rest, a := arrivals[..|arrivals| - 1], arrivals[|arrivals| - 1];
      FilterInvariant(rest);
      FilterStep(rest, a);
      assert rest + [a] == arrivals;
    }
  }

  lemma FilterStart()
    ensures FilterSafe([])
  {
  }

  /**
   * Over any run: between two packets admitted in one boot the clock offset grows by at most the
   * budget plus the drift allowance for the time between them, so no backlog drags it along.
   */
  lemma BacklogCannotDrag(arrivals: seq<Arrival>, i: nat, j: nat)
    requires InOrder(arrivals) && i < j && OneBoot(Filtered(arrivals).1, i, j)
    ensures var log := Filtered(arrivals).1;
      Offset(log[j]) - Offset(log[i]) <= LAG_BUDGET_MS + Drift(log[j].t - log[i].t)
  {
    FilterInvariant(arrivals);
  }

  // ---- the unwrapped uptime ------------------------------------------------------------

  /** A step is read correctly exactly when it is under half a wrap or no wrap happened, however long it was. */
  lemma UnwrapExact(b: Baseline, was: nat, now: nat)
    requires was <= now && b.lastUptime == was % UPTIME_WRAP
    ensures Unwrapped(b, now % UPTIME_WRAP) - (b.wraps * UPTIME_WRAP + b.lastUptime) == now - was <==>
            now - was < HALF_WRAP || now / UPTIME_WRAP == was / UPTIME_WRAP
  {
    var r0, r := was % UPTIME_WRAP, now % UPTIME_WRAP;
    assert was == (was / UPTIME_WRAP) * UPTIME_WRAP + r0 && now == (now / UPTIME_WRAP) * UPTIME_WRAP + r;
  }

  /** So half a wrap that ends on the wrap itself is read as half a wrap backwards. */
  lemma UnwrapMisses(b: Baseline)
    requires b.lastUptime == HALF_WRAP
    ensures b.lastUptime == HALF_WRAP % UPTIME_WRAP
    ensures Unwrapped(b, UPTIME_WRAP % UPTIME_WRAP) - (b.wraps * UPTIME_WRAP + b.lastUptime) == -HALF_WRAP
    ensures UPTIME_WRAP - HALF_WRAP == HALF_WRAP
  {
  }

  /** The packets carry the low 32 bits of uptimes that rise by less than half a wrap. */
  ghost predicate TrueAges(arrivals: seq<Arrival>) {
    (forall k :: 0 <= k < |arrivals| ==> arrivals[k].uptime == arrivals[k].age % UPTIME_WRAP)
  }

  ghost predicate Dense(log: seq<Admitted>) {
    forall j, k :: 0 <= j && k == j + 1 && k < |log| && log[j].boot == log[k].boot ==>
      log[j].age <= log[k].age < log[j].age + HALF_WRAP
  }

  /** From one admitted packet of a boot to the next, the worked-out uptime moves as the true one. */
  ghost predicate TrueSteps(log: seq<Admitted>) {
    forall j, k :: 0 <= j && k == j + 1 && k < |log| && log[j].boot == log[k].boot ==>
      log[k].up - log[j].up == log[k].age - log[j].age
  }

  ghost predicate Remembers(b: Option<Baseline>, log: seq<Admitted>) {
    (b.None? <==> log == []) &&
    (b.Some? ==> var p := log[|log| - 1];
      b.value.boot == p.boot && b.value.lastUptime == p.age % UPTIME_WRAP &&
      b.value.wraps * UPTIME_WRAP + b.value.lastUptime == p.up)
  }

  lemma {:induction false} AgesFollow(arrivals: seq<Arrival>)
    requires TrueAges(arrivals) && Dense(Filtered(arrivals).1)
    ensures Remembers(Filtered(arrivals).0, Filtered(arrivals).1)
    ensures TrueSteps(Filtered(arrivals).1)
  {
    if arrivals != [] {
      var rest, a := arrivals[..|arrivals| - 1], arrivals[|arrivals| - 1];
      var (b, log) := Filtered(rest);
      var (next, up) := AdmitNext(b, a);
      var more := Filtered(arrivals).1;
      assert forall k :: 0 <= k < |log| ==> more[k] == log[k];
      assert Dense(log) by {
        forall j, k | 0 <= j && k == j + 1 && k < |log| && log[j].boot == log[k].boot
          ensures log[j].age <= log[k].age < log[j].age + HALF_WRAP
        {
          assert more[k] == log[k] && more[j] == log[j];
        }
      }
      assert TrueAges(rest);
      AgesFollow(rest);
      forall j, k | 0 <= j && k == j + 1 && k < |more| && more[j].boot == more[k].boot
        ensures more[k].up - more[j].up == more[k].age - more[j].age
      {
        if k < |log| {
          assert log[k] == more[k] && log[j] == more[j];
        } else {
          var p := log[|log| - 1];
          assert more[k] == Admitted(a.t, a.boot, up.value, a.age) && more[j] == p;
          assert b.Some? && b.value.boot == p.boot;
          UnwrapExact(b.value, p.age, a.age);
          assert up.value == Unwrapped(b.value, a.uptime);
          assert up.value - p.up == a.age - p.age;
        }
      }
    }
  }

  /** Over any run whose admitted packets are less than 2^31 ms apart, time differences are true. */
  lemma {:induction false} UptimesAreTrue(arrivals: seq<Arrival>, i: nat, j: nat)
    requires TrueAges(arrivals) && Dense(Filtered(arrivals).1) && OneBoot(Filtered(arrivals).1, i, j)
    ensures var log := Filtered(arrivals).1; log[j].up - log[i].up == log[j].age - log[i].age
    decreases j
  {
    if i < j {
      AgesFollow(arrivals);
      UptimesAreTrue(arrivals, i, j - 1);
      var log := Filtered(arrivals).1;
      assert log[j].up - log[j - 1].up == log[j].age - log[j - 1].age;
    }
  }

  // ---- what the filter must let through ------------------------------------------------------

  /** One boot of an honest node: true uptimes, less than half a wrap apart, no delay beyond the budget. */
  ghost predicate Prompt(arrivals: seq<Arrival>, base: real) {
    (forall k :: 0 <= k < |arrivals| ==> PromptOne(arrivals, base, k)) &&
    forall j, k :: 0 <= j && k == j + 1 && k < |arrivals| ==>
      arrivals[j].age <= arrivals[k].age < arrivals[j].age + HALF_WRAP
  }

  ghost predicate PromptOne(arrivals: seq<Arrival>, base: real, k: nat)
    requires k < |arrivals|
  {
    var a := arrivals[k];
    a.boot == arrivals[0].boot && a.uptime == a.age % UPTIME_WRAP &&
    base <= a.t - a.age as real <= base + 2000.0
  }

  /** The baseline after such a run: unwrapped rightly, and not below the node's own offset. */
  ghost predicate Tracks(arrivals: seq<Arrival>, base: real, b: Option<Baseline>)
    requires arrivals != []
  {
    var first, last := arrivals[0], arrivals[|arrivals| - 1];
    b.Some? && b.value.boot == first.boot && b.value.at == last.t && b.value.lastUptime == last.uptime &&
    b.value.wraps * UPTIME_WRAP + b.value.lastUptime == last.age - (first.age - first.uptime) &&
    b.value.offset >= base + (first.age - first.uptime) as real
  }

  lemma PromptFirst(arrivals: seq<Arrival>, base: real)
    requires |arrivals| == 1 && Prompt(arrivals, base)
    ensures |Filtered(arrivals).1| == 1 && Tracks(arrivals, base, Filtered(arrivals).0)
  {
    var a := arrivals[0];
    assert PromptOne(arrivals, base, 0);
    assert arrivals[..0] == [];
    assert AdmitNext(None, a) == (Some(Baseline(a.boot, 0, a.uptime, a.t - a.uptime as real, a.t)), Some(a.uptime));
    assert a.t - a.uptime as real == a.t - a.age as real + (a.age - a.uptime) as real;
  }

  /** One more packet: it is within the budget of the baseline, since that is not below the node's offset. */
  lemma PromptNext(b: Baseline, a: Arrival, was: nat, c: int, base: real)
    requires b.boot == a.boot && b.at <= a.t && a.uptime == a.age % UPTIME_WRAP && b.lastUptime == was % UPTIME_WRAP
    requires was <= a.age < was + HALF_WRAP && b.wraps * UPTIME_WRAP + b.lastUptime == was - c
    requires base <= a.t - a.age as real <= base + 2000.0 && b.offset >= base + c as real
    ensures var (next, up) := AdmitNext(Some(b), a);
      up == Some(a.age - c) && next.Some? && next.value.boot == a.boot && next.value.at == a.t &&
      next.value.lastUptime == a.uptime && next.value.wraps * UPTIME_WRAP + a.uptime == a.age - c &&
      next.value.offset >= base + c as real
  {
    UnwrapExact(b, was, a.age);
    assert Unwrapped(b, a.uptime) == a.age - c;
    assert a.t - (a.age - c) as real == a.t - a.age as real + c as real;
  }

  /** No packet of an honest node is refused, however the delays within the budget are spread. */
  lemma {:induction false} PromptPasses(arrivals: seq<Arrival>, base: real)
    requires arrivals != [] && InOrder(arrivals) && Prompt(arrivals, base)
    ensures |Filtered(arrivals).1| == |arrivals| && Tracks(arrivals, base, Filtered(arrivals).0)
  {
    if |arrivals| == 1 {
      PromptFirst(arrivals, base);
    } else {
      var rest, a := arrivals[..|arrivals| - 1], arrivals[|arrivals| - 1];
      assert Prompt(rest, base) by {
        forall k | 0 <= k < |rest| ensures PromptOne(rest, base, k) { assert PromptOne(arrivals, base, k); }
        forall j, k | 0 <= j && k == j + 1 && k < |rest| ensures rest[j].age <= rest[k].age < rest[j].age + HALF_WRAP {
          assert arrivals[j].age <= arrivals[k].age < arrivals[j].age + HALF_WRAP;
        }
      }
      PromptPasses(rest, base);
      var last := rest[|rest| - 1];
      assert PromptOne(arrivals, base, |rest|) && PromptOne(arrivals, base, |rest| - 1);
      assert last == arrivals[|rest| - 1] && last.age <= a.age < last.age + HALF_WRAP && last.t <= a.t;
      PromptNext(Filtered(rest).0.value, a, last.age, arrivals[0].age - arrivals[0].uptime, base);
    }
  }

  /** The filter for all nodes. */
  class LagFilter {
    var baselines: map<int, Baseline>

    ghost function Of(uid: int): Option<Baseline> reads this {
      if uid in baselines then Some(baselines[uid]) else None
    }

    constructor ()
      ensures baselines == map[]
    {
      baselines := map[];
    }

    method Admit(uid: int, a: Arrival) returns (ok: bool)
      modifies this
      ensures Of(uid) == AdmitNext(old(Of(uid)), a).0
      ensures ok <==> AdmitNext(old(Of(uid)), a).1.Some?
      ensures forall u :: u != uid ==> Of(u) == old(Of(u))
      ensures uid !in old(baselines) || old(baselines)[uid].boot != a.boot ==>
        ok && baselines == old(baselines)[uid := Baseline(a.boot, 0, a.uptime, a.t - a.uptime as real, a.t)]
      ensures uid in old(baselines) && old(baselines)[uid].boot == a.boot ==>
        var b := old(baselines)[uid];
        var wrapped := a.uptime < b.lastUptime && b.lastUptime - a.uptime > 0x8000_0000;
        var wraps := if wrapped then b.wraps + 1 else b.wraps;
        var lag := a.t - (wraps * 0x1_0000_0000 + a.uptime) as real - b.offset;
        (ok <==> lag <= 2000.0) &&
        baselines == (
          if ok then
            old(baselines)[uid := Baseline(a.boot, wraps, a.uptime,
              b.offset + (if lag < (a.t - b.at) * 0.0002 || lag < 0.0 then lag else (a.t - b.at) * 0.0002), a.t)]
          else old(baselines))
    {
      if uid !in baselines || baselines[uid].boot != a.boot {
        baselines := baselines[uid := Baseline(a.boot, 0, a.uptime, a.t - a.uptime as real, a.t)];
        return true;
      }
      var b := baselines[uid];
      var wraps := b.wraps;
      if a.uptime < b.lastUptime && b.lastUptime - a.uptime > HALF_WRAP { wraps := wraps + 1; }
      var offset := a.t - (wraps * UPTIME_WRAP + a.uptime) as real;
      var lag := offset - b.offset;
      if lag > LAG_BUDGET_MS { return false; }
      var drift := Drift(a.t - b.at);
      var next := offset;
      if lag >= 0.0 { next := b.offset + (if lag < drift then lag else drift); }
      baselines := baselines[uid := Baseline(b.boot, wraps, a.uptime, next, a.t)];
      return true;
    }
  }

  // ---- the rate limit ---------------------------------------------------------------------

  datatype Limits = Limits(messagesPerSec: real, bytesPerSec: real)

  datatype Message = Message(t: real, bytes: real)

  datatype Tokens = Tokens(msgs: real, bytes: real, at: real)

  function Lesser(a: real, b: real): real { if a < b then a else b }

  /** One bucket after dt seconds. */
  function Filled(level: real, dt: real, rate: real): real { Lesser(rate * 2.0, level + dt * rate) }

  /** Two seconds deep, refilled by the time that passed. */
  function Refill(k: Tokens, t: real, l: Limits): Tokens {
    var dt := (if t > k.at then t - k.at else 0.0) / 1000.0;
    Tokens(Filled(k.msgs, dt, l.messagesPerSec), Filled(k.bytes, dt, l.bytesPerSec), t)
  }

  /** withinRate: both buckets must cover the message. */
  function Spend(k: Tokens, m: Message, l: Limits): (Tokens, bool) {
    var r := Refill(k, m.t, l);
    if r.msgs >= 1.0 && r.bytes >= m.bytes then (Tokens(r.msgs - 1.0, r.bytes - m.bytes, r.at), true) else (r, false)
  }

  /** How many messages, and bytes, of a run are let through. */
  function Passed(k: Tokens, ms: seq<Message>, l: Limits): (real, real)
    decreases |ms|
  {
    if ms == [] then (0.0, 0.0)
    else
      var (next, ok) := Spend(k, ms[0], l);
      var (n, b) := Passed(next, ms[1..], l);
      if ok then (n + 1.0, b + ms[0].bytes) else (n, b)
  }

  ghost predicate Timely(ms: seq<Message>) {
    (forall i :: 0 <= i < |ms| ==> ms[i].bytes >= 0.0) && forall i, j :: 0 <= i <= j < |ms| ==> ms[i].t <= ms[j].t
  }

  /** What a bucket earns between two moments. */
  function Earn(rate: real, a: real, b: real): real { (b - a) / 1000.0 * rate }

  lemma Earned(rate: real, a: real, b: real, c: real)
    requires rate >= 0.0 && a <= b <= c
    ensures Earn(rate, a, b) + Earn(rate, b, c) == Earn(rate, a, c)
    ensures Earn(rate, a, b) >= 0.0 && Earn(rate, b, c) >= 0.0
  {
    var x, y := (b - a) / 1000.0, (c - b) / 1000.0;
    assert (c - a) / 1000.0 == x + y;
    assert (x + y) * rate == x * rate + y * rate;
  }

  /** Refilled by what the time has earned, up to two seconds' worth; by nothing while the clock is behind. */
  lemma RefillIs(k: Tokens, t: real, l: Limits)
    ensures k.at <= t ==>
      Refill(k, t, l) == Tokens(Lesser(l.messagesPerSec * 2.0, k.msgs + Earn(l.messagesPerSec, k.at, t)),
                                Lesser(l.bytesPerSec * 2.0, k.bytes + Earn(l.bytesPerSec, k.at, t)), t)
    ensures t <= k.at && k.msgs <= l.messagesPerSec * 2.0 && k.bytes <= l.bytesPerSec * 2.0 ==>
      Refill(k, t, l) == k.(at := t)
  {
    assert 0.0 * l.messagesPerSec == 0.0 && 0.0 * l.bytesPerSec == 0.0;
  }

  /** One bucket, one message, then the rest: what passes stays within what there was and is earned. */
  lemma BucketStep(level: real, spent: real, cap: real, refilled: real, earned: real, later: real, rest: real)
    requires spent >= 0.0 && refilled == Lesser(cap, level - spent + earned) && rest <= refilled + later
    ensures rest + spent <= level + (earned + later)
  {}

  /** What passes is at most what was in the buckets plus what the run's duration adds. */
  lemma {:induction false} PassedBound(k: Tokens, ms: seq<Message>, l: Limits)
    requires Timely(ms) && ms != [] && l.messagesPerSec >= 0.0 && l.bytesPerSec >= 0.0
    requires k.msgs >= 0.0 && k.bytes >= 0.0 && k.at <= ms[0].t
    ensures var r, t0, t1 := Refill(k, ms[0].t, l), ms[0].t, ms[|ms| - 1].t;
      Passed(k, ms, l).0 <= r.msgs + Earn(l.messagesPerSec, t0, t1) &&
        Passed(k, ms, l).1 <= r.bytes + Earn(l.bytesPerSec, t0, t1)
    decreases |ms|
  {
    var r := Refill(k, ms[0].t, l);
    var (next, ok) := Spend(k, ms[0], l);
    var rest, t0, t1 := ms[1..], ms[0].t, ms[|ms| - 1].t;
    Earned(l.messagesPerSec, k.at, t0, t1);
    Earned(l.bytesPerSec, k.at, t0, t1);
    RefillIs(k, t0, l);
    if rest == [] {
      assert Passed(next, rest, l) == (0.0, 0.0);
    } else {
      assert rest[0] == ms[1] && rest[|rest| - 1] == ms[|ms| - 1];
      assert next.msgs >= 0.0 && next.bytes >= 0.0 && next.at == t0;
      PassedBound(next, rest, l);
      RefillIs(next, ms[1].t, l);
      Earned(l.messagesPerSec, t0, ms[1].t, t1);
      Earned(l.bytesPerSec, t0, ms[1].t, t1);
      var again := Refill(next, ms[1].t, l);
      BucketStep(r.msgs, if ok then 1.0 else 0.0, l.messagesPerSec * 2.0, again.msgs,
                 Earn(l.messagesPerSec, t0, ms[1].t),
                 Earn(l.messagesPerSec, ms[1].t, t1), Passed(next, rest, l).0);
      BucketStep(r.bytes, if ok then ms[0].bytes else 0.0, l.bytesPerSec * 2.0, again.bytes,
                 Earn(l.bytesPerSec, t0, ms[1].t),
                 Earn(l.bytesPerSec, ms[1].t, t1), Passed(next, rest, l).1);
    }
  }

  /**
   * In any stretch of a session's messages, at most two seconds' worth plus the rate over its
   * duration passes, in messages and in bytes, whatever came before.
   */
  lemma RateLimited(k: Tokens, ms: seq<Message>, l: Limits)
    requires Timely(ms) && ms != [] && l.messagesPerSec >= 0.0 && l.bytesPerSec >= 0.0
    requires k.msgs >= 0.0 && k.bytes >= 0.0 && k.at <= ms[0].t
    ensures var t0, t1 := ms[0].t, ms[|ms| - 1].t;
      Passed(k, ms, l).0 <= l.messagesPerSec * 2.0 + Earn(l.messagesPerSec, t0, t1) &&
      Passed(k, ms, l).1 <= l.bytesPerSec * 2.0 + Earn(l.bytesPerSec, t0, t1)
  {
    PassedBound(k, ms, l);
  }

  /** Each message comes when both rates have earned it since the one before. */
  predicate Steady(at: real, ms: seq<Message>, l: Limits) {
    forall i :: 0 <= i < |ms| ==> DueAt(at, ms, l, i)
  }

  predicate DueAt(at: real, ms: seq<Message>, l: Limits, i: nat)
    requires i < |ms|
  {
    var last, m := if i == 0 then at else ms[i - 1].t, ms[i];
    last <= m.t && Earn(l.messagesPerSec, last, m.t) >= 1.0 && Earn(l.bytesPerSec, last, m.t) >= m.bytes &&
    0.0 <= m.bytes <= l.bytesPerSec * 2.0
  }

  /** A sender that keeps to the rates is never refused. */
  lemma {:induction false} SteadyPasses(k: Tokens, ms: seq<Message>, l: Limits)
    requires k.msgs >= 0.0 && k.bytes >= 0.0 && l.messagesPerSec * 2.0 >= 1.0 && Steady(k.at, ms, l)
    ensures Passed(k, ms, l).0 == |ms| as real
    decreases |ms|
  {
    if ms != [] {
      assert DueAt(k.at, ms, l, 0);
      RefillIs(k, ms[0].t, l);
      var (next, ok) := Spend(k, ms[0], l);
      var rest := ms[1..];
      assert Steady(next.at, rest, l) by {
        forall i | 0 <= i < |rest| ensures DueAt(next.at, rest, l, i) {
          var n := i + 1;
          assert DueAt(k.at, ms, l, n);
        }
      }
      SteadyPasses(next, rest, l);
    }
  }

  class Buckets {
    const limits: Limits
    var msgs: real
    var bytes: real
    var at: real

    ghost function Now(): Tokens reads this { Tokens(msgs, bytes, at) }

    constructor (l: Limits, t: real)
      ensures limits == l && Now() == Tokens(l.messagesPerSec * 2.0, l.bytesPerSec * 2.0, t)
    {
      limits, msgs, bytes, at := l, l.messagesPerSec * 2.0, l.bytesPerSec * 2.0, t;
    }

    method WithinRate(m: Message) returns (ok: bool)
      modifies this
      ensures (Now(), ok) == Spend(old(Now()), m, limits)
      ensures var r := Refill(old(Now()), m.t, limits);
        (ok <==> 1.0 <= r.msgs && m.bytes <= r.bytes) && at == m.t &&
        msgs == (if ok then r.msgs - 1.0 else r.msgs) && bytes == if ok then r.bytes - m.bytes else r.bytes
    {
      var dt := (if m.t > at then m.t - at else 0.0) / 1000.0;
      msgs := Filled(msgs, dt, limits.messagesPerSec);
      bytes := Filled(bytes, dt, limits.bytesPerSec);
      at := m.t;
      if msgs >= 1.0 && bytes >= m.bytes {
        msgs, bytes := msgs - 1.0, bytes - m.bytes;
        return true;
      }
      return false;
    }
  }
}

/**
 * From people on the floor to taken seats (src/edge/occupancy.ts): the greedy assignment of
 * each frame, and the hysteresis that smooths it over frames.
 */
module Seating {
  /** One blob and how many people it stands for. */
  datatype Person = Person(x: real, y: real, persons: int)

  datatype Seat = Seat(x: real, y: real)

  /** A blob within reach of a seat; `d` is the squared distance, which sorts like the distance. */
  datatype Pair = Pair(d: real, blob: nat, seat: nat)

  const SECOND_SEAT_CM := 60.0

  function Distance2(p: Person, s: Seat): real { (s.x - p.x) * (s.x - p.x) + (s.y - p.y) * (s.y - p.y) }

  /** A blob of several people may reach one seat further. */
  predicate Reaches(p: Person, s: Seat, radius: real) {
    var r := radius + (if p.persons > 1 then SECOND_SEAT_CM else 0.0);
    r >= 0.0 && Distance2(p, s) <= r * r
  }

  // ---- the pairs in reach ------------------------------------------------------------

  ghost predicate IsPair(blobs: seq<Person>, seats: seq<Seat>, radius: real, p: Pair) {
    p.blob < |blobs| && p.seat < |seats| && Reaches(blobs[p.blob], seats[p.seat], radius) &&
    p.d == Distance2(blobs[p.blob], seats[p.seat])
  }

  /** Every pair in reach once, and nothing else. */
  ghost predicate AllPairs(blobs: seq<Person>, seats: seq<Seat>, radius: real, pairs: seq<Pair>) {
    (forall k :: 0 <= k < |pairs| ==> IsPair(blobs, seats, radius, pairs[k])) &&
    (forall p :: IsPair(blobs, seats, radius, p) ==> p in pairs) &&
    (forall j, k :: 0 <= j < k < |pairs| ==> pairs[j] != pairs[k])
  }

  /** The pairs of the blobs before b, then those of blob b with the seats before n, in order. */
  function PairsUpTo(blobs: seq<Person>, seats: seq<Seat>, radius: real, b: nat, n: nat): seq<Pair>
    requires b <= |blobs| && n <= |seats| && (b == |blobs| ==> n == 0)
    decreases b, n
  {
    if n > 0 then
      PairsUpTo(blobs, seats, radius, b, n - 1) +
      (if Reaches(blobs[b], seats[n - 1], radius) then [Pair(Distance2(blobs[b], seats[n - 1]), b, n - 1)] else [])
    else if b > 0 then PairsUpTo(blobs, seats, radius, b - 1, |seats|)
    else []
  }

  function PairsOf(blobs: seq<Person>, seats: seq<Seat>, radius: real): seq<Pair> {
    PairsUpTo(blobs, seats, radius, |blobs|, 0)
  }

  predicate Before(p: Pair, b: nat, n: nat) { p.blob < b || (p.blob == b && p.seat < n) }

  lemma {:induction false} PairsUpToAre(blobs: seq<Person>, seats: seq<Seat>, radius: real, b: nat, n: nat)
    requires b <= |blobs| && n <= |seats| && (b == |blobs| ==> n == 0)
    ensures var pairs := PairsUpTo(blobs, seats, radius, b, n);
      (forall k :: 0 <= k < |pairs| ==> IsPair(blobs, seats, radius, pairs[k]) && Before(pairs[k], b, n)) &&
      (forall p :: IsPair(blobs, seats, radius, p) && Before(p, b, n) ==> p in pairs) &&
      (forall j, k :: 0 <= j < k < |pairs| ==> pairs[j] != pairs[k])
    decreases b, n
  {
    if n > 0 {
      PairsUpToAre(blobs, seats, radius, b, n - 1);
    } else if b > 0 {
      PairsUpToAre(blobs, seats, radius, b - 1, |seats|);
      assert PairsUpTo(blobs, seats, radius, b, n) == PairsUpTo(blobs, seats, radius, b - 1, |seats|);
      assert forall p :: IsPair(blobs, seats, radius, p) ==> (Before(p, b, 0) <==> Before(p, b - 1, |seats|));
    }
  }

  /** The two loops: every pair in reach, blob by blob and seat by seat. */
  method PairsInReach(blobs: seq<Person>, seats: seq<Seat>, radius: real) returns (pairs: seq<Pair>)
    ensures pairs == PairsOf(blobs, seats, radius) && AllPairs(blobs, seats, radius, pairs)
    ensures forall p :: p in pairs <==>
      p.blob < |blobs| && p.seat < |seats| &&
      var dx, dy := seats[p.seat].x - blobs[p.blob].x, seats[p.seat].y - blobs[p.blob].y;
      var reach := if blobs[p.blob].persons > 1 then radius + 60.0 else radius;
      p.d == dx * dx + dy * dy && 0.0 <= reach && p.d <= reach * reach
  {
    pairs := [];
    for b := 0 to |blobs|
      invariant pairs == PairsUpTo(blobs, seats, radius, b, 0)
    {
      for s := 0 to |seats|
        invariant pairs == PairsUpTo(blobs, seats, radius, b, s)
      {
        if Reaches(blobs[b], seats[s], radius) {
          pairs := pairs + [Pair(Distance2(blobs[b], seats[s]), b, s)];
        }
      }
    }
    PairsUpToAre(blobs, seats, radius, |blobs|, 0);
    forall p ensures p in pairs <==> IsPair(blobs, seats, radius, p) {
      if p in pairs { var k :| 0 <= k < |pairs| && pairs[k] == p; }
    }
  }

  // ---- sorting -------------------------------------------------------------------------

  predicate Sorted(ps: seq<Pair>) { forall i, j :: 0 <= i < j < |ps| ==> ps[i].d <= ps[j].d }

  /** Put one pair behind those not further away: the order a stable sort gives. */
  function Insert(ps: seq<Pair>, p: Pair): (r: seq<Pair>)
    requires Sorted(ps)
    ensures Sorted(r) && forall k :: 0 <= k < |r| ==> r[k] == p || r[k] in ps
  {
    if ps == [] || p.d < ps[0].d then [p] + ps else [ps[0]] + Insert(ps[1..], p)
  }

  lemma {:induction false} InsertAdds(ps: seq<Pair>, p: Pair)
    requires Sorted(ps)
    ensures multiset(Insert(ps, p)) == multiset(ps) + multiset{p}
  {
    if ps != [] && p.d >= ps[0].d {
      InsertAdds(ps[1..], p);
      assert ps == [ps[0]] + ps[1..];
    }
  }

  function SortByDistance(ps: seq<Pair>): (r: seq<Pair>)
    ensures Sorted(r) && multiset(r) == multiset(ps)
  {
    if ps == [] then []
    else
      assert ps == ps[..|ps| - 1] + [ps[|ps| - 1]];
      InsertAdds(SortByDistance(ps[..|ps| - 1]), ps[|ps| - 1]);
      Insert(SortByDistance(ps[..|ps| - 1]), ps[|ps| - 1])
  }

  // ---- the greedy choice -----------------------------------------------------------------

  function CountBlob(claims: seq<Pair>, b: nat): nat {
    if claims == [] then 0
    else CountBlob(claims[..|claims| - 1], b) + (if claims[|claims| - 1].blob == b then 1 else 0)
  }

  predicate TakenBy(claims: seq<Pair>, seat: nat) { exists k :: 0 <= k < |claims| && claims[k].seat == seat }

  /** The pair may be claimed: its blob has a person left and its seat is free. */
  predicate Free(blobs: seq<Person>, claims: seq<Pair>, p: Pair) {
    p.blob < |blobs| && CountBlob(claims, p.blob) < blobs[p.blob].persons && !TakenBy(claims, p.seat)
  }

  /** The claims after going through the pairs in order. */
  function Claims(blobs: seq<Person>, pairs: seq<Pair>): seq<Pair> {
    if pairs == [] then []
    else
      var claims, p := Claims(blobs, pairs[..|pairs| - 1]), pairs[|pairs| - 1];
      if Free(blobs, claims, p) then claims + [p] else claims
  }

  function SeatsOf(claims: seq<Pair>): set<nat> { set k | 0 <= k < |claims| :: claims[k].seat }

  /** How many people each blob has left. */
  ghost predicate PeopleLeft(blobs: seq<Person>, claims: seq<Pair>, remaining: seq<int>) {
    |remaining| == |blobs| && forall b :: 0 <= b < |blobs| ==> remaining[b] == blobs[b].persons - CountBlob(claims, b)
  }

  lemma ClaimsNext(blobs: seq<Person>, pairs: seq<Pair>, i: nat)
    requires i < |pairs|
    ensures var was := Claims(blobs, pairs[..i]);
      Claims(blobs, pairs[..i + 1]) == if Free(blobs, was, pairs[i]) then was + [pairs[i]] else was
  {
    assert pairs[..i + 1][..i] == pairs[..i];
  }

  /** assignSeats, over pairs already sorted: a person count per blob and a set of seats. */
  method Assign(blobs: seq<Person>, pairs: seq<Pair>) returns (taken: set<nat>)
    requires forall k :: 0 <= k < |pairs| ==> pairs[k].blob < |blobs|
    ensures taken == SeatsOf(Claims(blobs, pairs))
  {
    var remaining := seq(|blobs|, b requires 0 <= b < |blobs| => blobs[b].persons);
    taken := {};
    ghost var claims: seq<Pair> := [];
    for i := 0 to |pairs|
      invariant claims == Claims(blobs, pairs[..i])
      invariant PeopleLeft(blobs, claims, remaining) && taken == SeatsOf(claims)
    {
      ClaimsNext(blobs, pairs, i);
      var p := pairs[i];
      if remaining[p.blob] > 0 && p.seat !in taken {
        assert Free(blobs, claims, p);
        ClaimSnoc(claims, p);
        claims := claims + [p];
        taken := taken + {p.seat};
        remaining := remaining[p.blob := remaining[p.blob] - 1];
      } else {
        assert !Free(blobs, claims, p);
      }
    }
    assert pairs[..|pairs|] == pairs;
  }

  lemma ClaimSnoc(claims: seq<Pair>, p: Pair)
    ensures SeatsOf(claims + [p]) == SeatsOf(claims) + {p.seat}
    ensures forall b :: CountBlob(claims + [p], b) == CountBlob(claims, b) + (if p.blob == b then 1 else 0)
  {
    var more := claims + [p];
    assert more[..|claims|] == claims;
    forall s | s in SeatsOf(claims) ensures s in SeatsOf(more) {
      var k :| 0 <= k < |claims| && claims[k].seat == s;
      assert more[k].seat == s;
    }
    assert more[|claims|].seat in SeatsOf(more);
  }

  // ---- what the claims are worth -----------------------------------------------------------

  function Capacity(blobs: seq<Person>, b: nat): nat
    requires b < |blobs|
  {
    if blobs[b].persons < 0 then 0 else blobs[b].persons
  }

  /** Each seat at most once, each blob at most once per person, only pairs in reach. */
  ghost predicate Feasible(blobs: seq<Person>, pairs: seq<Pair>, a: seq<Pair>) {
    (forall k :: 0 <= k < |a| ==> a[k] in pairs && a[k].blob < |blobs|) &&
    (forall j, k :: 0 <= j < k < |a| ==> a[j].seat != a[k].seat) &&
    (forall b :: 0 <= b < |blobs| ==> CountBlob(a, b) <= Capacity(blobs, b))
  }

  /** Where the claims of a blob stand. */
  function Places(claims: seq<Pair>, b: nat): set<nat> { set k: nat | k < |claims| && claims[k].blob == b }

  lemma {:induction false} CountIs(claims: seq<Pair>, b: nat)
    ensures CountBlob(claims, b) == |Places(claims, b)|
  {
    if claims == [] {
      assert Places(claims, b) == {};
    } else {
      var n := |claims| - 1;
      CountIs(claims[..n], b);
      var before := Places(claims[..n], b);
      assert Places(claims, b) == if claims[n].blob == b then before + {n} else before;
    }
  }

  lemma {:induction false} ClaimsFeasible(blobs: seq<Person>, pairs: seq<Pair>)
    ensures Feasible(blobs, pairs, Claims(blobs, pairs))
  {
    if pairs != [] {
      var rest, p := pairs[..|pairs| - 1], pairs[|pairs| - 1];
      ClaimsFeasible(blobs, rest);
      assert forall q :: q in rest ==> q in pairs;
      if Free(blobs, Claims(blobs, rest), p) { ClaimSnoc(Claims(blobs, rest), p); }
    }
  }

  /** Why a pair in reach was passed over: someone at least as near was there first. */
  ghost predicate Beaten(blobs: seq<Person>, claims: seq<Pair>, p: Pair) {
    (exists k :: 0 <= k < |claims| && claims[k].seat == p.seat && claims[k].d <= p.d) ||
    (p.blob < |blobs| && CountBlob(claims, p.blob) >= blobs[p.blob].persons &&
     forall k :: 0 <= k < |claims| && claims[k].blob == p.blob ==> claims[k].d <= p.d)
  }

  /** Claims made so far are no further away than what comes next. */
  lemma {:induction false} ClaimsNearer(blobs: seq<Person>, pairs: seq<Pair>, bound: real)
    requires forall k :: 0 <= k < |pairs| ==> pairs[k].d <= bound
    ensures forall k :: 0 <= k < |Claims(blobs, pairs)| ==> Claims(blobs, pairs)[k].d <= bound
  {
    if pairs != [] { ClaimsNearer(blobs, pairs[..|pairs| - 1], bound); }
  }

  /** A pair that cannot be claimed was beaten, when nothing further away was claimed before it. */
  lemma NotFree(blobs: seq<Person>, claims: seq<Pair>, p: Pair)
    requires !Free(blobs, claims, p) && p.blob < |blobs| && forall k :: 0 <= k < |claims| ==> claims[k].d <= p.d
    ensures Beaten(blobs, claims, p)
  {
  }

  lemma StaysClaimed(blobs: seq<Person>, claims: seq<Pair>, next: Pair, p: Pair)
    requires Free(blobs, claims, next) && (p in claims || Beaten(blobs, claims, p))
    ensures p in claims + [next] || Beaten(blobs, claims + [next], p)
  {
    BeatenStays(blobs, claims, next, p);
  }

  /**
   * No pair in reach is left that both sides would prefer: for every pair not claimed, its seat
   * went to someone at least as near, or its blob's people all got seats at least as near.
   */
  lemma {:induction false} NoBlockingPair(blobs: seq<Person>, pairs: seq<Pair>, i: nat)
    requires Sorted(pairs) && i < |pairs| && pairs[i].blob < |blobs|
    ensures pairs[i] in Claims(blobs, pairs) || Beaten(blobs, Claims(blobs, pairs), pairs[i])
  {
    var rest, last := pairs[..|pairs| - 1], pairs[|pairs| - 1];
    var claims := Claims(blobs, rest);
    if i < |pairs| - 1 {
      NoBlockingPair(blobs, rest, i);
      assert rest[i] == pairs[i];
      if Free(blobs, claims, last) { StaysClaimed(blobs, claims, last, pairs[i]); }
    } else if Free(blobs, claims, last) {
      assert (claims + [last])[|claims|] == last;
    } else {
      ClaimsNearer(blobs, rest, last.d);
      NotFree(blobs, claims, last);
    }
  }

  lemma BeatenStays(blobs: seq<Person>, claims: seq<Pair>, next: Pair, p: Pair)
    requires Free(blobs, claims, next)
    ensures Beaten(blobs, claims, p) ==> Beaten(blobs, claims + [next], p)
  {
    var more := claims + [next];
    ClaimSnoc(claims, next);
    if k :| 0 <= k < |claims| && claims[k].seat == p.seat && claims[k].d <= p.d {
      assert more[k] == claims[k];
    }
  }

  // ---- at least half of the best possible -----------------------------------------------------

  /** The pairs of `a` whose seat the claims took, or the others. */
  function Split(a: seq<Pair>, claims: seq<Pair>, taken: bool): seq<Pair> {
    if a == [] then []
    else Split(a[..|a| - 1], claims, taken) + (if TakenBy(claims, a[|a| - 1].seat) == taken then [a[|a| - 1]] else [])
  }

  lemma {:induction false} SplitAll(a: seq<Pair>, claims: seq<Pair>)
    ensures |Split(a, claims, true)| + |Split(a, claims, false)| == |a|
    ensures forall b :: CountBlob(Split(a, claims, false), b) <= CountBlob(a, b)
  {
    if a != [] {
      SplitAll(a[..|a| - 1], claims);
      var rest, last := Split(a[..|a| - 1], claims, false), a[|a| - 1];
      ClaimSnoc(rest, last);
      assert Split(a, claims, false) == if TakenBy(claims, last.seat) then rest else rest + [last];
      forall b ensures CountBlob(Split(a, claims, false), b) <= CountBlob(a, b) {
        assert CountBlob(rest, b) <= CountBlob(a[..|a| - 1], b);
      }
    }
  }

  lemma {:induction false} SplitFrom(a: seq<Pair>, claims: seq<Pair>, taken: bool)
    ensures forall k :: 0 <= k < |Split(a, claims, taken)| ==>
      Split(a, claims, taken)[k] in a && TakenBy(claims, Split(a, claims, taken)[k].seat) == taken
    ensures (forall j, k :: 0 <= j < k < |a| ==> a[j].seat != a[k].seat) ==>
      forall j, k :: 0 <= j < k < |Split(a, claims, taken)| ==>
        Split(a, claims, taken)[j].seat != Split(a, claims, taken)[k].seat
  {
    if a != [] {
      var rest := a[..|a| - 1];
      SplitFrom(rest, claims, taken);
      assert forall q :: q in rest ==> q in a;
      forall k | 0 <= k < |Split(rest, claims, taken)|
        ensures exists m :: 0 <= m < |rest| && a[m] == Split(rest, claims, taken)[k]
      {
        assert Split(rest, claims, taken)[k] in rest;
      }
    }
  }

  lemma {:induction false} SeatCount(a: seq<Pair>)
    ensures |SeatsOf(a)| <= |a|
    ensures (forall j, k :: 0 <= j < k < |a| ==> a[j].seat != a[k].seat) ==> |SeatsOf(a)| == |a|
  {
    if a == [] {
      assert SeatsOf(a) == {};
    } else {
      var rest, p := a[..|a| - 1], a[|a| - 1];
      SeatCount(rest);
      ClaimSnoc(rest, p);
      assert a == rest + [p];
    }
  }

  /** Claims on the seats someone else could have had: one for one. */
  lemma TakenSeats(a: seq<Pair>, claims: seq<Pair>)
    requires forall j, k :: 0 <= j < k < |a| ==> a[j].seat != a[k].seat
    ensures |Split(a, claims, true)| <= |claims|
  {
    var t := Split(a, claims, true);
    SplitFrom(a, claims, true);
    SeatCount(t);
    SeatCount(claims);
    assert SeatsOf(t) <= SeatsOf(claims) by {
      forall s | s in SeatsOf(t) ensures s in SeatsOf(claims) {
        var k :| 0 <= k < |t| && t[k].seat == s;
        assert TakenBy(claims, s);
      }
    }
    assert SeatsOf(claims) == SeatsOf(t) + (SeatsOf(claims) - SeatsOf(t));
  }

  /** The number of claims, blob by blob. */
  function Total(claims: seq<Pair>, n: nat): nat {
    if n == 0 then 0 else Total(claims, n - 1) + CountBlob(claims, n - 1)
  }

  lemma {:induction false} TotalSnoc(claims: seq<Pair>, p: Pair, n: nat)
    ensures Total(claims + [p], n) == Total(claims, n) + (if p.blob < n then 1 else 0)
  {
    if n > 0 { TotalSnoc(claims, p, n - 1); ClaimSnoc(claims, p); }
  }

  lemma {:induction false} TotalIsAll(claims: seq<Pair>, n: nat)
    requires forall k :: 0 <= k < |claims| ==> claims[k].blob < n
    ensures Total(claims, n) == |claims|
  {
    if claims == [] {
      TotalNone(n);
    } else {
      var rest, p := claims[..|claims| - 1], claims[|claims| - 1];
      TotalIsAll(rest, n);
      TotalSnoc(rest, p, n);
      assert claims == rest + [p];
    }
  }

  lemma {:induction false} TotalNone(n: nat)
    ensures Total([], n) == 0
  {
    if n > 0 { TotalNone(n - 1); }
  }

  lemma {:induction false} TotalMonotone(a: seq<Pair>, b: seq<Pair>, n: nat)
    requires forall k :: 0 <= k < n ==> CountBlob(a, k) <= CountBlob(b, k)
    ensures Total(a, n) <= Total(b, n)
  {
    if n > 0 { TotalMonotone(a, b, n - 1); }
  }

  lemma {:induction false} CountPositive(a: seq<Pair>, b: nat)
    requires CountBlob(a, b) > 0
    ensures exists k :: 0 <= k < |a| && a[k].blob == b
  {
    if a[|a| - 1].blob != b {
      CountPositive(a[..|a| - 1], b);
      var k :| 0 <= k < |a| - 1 && a[..|a| - 1][k].blob == b;
      assert a[k].blob == b;
    }
  }

  /** A pair whose seat stayed free was passed over because its blob was used up. */
  lemma LeftSeats(blobs: seq<Person>, pairs: seq<Pair>, a: seq<Pair>)
    requires Sorted(pairs) && Feasible(blobs, pairs, a) && forall k :: 0 <= k < |pairs| ==> pairs[k].blob < |blobs|
    ensures |Split(a, Claims(blobs, pairs), false)| <= |Claims(blobs, pairs)|
  {
    var claims := Claims(blobs, pairs);
    var free := Split(a, claims, false);
    SplitFrom(a, claims, false);
    SplitAll(a, claims);
    ClaimsFeasible(blobs, pairs);
    forall b | 0 <= b < |blobs| ensures CountBlob(free, b) <= CountBlob(claims, b) {
      if CountBlob(free, b) > 0 {
        CountPositive(free, b);
        var k :| 0 <= k < |free| && free[k].blob == b;
        assert free[k] in pairs;
        var i :| 0 <= i < |pairs| && pairs[i] == free[k];
        NoBlockingPair(blobs, pairs, i);
        assert !TakenBy(claims, pairs[i].seat);
        forall c | 0 <= c < |claims| ensures claims[c] != pairs[i] {}
      }
    }
    TotalMonotone(free, claims, |blobs|);
    TotalIsAll(free, |blobs|);
    TotalIsAll(claims, |blobs|);
  }

  /** However else the same people could be seated, greedy seats at least half as many. */
  lemma GreedyIsHalfOptimal(blobs: seq<Person>, pairs: seq<Pair>, a: seq<Pair>)
    requires Sorted(pairs) && Feasible(blobs, pairs, a) && forall k :: 0 <= k < |pairs| ==> pairs[k].blob < |blobs|
    ensures |a| <= 2 * |Claims(blobs, pairs)|
  {
    SplitAll(a, Claims(blobs, pairs));
    TakenSeats(a, Claims(blobs, pairs));
    LeftSeats(blobs, pairs, a);
  }

  /** Pairs in reach, no seat twice, and of each blob at most as many as it stands for. */
  ghost predicate Seats(blobs: seq<Person>, pairs: seq<Pair>, claims: seq<Pair>) {
    (forall k :: 0 <= k < |claims| ==> claims[k] in pairs) &&
    (forall j, k :: 0 <= j < k < |claims| ==> claims[j].seat != claims[k].seat) &&
    forall b: nat :: b < |blobs| ==>
      |Places(claims, b)| <= if blobs[b].persons < 0 then 0 else blobs[b].persons
  }

  lemma FeasibleSeats(blobs: seq<Person>, pairs: seq<Pair>, claims: seq<Pair>)
    requires Feasible(blobs, pairs, claims)
    ensures Seats(blobs, pairs, claims)
  {
    forall b: nat | b < |blobs| ensures |Places(claims, b)| <= Capacity(blobs, b) {
      CountIs(claims, b);
    }
  }

  /** The seats greedy claims give, nearest pair first. */
  function Taken(blobs: seq<Person>, seats: seq<Seat>, radius: real): set<nat> {
    SeatsOf(Claims(blobs, SortByDistance(PairsOf(blobs, seats, radius))))
  }

  /**
   * assignSeats from the blobs and the table: exactly the greedy seats; no assignment of the same
   * people seats more than twice as many, and every pair in reach passed over was beaten.
   */
  method AssignSeats(blobs: seq<Person>, seats: seq<Seat>, radius: real) returns (taken: set<nat>)
    ensures taken == Taken(blobs, seats, radius)
    ensures var pairs := SortByDistance(PairsOf(blobs, seats, radius));
      AllPairs(blobs, seats, radius, pairs) &&
      taken == (set k | 0 <= k < |Claims(blobs, pairs)| :: Claims(blobs, pairs)[k].seat) &&
      Seats(blobs, pairs, Claims(blobs, pairs)) &&
      (forall a: seq<Pair> :: Feasible(blobs, pairs, a) ==> |a| <= 2 * |taken|) &&
      forall i :: 0 <= i < |pairs| ==> pairs[i] in Claims(blobs, pairs) || Beaten(blobs, Claims(blobs, pairs), pairs[i])
  {
    var found := PairsInReach(blobs, seats, radius);
    var sorted := SortByDistance(found);
    SortedPairs(blobs, seats, radius, found, sorted);
    taken := Assign(blobs, sorted);
    ClaimsFeasible(blobs, sorted);
    FeasibleSeats(blobs, sorted, Claims(blobs, sorted));
    SeatCount(Claims(blobs, sorted));
    forall a: seq<Pair> | Feasible(blobs, sorted, a)
      ensures |a| <= 2 * |taken|
    {
      GreedyIsHalfOptimal(blobs, sorted, a);
    }
    forall i | 0 <= i < |sorted|
      ensures sorted[i] in Claims(blobs, sorted) || Beaten(blobs, Claims(blobs, sorted), sorted[i])
    {
      NoBlockingPair(blobs, sorted, i);
    }
  }

  lemma SortedPairs(blobs: seq<Person>, seats: seq<Seat>, radius: real, found: seq<Pair>, sorted: seq<Pair>)
    requires AllPairs(blobs, seats, radius, found) && multiset(sorted) == multiset(found)
    ensures AllPairs(blobs, seats, radius, sorted)
  {
    assert forall p :: p in sorted <==> p in multiset(sorted);
    assert forall p :: p in found <==> p in multiset(found);
    forall k | 0 <= k < |sorted| ensures IsPair(blobs, seats, radius, sorted[k]) { assert sorted[k] in found; }
    forall j, k | 0 <= j < k < |sorted| ensures sorted[j] != sorted[k] {
      if sorted[j] == sorted[k] {
        TwiceInMultiset(sorted, j, k);
        OnceInMultiset(found, sorted[j]);
      }
    }
  }

  lemma TwiceInMultiset(s: seq<Pair>, j: nat, k: nat)
    requires j < k < |s| && s[j] == s[k]
    ensures multiset(s)[s[j]] >= 2
  {
    assert s == s[..k] + s[k..] && s[..k][j] == s[j] && s[k..][0] == s[k];
    assert multiset(s) == multiset(s[..k]) + multiset(s[k..]);
  }

  lemma {:induction false} OnceInMultiset(s: seq<Pair>, p: Pair)
    requires forall j, k :: 0 <= j < k < |s| ==> s[j] != s[k]
    ensures multiset(s)[p] <= 1
  {
    if s != [] {
      var rest := s[..|s| - 1];
      OnceInMultiset(rest, p);
      assert s == rest + [s[|s| - 1]];
      if s[|s| - 1] == p { assert p !in rest; assert p !in multiset(rest); }
    }
  }

  // ---- hysteresis --------------------------------------------------------------------------

  datatype Options = Options(enterWindow: int, enterMin: int, releaseMs: int)

  datatype Frame = Frame(seen: bool, at: int)

  datatype Track = Track(window: seq<bool>, occupied: bool, lastSeenAt: int, framesSeen: nat)

  const NewTrack := Track([], false, 0, 0)

  function Trues(w: seq<bool>): nat {
    if w == [] then 0 else Trues(w[..|w| - 1]) + (if w[|w| - 1] then 1 else 0)
  }

  function Trim(w: seq<bool>, size: int): seq<bool>
    requires size >= 0
  {
    if |w| > size then w[|w| - size..] else w
  }

  /** updateSeats for one seat. */
  function Observe(t: Track, f: Frame, o: Options): Track
    requires o.enterWindow >= 0
  {
    var window := Trim(t.window + [f.seen], o.enterWindow);
    var seenAt := if f.seen then f.at else t.lastSeenAt;
    if !t.occupied then
      if Trues(window) >= o.enterMin then Track(window, true, f.at, t.framesSeen + 1)
      else Track(window, false, seenAt, t.framesSeen + 1)
    else Track(window, f.at - seenAt <= o.releaseMs, seenAt, t.framesSeen + 1)
  }

  function Observed(frames: seq<Frame>, o: Options): Track
    requires o.enterWindow >= 0
  {
    if frames == [] then NewTrack else Observe(Observed(frames[..|frames| - 1], o), frames[|frames| - 1], o)
  }

  function SeenOf(frames: seq<Frame>): seq<bool> { seq(|frames|, i requires 0 <= i < |frames| => frames[i].seen) }

  lemma TrimTwice(w: seq<bool>, x: bool, size: int)
    requires size >= 0
    ensures Trim(Trim(w, size) + [x], size) == Trim(w + [x], size)
  {
  }

  /** The window is the recent past: the last enterWindow frames, or all there were. */
  lemma {:induction false} WindowIsRecent(frames: seq<Frame>, o: Options)
    requires o.enterWindow >= 0
    ensures Observed(frames, o).window == Trim(SeenOf(frames), o.enterWindow)
    ensures Observed(frames, o).framesSeen == |frames|
  {
    if frames != [] {
      var rest, f := frames[..|frames| - 1], frames[|frames| - 1];
      WindowIsRecent(rest, o);
      assert SeenOf(frames) == SeenOf(rest) + [f.seen];
      TrimTwice(SeenOf(rest), f.seen, o.enterWindow);
    }
  }

  /** Where a window shows someone. */
  function Marks(w: seq<bool>): set<nat> { set i: nat | i < |w| && w[i] }

  lemma {:induction false} TruesAre(w: seq<bool>)
    ensures Trues(w) == |Marks(w)|
  {
    if w == [] {
      assert Marks(w) == {};
    } else {
      var n := |w| - 1;
      TruesAre(w[..n]);
      assert Marks(w) == if w[n] then Marks(w[..n]) + {n} else Marks(w[..n]);
    }
  }

  /** Which of the last `size` frames showed someone. */
  function Sightings(frames: seq<Frame>, size: int): set<nat> {
    set j: nat | j < |frames| && |frames| - size <= j && frames[j].seen
  }

  lemma {:induction false} ShiftedSize(a: set<nat>, b: set<nat>, d: nat)
    requires forall i :: i in b <==> i >= d && i - d in a
    ensures |a| == |b|
    decreases |a|
  {
    if a == {} {
      assert forall k :: k in b ==> k - d in a;
    } else {
      var x :| x in a;
      var y := x + d;
      assert y - d in a;
      forall i ensures i in b - {y} <==> i >= d && i - d in a - {x} {}
      ShiftedSize(a - {x}, b - {y}, d);
    }
  }

  lemma WindowSightings(frames: seq<Frame>, size: int)
    requires size >= 0
    ensures |Marks(Trim(SeenOf(frames), size))| == |Sightings(frames, size)|
  {
    var w := Trim(SeenOf(frames), size);
    ShiftedSize(Marks(w), Sightings(frames, size), |frames| - |w|);
  }

  ghost predicate InTimeOrder(frames: seq<Frame>) {
    forall a, b :: 0 <= a <= b < |frames| ==> frames[a].at <= frames[b].at
  }

  /** The seat became taken with frame j. */
  ghost predicate TakenUp(frames: seq<Frame>, j: nat, o: Options)
    requires o.enterWindow >= 0 && j < |frames|
  {
    !Observed(frames[..j], o).occupied && Observed(frames[..j + 1], o).occupied
  }

  /** Frame j speaks for the seat: someone was seen, or the seat became taken. */
  ghost predicate Evidence(frames: seq<Frame>, j: nat, o: Options)
    requires o.enterWindow >= 0
  {
    j < |frames| && (frames[j].seen || TakenUp(frames, j, o))
  }

  /** The track's time is that of some evidence. */
  ghost predicate Remembered(frames: seq<Frame>, o: Options)
    requires o.enterWindow >= 0
  {
    exists j: nat :: Evidence(frames, j, o) && frames[j].at == Observed(frames, o).lastSeenAt
  }

  lemma EvidencePrefix(frames: seq<Frame>, j: nat, o: Options)
    requires o.enterWindow >= 0 && j + 1 < |frames|
    ensures Evidence(frames[..|frames| - 1], j, o) <==> Evidence(frames, j, o)
  {
    var rest := frames[..|frames| - 1];
    assert rest[..j] == frames[..j] && rest[..j + 1] == frames[..j + 1];
  }

  /** The track's time is never before any evidence. */
  lemma {:induction false} NoLaterEvidence(frames: seq<Frame>, o: Options, j: nat)
    requires o.enterWindow >= 0 && InTimeOrder(frames) && Evidence(frames, j, o)
    ensures frames[j].at <= Observed(frames, o).lastSeenAt
  {
    var n := |frames| - 1;
    assert frames[..n + 1] == frames;
    if j < n {
      EvidencePrefix(frames, j, o);
      NoLaterEvidence(frames[..n], o, j);
      assert frames[j].at <= frames[n].at;
    }
  }

  lemma RememberedNow(frames: seq<Frame>, o: Options)
    requires o.enterWindow >= 0 && frames != []
    requires var n := |frames| - 1;
      frames[n].seen || (!Observed(frames[..n], o).occupied && Observed(frames, o).occupied)
    ensures Remembered(frames, o)
  {
    var n := |frames| - 1;
    assert frames[..n + 1] == frames;
    assert Evidence(frames, n, o) && frames[n].at == Observed(frames, o).lastSeenAt;
  }

  lemma RememberedStill(frames: seq<Frame>, o: Options)
    requires o.enterWindow >= 0 && frames != [] && Remembered(frames[..|frames| - 1], o)
    requires Observed(frames, o).lastSeenAt == Observed(frames[..|frames| - 1], o).lastSeenAt
    ensures Remembered(frames, o)
  {
    var rest := frames[..|frames| - 1];
    var j: nat :| Evidence(rest, j, o) && rest[j].at == Observed(rest, o).lastSeenAt;
    EvidencePrefix(frames, j, o);
    assert Evidence(frames, j, o) && frames[j].at == Observed(frames, o).lastSeenAt;
  }

  /** A seat that is or just was taken has its time from the latest evidence. */
  lemma {:induction false} TakenRemembers(frames: seq<Frame>, o: Options)
    requires o.enterWindow >= 0 && frames != []
    ensures Observed(frames[..|frames| - 1], o).occupied || Observed(frames, o).occupied ==> Remembered(frames, o)
  {
    var n := |frames| - 1;
    if Observed(frames[..n], o).occupied && !frames[n].seen {
      TakenRemembers(frames[..n], o);
      RememberedStill(frames, o);
    } else if Observed(frames[..n], o).occupied || Observed(frames, o).occupied {
      RememberedNow(frames, o);
    }
  }

  /**
   * Over any run of frames in time order: a free seat becomes taken exactly when enterMin of the
   * last enterWindow frames showed someone, and a taken one is released exactly when neither a
   * sighting nor its becoming taken lies within the last releaseMs.
   */
  lemma SeatsFlipOnEvidence(frames: seq<Frame>, o: Options)
    requires o.enterWindow >= 0 && |frames| > 0 && InTimeOrder(frames)
    ensures var before, after := Observed(frames[..|frames| - 1], o), Observed(frames, o);
      if !before.occupied then after.occupied <==> |Sightings(frames, o.enterWindow)| >= o.enterMin
      else !after.occupied <==> forall j: nat :: Evidence(frames, j, o) ==>
        frames[|frames| - 1].at - frames[j].at > o.releaseMs
  {
    WindowIsRecent(frames, o);
    TruesAre(Trim(SeenOf(frames), o.enterWindow));
    WindowSightings(frames, o.enterWindow);
    TakenRemembers(frames, o);
    forall j: nat | Evidence(frames, j, o)
      ensures frames[j].at <= Observed(frames, o).lastSeenAt
    {
      NoLaterEvidence(frames, o, j);
    }
    if Observed(frames[..|frames| - 1], o).occupied && Observed(frames, o).occupied {
      var j: nat :| Evidence(frames, j, o) && frames[j].at == Observed(frames, o).lastSeenAt;
    }
  }

  /** One seat's track, as the engine keeps it. */
  class SeatTrack {
    var window: seq<bool>
    var occupied: bool
    var lastSeenAt: int
    var framesSeen: nat

    ghost function Now(): Track reads this { Track(window, occupied, lastSeenAt, framesSeen) }

    constructor ()
      ensures Now() == NewTrack
    {
      window, occupied, lastSeenAt, framesSeen := [], false, 0, 0;
    }

    /** Whether the window shows someone often enough. */
    method Enough(o: Options) returns (enough: bool)
      ensures enough <==> |Marks(window)| >= o.enterMin
      ensures enough <==> Trues(window) >= o.enterMin
    {
      TruesAre(window);
      return Trues(window) >= o.enterMin;
    }

    /** One more frame in the window, and the oldest out once it is full. */
    method Slide(seen: bool, size: int)
      requires size >= 0
      modifies this`window
      ensures window == Trim(old(window) + [seen], size)
      ensures |window| == if |old(window)| < size then |old(window)| + 1 else size
      ensures forall k :: 0 <= k < |window| ==> window[k] == (old(window) + [seen])[|old(window)| + 1 - |window| + k]
    {
      window := window + [seen];
      if |window| > size { window := window[|window| - size..]; }
    }

    method Update(seen: bool, at: int, o: Options)
      requires o.enterWindow >= 0
      modifies this
      ensures Now() == Observe(old(Now()), Frame(seen, at), o)
      ensures framesSeen == old(framesSeen) + 1
      ensures !old(occupied) ==> (occupied <==> |Marks(window)| >= o.enterMin)
      ensures old(occupied) ==> (occupied <==> at - lastSeenAt <= o.releaseMs)
      ensures lastSeenAt == if seen || (occupied && !old(occupied)) then at else old(lastSeenAt)
    {
      Slide(seen, o.enterWindow);
      framesSeen := framesSeen + 1;
      if seen { lastSeenAt := at; }
      if !occupied {
        var enough := Enough(o);
        if enough { occupied, lastSeenAt := true, at; }
      } else if at - lastSeenAt > o.releaseMs {
        occupied := false;
      }
    }
  }
}

/**
 * Blob segmentation (src/edge/edgedetect.ts): the foreground is flooded into 8-connected
 * components, and each component is split at the peaks of a smoothed difference.
 */
module Segmentation {
  import opened UnionFind

  const W := 32
  const H := 24
  const GRID := 768
  const MAX_PEAKS := 32
  const MAX_DETECTIONS := 24
  const GLOBAL_SHIFT_FRACTION := 0.4

  function Col(i: int): int { i % W }

  function Row(i: int): int { i / W }

  /** The eight pixels around i, as far as the frame goes. */
  predicate Near(i: int, j: int) {
    0 <= i < GRID && 0 <= j < GRID && i != j && -1 <= Col(i) - Col(j) <= 1 && -1 <= Row(i) - Row(j) <= 1
  }

  /** Two neighbouring foreground pixels. */
  function Touching(fg: seq<bool>): Link {
    (i: nat, j: nat) => |fg| == GRID && Near(i, j) && fg[i] && fg[j]
  }

  lemma TouchingSymmetric(fg: seq<bool>)
    ensures Symmetric(Touching(fg))
  {}

  // ---- components --------------------------------------------------------------------

  ghost predicate Distinct(s: seq<nat>) {
    (forall k :: 0 <= k < |s| ==> s[k] < GRID) && forall a, b :: 0 <= a < b < |s| ==> s[a] != s[b]
  }

  lemma {:induction false} DistinctBound(s: seq<nat>, n: nat)
    requires (forall k :: 0 <= k < |s| ==> s[k] < n) && forall a, b :: 0 <= a < b < |s| ==> s[a] != s[b]
    ensures |s| <= n
    decreases n
  {
    if |s| > 0 {
      assert s[0] < n;
      if k :| 0 <= k < |s| && s[k] == n - 1 {
        DistinctBound(s[..k] + s[k + 1..], n - 1);
      } else {
        DistinctBound(s, n - 1);
      }
    }
  }

  /** `seen` holds whole components only: nothing touches it from outside. */
  ghost predicate Whole(fg: seq<bool>, seen: seq<bool>) {
    |seen| == GRID && forall a: nat, b: nat :: a < GRID && b < GRID && Touching(fg)(a, b) && seen[a] ==> seen[b]
  }

  /** What the flood from `start` has established. */
  ghost predicate Flooding(fg: seq<bool>, was: seq<bool>, seen: seq<bool>, start: nat, members: seq<nat>, done: nat) {
    |fg| == |was| == |seen| == GRID && Distinct(members) && |members| > 0 && members[0] == start && done <= |members| &&
    (forall k :: 0 <= k < |members| ==> fg[members[k]] && !was[members[k]] && seen[members[k]]) &&
    (forall k :: 0 <= k < |members| ==> Connected(GRID, Touching(fg), start, members[k])) &&
    (forall i :: 0 <= i < GRID && seen[i] ==> was[i] || i in members) &&
    (forall i :: 0 <= i < GRID && was[i] ==> seen[i]) &&
    (forall k, j: nat :: 0 <= k < done && j < GRID && Touching(fg)(members[k], j) ==> seen[j])
  }

  /** Look at one neighbour position of pixel i; take the pixel if it is new foreground. */
  method VisitOne(fg: seq<bool>, ghost was: seq<bool>, visited: array<bool>, ghost start: nat, members: seq<nat>,
                  ghost done: nat, ghost i: nat, nx: int, ny: int)
    returns (more: seq<nat>)
    requires visited.Length == GRID && Flooding(fg, was, visited[..], start, members, done)
    requires i in members && -1 <= Col(i) - nx <= 1 && -1 <= Row(i) - ny <= 1
    modifies visited
    ensures Flooding(fg, was, visited[..], start, more, done) && members <= more
    ensures forall j :: 0 <= j < GRID && old(visited[j]) ==> visited[j]
    ensures forall j :: 0 <= j < GRID && Row(j) == ny && Col(j) == nx && fg[j] ==> visited[j]
  {
    more := members;
    if nx < 0 || nx >= W || ny < 0 || ny >= H { return; }
    var j := ny * W + nx;
    if fg[j] && !visited[j] {
      FloodOne(fg, was, visited[..], start, members, done, i, j);
      visited[j] := true;
      more := members + [j];
    }
  }

  /** The neighbours of i in rows above dy, and in row dy left of dx, have been looked at. */
  ghost predicate LookedAt(fg: seq<bool>, seen: seq<bool>, i: nat, dy: int, dx: int)
    requires |seen| == GRID
  {
    forall j: nat :: j < GRID && Touching(fg)(i, j) ==>
      (Row(j) - Row(i) < dy || (Row(j) - Row(i) == dy && Col(j) - Col(i) < dx)) ==> seen[j]
  }

  lemma LookedAtMore(fg: seq<bool>, was: seq<bool>, seen: seq<bool>, i: nat, dy: int, dx: int)
    requires |fg| == |was| == |seen| == GRID && LookedAt(fg, was, i, dy, dx)
    requires forall j :: 0 <= j < GRID && was[j] ==> seen[j]
    requires forall j :: 0 <= j < GRID && Row(j) == Row(i) + dy && Col(j) == Col(i) + dx && fg[j] ==> seen[j]
    ensures LookedAt(fg, seen, i, dy, dx + 1)
  {}

  /** Collect the unvisited foreground neighbours of the pixel at `done`. */
  method VisitNeighbours(fg: seq<bool>, ghost was: seq<bool>, visited: array<bool>, ghost start: nat, members: seq<nat>,
      done: nat)
    returns (more: seq<nat>)
    requires visited.Length == GRID && Flooding(fg, was, visited[..], start, members, done) && done < |members|
    modifies visited
    ensures Flooding(fg, was, visited[..], start, more, done + 1) && members <= more
  {
    more := members;
    var i := members[done];
    var x, y := i % W, i / W;
    for dy := -1 to 2
      invariant Flooding(fg, was, visited[..], start, more, done) && members <= more &&
        LookedAt(fg, visited[..], i, dy, -1)
    {
      for dx := -1 to 2
        invariant Flooding(fg, was, visited[..], start, more, done) && members <= more &&
          LookedAt(fg, visited[..], i, dy, dx)
      {
        ghost var before := visited[..];
        assert more[done] == i;
        more := VisitOne(fg, was, visited, start, more, done, i, x + dx, y + dy);
        LookedAtMore(fg, before, visited[..], i, dy, dx);
      }
      RowLookedAt(fg, visited[..], i, dy);
    }
    AllLookedAt(fg, was, visited[..], start, more, done, i);
  }

  lemma RowLookedAt(fg: seq<bool>, seen: seq<bool>, i: nat, dy: int)
    requires |seen| == GRID && LookedAt(fg, seen, i, dy, 2)
    ensures LookedAt(fg, seen, i, dy + 1, -1)
  {}

  lemma AllLookedAt(fg: seq<bool>, was: seq<bool>, seen: seq<bool>, start: nat, members: seq<nat>, done: nat, i: nat)
    requires Flooding(fg, was, seen, start, members, done) && done < |members| && members[done] == i &&
      LookedAt(fg, seen, i, 2, -1)
    ensures Flooding(fg, was, seen, start, members, done + 1)
  {}

  /** One more pixel, reached from a member. */
  lemma FloodOne(fg: seq<bool>, was: seq<bool>, seen: seq<bool>, start: nat, members: seq<nat>, done: nat, i: nat,
      j: nat)
    requires Flooding(fg, was, seen, start, members, done) && i in members && j < GRID && fg[j] && !seen[j]
    requires -1 <= Col(i) - Col(j) <= 1 && -1 <= Row(i) - Row(j) <= 1
    ensures Flooding(fg, was, seen[j := true], start, members + [j], done)
  {
    assert Touching(fg)(i, j);
    ConnectedLink(GRID, Touching(fg), i, j);
    ConnectedTrans(GRID, Touching(fg), start, i, j);
  }

  /** One component: everything the start pixel reaches, and nothing else. */
  method Flood(fg: seq<bool>, visited: array<bool>, start: nat) returns (members: seq<nat>)
    requires visited.Length == GRID == |fg| && start < GRID && fg[start] && !visited[start] && Whole(fg, visited[..])
    modifies visited
    ensures Flooding(fg, old(visited[..]), visited[..], start, members, |members|)
    ensures Whole(fg, visited[..])
  {
    ghost var was := visited[..];
    ConnectedSelf(GRID, Touching(fg), start);
    members := [start];
    visited[start] := true;
    var head := 0;
    while head < |members|
      invariant Flooding(fg, was, visited[..], start, members, head)
      decreases GRID - head
    {
      DistinctBound(members, GRID);
      members := VisitNeighbours(fg, was, visited, start, members, head);
      head := head + 1;
    }
    DistinctBound(members, GRID);
  }

  /** The components found so far, by pixel: -1 for none. */
  ghost predicate Labelled(fg: seq<bool>, comps: seq<seq<nat>>, owner: seq<int>) {
    |owner| == |fg| == GRID &&
    (forall i :: 0 <= i < GRID ==> -1 <= owner[i] < |comps| && (owner[i] >= 0 ==> fg[i])) &&
    (forall c :: 0 <= c < |comps| ==> Distinct(comps[c]) && |comps[c]| > 0) &&
    (forall c, i: nat :: 0 <= c < |comps| && i < GRID ==> (i in comps[c] <==> owner[i] == c)) &&
    (forall a: nat, b: nat :: a < GRID && b < GRID && owner[a] >= 0 && owner[b] >= 0 ==>
      (owner[a] == owner[b] <==> Connected(GRID, Touching(fg), a, b)))
  }

  /**
   * The foreground falls into exactly its 8-connected components: each foreground pixel is in one
   * component, once, and two pixels share a component exactly when a chain of touching
   * foreground pixels joins them.
   */
  method Components(fg: seq<bool>) returns (comps: seq<seq<nat>>, ghost owner: seq<int>)
    requires |fg| == GRID
    ensures Labelled(fg, comps, owner) && forall i :: 0 <= i < GRID ==> (owner[i] >= 0 <==> fg[i])
  {
    var visited := new bool[GRID](i => false);
    comps := [];
    owner := seq(GRID, i => -1);
    TouchingSymmetric(fg);
    for start := 0 to GRID
      invariant Labelled(fg, comps, owner) && Whole(fg, visited[..])
      invariant forall i :: 0 <= i < GRID ==> (visited[i] <==> owner[i] >= 0)
      invariant forall i :: 0 <= i < start && fg[i] ==> visited[i]
    {
      if !fg[start] || visited[start] { continue; }
      ghost var was := visited[..];
      var members := Flood(fg, visited, start);
      OneMore(fg, was, visited[..], start, members, comps, owner);
      owner := Claim(owner, members, |comps|);
      comps := comps + [members];
    }
  }

  ghost function Claim(owner: seq<int>, members: seq<nat>, c: int): seq<int> {
    seq(|owner|, i requires 0 <= i < |owner| => if i in members then c else owner[i])
  }

  /** Chains do not leave a set nothing touches from outside. */
  lemma {:induction false} ChainInside(fg: seq<bool>, seen: seq<bool>, p: seq<nat>)
    requires Whole(fg, seen) && Chain(GRID, Touching(fg), p) && seen[p[0]]
    ensures seen[p[|p| - 1]]
  {
    if |p| > 1 {
      ChainInside(fg, seen, p[..|p| - 1]);
      assert Touching(fg)(p[|p| - 2], p[|p| - 1]);
    }
  }

  lemma OneMore(fg: seq<bool>, was: seq<bool>, seen: seq<bool>, start: nat, members: seq<nat>, comps: seq<seq<nat>>,
      owner: seq<int>)
    requires Labelled(fg, comps, owner) && Flooding(fg, was, seen, start, members, |members|) && Symmetric(Touching(fg))
    requires Whole(fg, was) && forall i :: 0 <= i < GRID ==> (was[i] <==> owner[i] >= 0)
    ensures Labelled(fg, comps + [members], Claim(owner, members, |comps|))
    ensures forall i :: 0 <= i < GRID ==> (seen[i] <==> Claim(owner, members, |comps|)[i] >= 0)
  {
    var next := Claim(owner, members, |comps|);
    forall a: nat, b: nat | a < GRID && b < GRID && next[a] >= 0 && next[b] >= 0
      ensures next[a] == next[b] <==> Connected(GRID, Touching(fg), a, b)
    {
      if a in members && b in members {
        ConnectedSymmetric(GRID, Touching(fg), start, a);
        ConnectedTrans(GRID, Touching(fg), a, start, b);
      } else if a in members {
        Apart(fg, was, b, a);
      } else if b in members {
        Apart(fg, was, a, b);
      }
    }
    forall c | 0 <= c < |comps| + 1
      ensures Distinct((comps + [members])[c]) && |(comps + [members])[c]| > 0
      ensures forall i: nat :: i < GRID ==> (i in (comps + [members])[c] <==> next[i] == c)
    {}
  }

  /** A pixel seen before and one not seen before are not connected, either way round. */
  lemma Apart(fg: seq<bool>, was: seq<bool>, old_: nat, new_: nat)
    requires Whole(fg, was) && Symmetric(Touching(fg)) && old_ < GRID && new_ < GRID && was[old_] && !was[new_]
    ensures !Connected(GRID, Touching(fg), old_, new_) && !Connected(GRID, Touching(fg), new_, old_)
  {
    if Connected(GRID, Touching(fg), new_, old_) { ConnectedSymmetric(GRID, Touching(fg), new_, old_); }
    if Connected(GRID, Touching(fg), old_, new_) {
      var p :| Chain(GRID, Touching(fg), p) && p[0] == old_ && p[|p| - 1] == new_;
      ChainInside(fg, was, p);
    }
  }
}

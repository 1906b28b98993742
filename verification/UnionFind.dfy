/**
 * The union-find inside mergeClose (src/edge/occupancy.ts): trees in an array, roots found with
 * path compression, one tree hung below another's root.
 */
module UnionFind {
  // ---- chains ------------------------------------------------------------------------

  /** Which pairs belong together, whatever makes them so. */
  type Link = (nat, nat) -> bool

  ghost predicate Symmetric(link: Link) { forall i, j :: link(i, j) == link(j, i) }

  ghost predicate Chain(n: nat, link: Link, p: seq<nat>) {
    |p| > 0 && (forall k :: 0 <= k < |p| ==> p[k] < n) &&
    forall k :: 0 <= k < |p| - 1 ==> link(p[k], p[k + 1])
  }

  /** A chain of links leads from one item to the other. */
  ghost predicate Connected(n: nat, link: Link, i: nat, j: nat) {
    exists p :: Chain(n, link, p) && p[0] == i && p[|p| - 1] == j
  }

  lemma ConnectedSelf(n: nat, link: Link, i: nat)
    requires i < n
    ensures Connected(n, link, i, i)
  {
    assert Chain(n, link, [i]);
  }

  lemma ConnectedLink(n: nat, link: Link, i: nat, j: nat)
    requires i < n && j < n && link(i, j)
    ensures Connected(n, link, i, j)
  {
    assert Chain(n, link, [i, j]);
  }

  lemma ConnectedTrans(n: nat, link: Link, i: nat, j: nat, k: nat)
    requires Connected(n, link, i, j) && Connected(n, link, j, k)
    ensures Connected(n, link, i, k)
  {
    var p :| Chain(n, link, p) && p[0] == i && p[|p| - 1] == j;
    var q :| Chain(n, link, q) && q[0] == j && q[|q| - 1] == k;
    var r := p + q[1..];
    forall a | 0 <= a < |r| - 1 ensures link(r[a], r[a + 1]) {
      if a >= |p| - 1 { assert r[a] == q[a - |p| + 1] && r[a + 1] == q[a - |p| + 2]; }
    }
    assert Chain(n, link, r);
  }

  lemma ConnectedSymmetric(n: nat, link: Link, i: nat, j: nat)
    requires Connected(n, link, i, j) && Symmetric(link)
    ensures Connected(n, link, j, i)
  {
    var p :| Chain(n, link, p) && p[0] == i && p[|p| - 1] == j;
    var z := |p| - 1;
    var r := seq(z + 1, k requires 0 <= k <= z => p[z - k]);
    forall a | 0 <= a < z ensures link(r[a], r[a + 1]) {
      assert link(p[z - a - 1], p[z - a]);
    }
    assert Chain(n, link, r);
  }

  // ---- union-find ----------------------------------------------------------------------

  /** Item i hangs below its root, or is it; potentials rise strictly on the way. */
  ghost predicate Hangs(g: seq<nat>, rep: seq<nat>, pot: seq<nat>, top: nat, i: nat)
    requires |g| == |rep| == |pot| && i < |g|
  {
    g[i] < |g| && rep[i] < |g| && pot[i] <= top &&
    rep[g[i]] == rep[i] && g[rep[i]] == rep[i] && rep[rep[i]] == rep[i] &&
    (g[i] == i ==> rep[i] == i) &&
    (g[i] != i ==> pot[i] < pot[g[i]]) && (rep[i] != i ==> pot[i] < pot[rep[i]])
  }

  /**
   * `g` is a forest whose roots are `rep`. Potentials rise strictly towards the root, so
   * following parents ends, and shortcuts to the root stay legal.
   */
  ghost predicate Forest(g: seq<nat>, rep: seq<nat>, pot: seq<nat>, top: nat) {
    |g| == |rep| == |pot| && forall i: nat {:trigger Hangs(g, rep, pot, top, i)} :: i < |g| ==>
      Hangs(g, rep, pot, top, i)
  }

  lemma HangKeeps(g: seq<nat>, rep: seq<nat>, pot: seq<nat>, top: nat, i: nat)
    requires Forest(g, rep, pot, top) && i < |g| && rep[i] < |g|
    ensures Forest(g[i := rep[i]], rep, pot, top)
  {
    assert Hangs(g, rep, pot, top, i) && Hangs(g, rep, pot, top, rep[i]);
    var next := g[i := rep[i]];
    forall k: nat | k < |g| ensures Hangs(next, rep, pot, top, k) { assert Hangs(g, rep, pot, top, k); }
  }

  /** The root of an item's tree; every item on the way is hung directly below it. */
  method Root(group: array<nat>, i: nat, ghost rep: seq<nat>, ghost pot: seq<nat>, ghost top: nat) returns (r: nat)
    requires Forest(group[..], rep, pot, top) && i < group.Length
    modifies group
    ensures r == rep[i] && r < group.Length && Forest(group[..], rep, pot, top)
    decreases top - pot[i]
  {
    assert Hangs(group[..], rep, pot, top, i);
    if group[i] == i { return i; }
    assert Hangs(group[..], rep, pot, top, group[i]);
    r := Root(group, group[i], rep, pot, top);
    HangKeeps(group[..], rep, pot, top, i);
    ghost var before := group[..];
    group[i] := r;
    assert group[..] == before[i := r];
  }

  ghost function Relabel(rep: seq<nat>, a: nat, b: nat): seq<nat> {
    seq(|rep|, k requires 0 <= k < |rep| => if rep[k] == a then b else rep[k])
  }

  lemma JoinKeepsForest(g: seq<nat>, rep: seq<nat>, pot: seq<nat>, top: nat, a: nat, b: nat)
    requires Forest(g, rep, pot, top) && a < |g| && b < |g| && rep[a] == a && rep[b] == b && a != b
    ensures Forest(g[a := b], Relabel(rep, a, b), pot[b := top + 1], top + 1)
  {
    assert Hangs(g, rep, pot, top, a) && Hangs(g, rep, pot, top, b);
    var next, root, rise, high := g[a := b], Relabel(rep, a, b), pot[b := top + 1], top + 1;
    forall k: nat | k < |g| ensures Hangs(next, root, rise, high, k) { assert Hangs(g, rep, pot, top, k); }
  }

  /** Two items share a root only if a chain joins them, and do if their pair was examined. */
  ghost predicate Partial(n: nat, link: Link, rep: seq<nat>, i: nat, j: nat) {
    |rep| == n &&
    (forall a: nat, b: nat {:trigger Connected(n, link, a, b)} :: a < n && b < n && rep[a] == rep[b] ==>
      Connected(n, link, a, b)) &&
    (forall a: nat, b: nat {:trigger link(a, b)} :: a < b < n && (a < i || (a == i && b < j)) && link(a, b) ==>
      rep[a] == rep[b])
  }

  lemma JoinKeepsPartial(n: nat, link: Link, rep: seq<nat>, i: nat, j: nat)
    requires Symmetric(link) && Partial(n, link, rep, i, j) && i < j < n && link(i, j)
    ensures Partial(n, link, Relabel(rep, rep[i], rep[j]), i, j + 1)
  {
    var next := Relabel(rep, rep[i], rep[j]);
    forall a: nat, b: nat | a < n && b < n && next[a] == next[b] ensures Connected(n, link, a, b) {
      if rep[a] != rep[b] {
        ConnectedLink(n, link, i, j);
        ConnectedSymmetric(n, link, i, j);
        var (x, y) := if rep[a] == rep[i] then (i, j) else (j, i);
        assert rep[a] == rep[x] && rep[y] == rep[b];
        ConnectedTrans(n, link, a, x, y);
        ConnectedTrans(n, link, a, y, b);
      }
    }
  }

  lemma JoinKeeps(g: seq<nat>, n: nat, link: Link, i: nat, j: nat, rep: seq<nat>, pot: seq<nat>, top: nat)
    returns (rep': seq<nat>, pot': seq<nat>, top': nat)
    requires Symmetric(link) && Forest(g, rep, pot, top) && Partial(n, link, rep, i, j) && i < j < n && link(i, j)
    requires |g| == n && rep[i] < n && rep[j] < n
    ensures Forest(g[rep[i] := rep[j]], rep', pot', top') && Partial(n, link, rep', i, j + 1)
  {
    var a, b := rep[i], rep[j];
    assert Hangs(g, rep, pot, top, i) && Hangs(g, rep, pot, top, j);
    JoinKeepsPartial(n, link, rep, i, j);
    rep', pot', top' := Relabel(rep, a, b), pot, top;
    if a != b {
      JoinKeepsForest(g, rep, pot, top, a, b);
      pot', top' := pot[b := top + 1], top + 1;
    } else {
      assert rep' == rep && g[a := b] == g;
    }
  }

  /** `group[root(i)] = root(j)`, when the two items are linked. */
  method Join(group: array<nat>, n: nat, link: Link, i: nat, j: nat, ghost rep: seq<nat>, ghost pot: seq<nat>,
      ghost top: nat)
    returns (ghost rep': seq<nat>, ghost pot': seq<nat>, ghost top': nat)
    requires Symmetric(link) && Forest(group[..], rep, pot, top) && Partial(n, link, rep, i, j) && i < j < n
    modifies group
    ensures Forest(group[..], rep', pot', top') && Partial(n, link, rep', i, j + 1)
  {
    rep', pot', top' := rep, pot, top;
    if !link(i, j) { return; }
    var a := Root(group, i, rep, pot, top);
    var b := Root(group, j, rep, pot, top);
    ghost var before := group[..];
    group[a] := b;
    assert group[..] == before[a := b];
    rep', pot', top' := JoinKeeps(before, n, link, i, j, rep, pot, top);
  }

  /** Examine every pair of items once. */
  method JoinAll(group: array<nat>, n: nat, link: Link)
    returns (ghost rep: seq<nat>, ghost pot: seq<nat>, ghost top: nat)
    requires Symmetric(link) && group.Length == n && forall k :: 0 <= k < n ==> group[k] == k
    modifies group
    ensures Forest(group[..], rep, pot, top) && Partial(n, link, rep, n, n + 1)
  {
    rep, pot, top := seq(n, i => i), seq(n, i => 0), 0;
    StartPartial(n, link, rep);
    for i := 0 to n
      invariant Forest(group[..], rep, pot, top) && Partial(n, link, rep, i, i + 1)
    {
      for j := i + 1 to n
        invariant Forest(group[..], rep, pot, top) && Partial(n, link, rep, i, j)
      {
        rep, pot, top := Join(group, n, link, i, j, rep, pot, top);
      }
      NextRow(n, link, rep, i);
    }
  }

  lemma NextRow(n: nat, link: Link, rep: seq<nat>, i: nat)
    requires Partial(n, link, rep, i, n)
    ensures Partial(n, link, rep, i + 1, i + 2)
  {}

  /** Look every item's root up once more. */
  method ReadRoots(group: array<nat>, ghost rep: seq<nat>, ghost pot: seq<nat>, ghost top: nat)
    returns (roots: seq<nat>)
    requires Forest(group[..], rep, pot, top)
    modifies group
    ensures roots == rep
  {
    roots := [];
    for i := 0 to group.Length
      invariant Forest(group[..], rep, pot, top) && roots == rep[..i]
    {
      var r := Root(group, i, rep, pot, top);
      roots := roots + [r];
    }
  }

  /** The roots after all pairs: equal exactly for items a chain connects. */
  method Cluster(n: nat, link: Link) returns (roots: seq<nat>)
    requires Symmetric(link)
    ensures |roots| == n
    ensures forall a, b :: 0 <= a < n && 0 <= b < n ==>
      (roots[a] == roots[b] <==> Connected(n, link, a, b))
  {
    var group := new nat[n](i => i);
    assert forall k :: 0 <= k < n ==> group[k] == k;
    ghost var rep, pot, top := JoinAll(group, n, link);
    roots := ReadRoots(group, rep, pot, top);
    ChainsShareRoots(n, link, rep);
  }

  lemma StartPartial(n: nat, link: Link, rep: seq<nat>)
    requires |rep| == n && forall i :: 0 <= i < |rep| ==> rep[i] == i
    ensures Partial(n, link, rep, 0, 1)
  {
    forall a | 0 <= a < n ensures Connected(n, link, a, a) { ConnectedSelf(n, link, a); }
  }

  lemma {:induction false} ChainSharesRoot(n: nat, link: Link, rep: seq<nat>, p: seq<nat>)
    requires Symmetric(link) && Partial(n, link, rep, n, n + 1) && Chain(n, link, p)
    ensures rep[p[0]] == rep[p[|p| - 1]]
  {
    if |p| > 1 {
      ChainSharesRoot(n, link, rep, p[..|p| - 1]);
      var a, b := p[|p| - 2], p[|p| - 1];
      assert link(a, b);
      assert a < b ==> rep[a] == rep[b];
      assert b < a ==> rep[b] == rep[a];
    }
  }

  lemma ChainsShareRoots(n: nat, link: Link, rep: seq<nat>)
    requires Symmetric(link) && Partial(n, link, rep, n, n + 1)
    ensures forall a, b :: 0 <= a < n && 0 <= b < n && Connected(n, link, a, b) ==> rep[a] == rep[b]
  {
    forall a, b | 0 <= a < n && 0 <= b < n && Connected(n, link, a, b) ensures rep[a] == rep[b] {
      var p :| Chain(n, link, p) && p[0] == a && p[|p| - 1] == b;
      ChainSharesRoot(n, link, rep, p);
    }
  }
}

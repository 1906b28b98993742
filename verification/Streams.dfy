/** Machines that take a stream one item at a time: what they do does not depend on how it is cut. */
module Streams {
  datatype Scanned<+S, +O> = Scanned(state: S, out: seq<O>)

  /** Run a step over the items, collecting what it gives out. */
  function Scan<S, I, O>(step: (S, I) -> Scanned<S, O>, s: S, input: seq<I>): Scanned<S, O> {
    if input == [] then Scanned(s, [])
    else
      var before := Scan(step, s, input[..|input| - 1]);
      var last := step(before.state, input[|input| - 1]);
      Scanned(last.state, before.out + last.out)
  }

  function Then<S, I, O>(step: (S, I) -> Scanned<S, O>, first: Scanned<S, O>, input: seq<I>): Scanned<S, O> {
    var next := Scan(step, first.state, input);
    Scanned(next.state, first.out + next.out)
  }

  lemma {:induction false} ScanSplit<S, I, O>(step: (S, I) -> Scanned<S, O>, s: S, a: seq<I>, b: seq<I>)
    ensures Scan(step, s, a + b) == Then(step, Scan(step, s, a), b)
  {
    if b == [] {
      assert a + b == a;
    } else {
      var init := b[..|b| - 1];
      ScanSplit(step, s, a, init);
      assert (a + b)[..|a + b| - 1] == a + init;
      assert (a + b)[|a + b| - 1] == b[|b| - 1];
    }
  }

  function Flat<T>(chunks: seq<seq<T>>): seq<T> {
    if chunks == [] then [] else Flat(chunks[..|chunks| - 1]) + chunks[|chunks| - 1]
  }

  /** One chunk after the other. */
  function ScanAll<S, I, O>(step: (S, I) -> Scanned<S, O>, s: S, chunks: seq<seq<I>>): Scanned<S, O> {
    if chunks == [] then Scanned(s, [])
    else Then(step, ScanAll(step, s, chunks[..|chunks| - 1]), chunks[|chunks| - 1])
  }

  lemma {:induction false} ScanChunks<S, I, O>(step: (S, I) -> Scanned<S, O>, s: S, chunks: seq<seq<I>>)
    ensures ScanAll(step, s, chunks) == Scan(step, s, Flat(chunks))
  {
    if chunks != [] {
      var init, last := chunks[..|chunks| - 1], chunks[|chunks| - 1];
      ScanChunks(step, s, init);
      ScanSplit(step, s, Flat(init), last);
    }
  }

  /** Write the items one after the other. */
  function Written<A, B>(write: A -> seq<B>, items: seq<A>): seq<B> {
    if items == [] then [] else Written(write, items[..|items| - 1]) + write(items[|items| - 1])
  }

  lemma {:induction false} WrittenSplit<A, B>(write: A -> seq<B>, a: seq<A>, b: seq<A>)
    ensures Written(write, a + b) == Written(write, a) + Written(write, b)
  {
    if b == [] {
      assert a + b == a;
    } else {
      WrittenSplit(write, a, b[..|b| - 1]);
      assert (a + b)[..|a + b| - 1] == a + b[..|b| - 1];
      assert (a + b)[|a + b| - 1] == b[|b| - 1];
    }
  }

  lemma WrittenOne<A, B>(write: A -> seq<B>, x: A)
    ensures Written(write, [x]) == write(x)
  {
    assert [x][..0] == [] && Written(write, [x][..0]) == [];
  }

  /** A machine that reads each written item back reads all of them back. */
  lemma {:induction false} ReadsAllBack<S, I, O>(step: (S, I) -> Scanned<S, O>, s: S, write: O -> seq<I>, items: seq<O>)
    requires forall i :: 0 <= i < |items| ==> Scan(step, s, write(items[i])) == Scanned(s, [items[i]])
    ensures Scan(step, s, Written(write, items)) == Scanned(s, items)
  {
    if items != [] {
      var init, last := items[..|items| - 1], items[|items| - 1];
      ReadsAllBack(step, s, write, init);
      ScanSplit(step, s, Written(write, init), write(last));
      assert init + [last] == items;
    }
  }

  /** One step gives out and holds, between them, what it held and was given. */
  ghost predicate Conserves<S(!new), I(!new), O(!new)>(
    step: (S, I) -> Scanned<S, O>, sound: S -> bool, stuck: S -> bool, hold: S -> seq<I>, write: O -> seq<I>)
  {
    forall s, x :: sound(s) && !stuck(s) ==>
      sound(step(s, x).state) && Written(write, step(s, x).out) + hold(step(s, x).state) == hold(s) + [x]
  }

  /** A stuck machine stays stuck. */
  ghost predicate Sticks<S(!new), I(!new), O(!new)>(step: (S, I) -> Scanned<S, O>, stuck: S -> bool) {
    forall s, x :: stuck(s) ==> stuck(step(s, x).state)
  }

  /** So does a run, up to the item that makes it stuck. */
  lemma {:induction false} ScanConserves<S(!new), I(!new), O(!new)>(
    step: (S, I) -> Scanned<S, O>, sound: S -> bool, stuck: S -> bool, hold: S -> seq<I>, write: O -> seq<I>, s: S,
      input: seq<I>)
    requires Conserves(step, sound, stuck, hold, write) && Sticks(step, stuck) && sound(s)
    requires input == [] || !stuck(Scan(step, s, input[..|input| - 1]).state)
    ensures sound(Scan(step, s, input).state)
    ensures Written(write, Scan(step, s, input).out) + hold(Scan(step, s, input).state) == hold(s) + input
  {
    if input == [] {
      assert hold(s) + input == hold(s);
    } else {
      var init, x := input[..|input| - 1], input[|input| - 1];
      var before := Scan(step, s, init);
      ScanConserves(step, sound, stuck, hold, write, s, init);
      var last := step(before.state, x);
      WrittenSplit(write, before.out, last.out);
      Regroup(Written(write, before.out), Written(write, last.out), hold(last.state), hold(before.state), hold(s), init,
        x);
      assert init + [x] == input;
    }
  }

  /** Output and what is held, before and after one more item. */
  lemma Regroup<T>(out: seq<T>, more: seq<T>, held: seq<T>, before: seq<T>, start: seq<T>, init: seq<T>, x: T)
    requires more + held == before + [x] && out + before == start + init
    ensures (out + more) + held == start + (init + [x])
  {
    assert (out + more) + held == out + (more + held);
    assert out + (before + [x]) == (out + before) + [x];
    assert (start + init) + [x] == start + (init + [x]);
  }
}

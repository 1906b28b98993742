/**
 * The HELLO admission of the gateway link (src/edge/gwlink.ts:425-447) and its journal
 * (src/edge/hello-replay.ts:10-50). A HELLO is a gateway id, a nonce and a timestamp whose
 * signature has been checked; ids and nonces are numbers standing for the strings of the program.
 */
module HelloReplay {
  import opened Wrappers

  const CAPACITY := 4096
  const MAX_SAFE := 9_007_199_254_740_991
  /** The largest time a Date can hold. */
  const MAX_TIME := 8_640_000_000_000_000

  function Window(): int { 60_000 }

  datatype Key = Key(id: int, nonce: int)

  datatype Hello = Hello(key: Key, ts: int) {
    function Expires(): int { ts + Window() }
  }

  datatype Entry = Entry(key: Key, expires: int)

  datatype File = File(highWater: int, nonces: seq<Entry>)

  // ---- the journal -------------------------------------------------------------------------

  predicate Has(nonces: seq<Entry>, key: Key) { exists i :: 0 <= i < |nonces| && nonces[i].key == key }

  predicate DistinctKeys(nonces: seq<Entry>) {
    forall i, j :: 0 <= i < j < |nonces| ==> nonces[i].key != nonces[j].key
  }

  /** What the strict reader asks of the file. */
  predicate Readable(f: File) {
    0 <= f.highWater <= MAX_SAFE && |f.nonces| <= CAPACITY && DistinctKeys(f.nonces) &&
    forall i :: 0 <= i < |f.nonces| ==> 0 <= f.nonces[i].expires <= MAX_SAFE
  }

  /** The journal as read: an absent file is an empty one. */
  function Contents(file: Option<File>): File {
    match file
    case None => File(0, [])
    case Some(f) => f
  }

  /** The entries that have not expired, in order. */
  function Unexpired(nonces: seq<Entry>, now: int): (r: seq<Entry>)
    ensures |r| <= |nonces|
  {
    if nonces == [] then []
    else
      var last := nonces[|nonces| - 1];
      Unexpired(nonces[..|nonces| - 1], now) + (if last.expires >= now then [last] else [])
  }

  lemma {:induction false} UnexpiredAre(nonces: seq<Entry>, now: int)
    ensures forall e :: e in Unexpired(nonces, now) <==> e in nonces && e.expires >= now
    ensures DistinctKeys(nonces) ==> DistinctKeys(Unexpired(nonces, now))
  {
    if nonces != [] {
      var init, last := nonces[..|nonces| - 1], nonces[|nonces| - 1];
      UnexpiredAre(init, now);
      assert nonces == init + [last];
      var kept := Unexpired(init, now);
      forall i | 0 <= i < |kept| && DistinctKeys(nonces) ensures kept[i].key != last.key {
        assert kept[i] in init;
      }
    }
  }

  /** What the locked section decides: the file to write when the HELLO is new. */
  function Decide(f: File, key: Key, expires: int, now: int): Option<File> {
    if now < f.highWater then None
    else
      var entries := Unexpired(f.nonces, now);
      if Has(entries, key) || |entries| >= CAPACITY then None
      else Some(File(now, entries + [Entry(key, expires)]))
  }

  lemma DecidedIsReadable(f: File, key: Key, expires: int, now: int)
    requires Readable(f) && 0 <= now <= MAX_SAFE && 0 <= expires <= MAX_SAFE
    ensures Decide(f, key, expires, now).Some? ==> Readable(Decide(f, key, expires, now).value)
  {
    UnexpiredAre(f.nonces, now);
    var entries := Unexpired(f.nonces, now);
    forall i | 0 <= i < |entries| ensures 0 <= entries[i].expires <= MAX_SAFE { assert entries[i] in f.nonces; }
  }

  // ---- admission ------------------------------------------------------------------------------

  /** The file on disk and the nonces this process has seen. */
  datatype Door = Door(file: Option<File>, recent: map<Key, int>)

  /** How the write ends: done; not done; replaced but reported as failed. */
  datatype Write = Done | Failed | Doubtful

  /**
   * Arrive: a signed HELLO with the two clock readings it is judged by, the fate of the write,
   * and whether the session is still open afterwards.
   */
  datatype Event = Arrive(hello: Hello, first: int, second: int, write: Write, open: bool) | Restart

  function Pruned(recent: map<Key, int>, now: int): map<Key, int> {
    map k | k in recent && recent[k] >= now :: recent[k]
  }

  datatype Admission = Admission(door: Door, accepted: bool)

  predicate InWindow(h: Hello, now: int) { -Window() <= now - h.ts <= Window() }

  function Admit(d: Door, e: Event): Admission {
    match e
    case Restart => Admission(Door(d.file, map[]), false)
    case Arrive(h, first, second, write, open) =>
      if !InWindow(h, first) then Admission(d, false)
      else
        var recent := Pruned(d.recent, second);
        var next := Decide(Contents(d.file), h.key, h.Expires(), second);
        if h.key in recent || |recent| >= CAPACITY || next.None? || write.Failed?
        then Admission(Door(d.file, recent), false)
        else if write.Doubtful? || !open then Admission(Door(Some(next.value), recent), false)
        else Admission(Door(Some(next.value), recent[h.key := h.Expires()]), true)
  }

  /** The clock gives times a Date can hold, not before 1970. */
  predicate Timed(e: Event) { e.Arrive? ==> 0 <= e.first <= MAX_TIME && 0 <= e.second <= MAX_TIME }

  function Run(d: Door, events: seq<Event>): Door {
    if events == [] then d else Admit(Run(d, events[..|events| - 1]), events[|events| - 1]).door
  }

  const FRESH := Door(None, map[])

  /** The i-th event of a run from nothing is an accepted HELLO. */
  predicate AcceptedAt(events: seq<Event>, i: nat)
    requires i < |events|
  {
    events[i].Arrive? && Admit(Run(FRESH, events[..i]), events[i]).accepted
  }

  // ---- the journal can always be read again -------------------------------------------------------

  lemma AdmitKeepsReadable(d: Door, e: Event)
    requires Readable(Contents(d.file)) && Timed(e)
    ensures Readable(Contents(Admit(d, e).door.file))
  {
    if e.Arrive? && InWindow(e.hello, e.first) {
      DecidedIsReadable(Contents(d.file), e.hello.key, e.hello.Expires(), e.second);
    }
  }

  /** After any run the journal is one the next start accepts. */
  lemma {:induction false} JournalAlwaysReads(events: seq<Event>)
    requires forall i :: 0 <= i < |events| ==> Timed(events[i])
    ensures Readable(Contents(Run(FRESH, events).file))
  {
    if events != [] {
      JournalAlwaysReads(events[..|events| - 1]);
      AdmitKeepsReadable(Run(FRESH, events[..|events| - 1]), events[|events| - 1]);
    }
  }

  // ---- at most once ----------------------------------------------------------------------------------

  /** The journal holds the HELLO, or its clock has passed the time the HELLO expires. */
  predicate Remembered(f: File, h: Hello) {
    f.highWater > h.Expires() || Entry(h.key, h.Expires()) in f.nonces
  }

  lemma DecideRemembers(f: File, h: Hello, key: Key, expires: int, now: int)
    requires Remembered(f, h) && Decide(f, key, expires, now).Some?
    ensures Remembered(Decide(f, key, expires, now).value, h)
    ensures key == h.key ==> now > h.Expires()
  {
    UnexpiredAre(f.nonces, now);
    var entries, entry := Unexpired(f.nonces, now), Entry(h.key, h.Expires());
    if f.highWater <= h.Expires() && h.Expires() >= now {
      assert entry in entries;
      var i :| 0 <= i < |entries| && entries[i] == entry;
      assert Has(entries, h.key);
    }
  }

  lemma AdmitRemembers(d: Door, e: Event, h: Hello)
    requires Remembered(Contents(d.file), h)
    ensures Remembered(Contents(Admit(d, e).door.file), h)
    ensures e.Arrive? && e.hello == h && Admit(d, e).accepted ==> InWindow(h, e.first) && e.second > h.Expires()
  {
    if e.Arrive? && Decide(Contents(d.file), e.hello.key, e.hello.Expires(), e.second).Some? {
      DecideRemembers(Contents(d.file), h, e.hello.key, e.hello.Expires(), e.second);
    }
  }

  lemma {:induction false} RunRemembers(events: seq<Event>, i: nat, j: nat)
    requires i < j <= |events| && AcceptedAt(events, i)
    ensures Remembered(Contents(Run(FRESH, events[..j]).file), events[i].hello)
    decreases j
  {
    var before := events[..j][..j - 1];
    assert before == events[..j - 1];
    if j == i + 1 {
      var h, d := events[i].hello, Run(FRESH, events[..i]);
      var next := Decide(Contents(d.file), h.key, h.Expires(), events[i].second).value;
      assert next.nonces[|next.nonces| - 1] == Entry(h.key, h.Expires());
    } else {
      RunRemembers(events, i, j - 1);
      AdmitRemembers(Run(FRESH, events[..j - 1]), events[j - 1], events[i].hello);
    }
  }

  /**
   * Whatever the restarts, clock jumps and failed writes between them, the same HELLO is taken a
   * second time only when its two clock readings fall on either side of its expiry.
   */
  lemma RepeatStraddlesExpiry(events: seq<Event>, i: nat, j: nat)
    requires i < j < |events| && AcceptedAt(events, i) && AcceptedAt(events, j)
    requires events[i].hello == events[j].hello
    ensures InWindow(events[j].hello, events[j].first) && events[j].second > events[j].hello.Expires()
  {
    RunRemembers(events, i, j);
    AdmitRemembers(Run(FRESH, events[..j]), events[j], events[i].hello);
  }

  /** With one clock reading per HELLO, each is accepted at most once. */
  lemma AtMostOnce(events: seq<Event>, i: nat, j: nat)
    requires i < j < |events| && AcceptedAt(events, i) && AcceptedAt(events, j)
    requires events[j].first == events[j].second
    ensures events[i].hello != events[j].hello
  {
    if events[i].hello == events[j].hello { RepeatStraddlesExpiry(events, i, j); }
  }

  /** The run accepts h at i and again as its last event, read at these two times. */
  ghost predicate Repeats(events: seq<Event>, i: nat, h: Hello, first: int, second: int) {
    i < |events| - 1 && events[i].Arrive? && events[i].hello == h && AcceptedAt(events, i) &&
    events[|events| - 1] == Arrive(h, first, second, Done, true) && AcceptedAt(events, |events| - 1)
  }

  ghost predicate Repeatable(h: Hello, first: int, second: int) {
    exists events: seq<Event>, i: nat :: Repeats(events, i, h, first, second)
  }

  /** The gate after one HELLO accepted on time. */
  function Once(h: Hello): Door { Door(Some(File(h.ts, [Entry(h.key, h.Expires())])), map[h.key := h.Expires()]) }

  lemma FirstIsTaken(h: Hello)
    requires h.ts >= 0
    ensures Admit(FRESH, Arrive(h, h.ts, h.ts, Done, true)) == Admission(Once(h), true)
  {
    assert Decide(File(0, []), h.key, h.Expires(), h.ts) == Some(File(h.ts, [] + [Entry(h.key, h.Expires())]));
    assert [] + [Entry(h.key, h.Expires())] == [Entry(h.key, h.Expires())];
    assert Pruned(FRESH.recent, h.ts) == map[];
  }

  lemma LateIsTakenAgain(h: Hello, first: int, second: int)
    requires InWindow(h, first) && second > h.Expires()
    ensures Admit(Once(h), Arrive(h, first, second, Done, true)).accepted
  {
    var kept := [Entry(h.key, h.Expires())];
    assert Unexpired(kept, second) == [] by { assert kept[..0] == []; }
    assert Pruned(Once(h).recent, second) == map[];
  }

  lemma RunOne(d: Door, e: Event)
    ensures Run(d, [e]) == Admit(d, e).door
  {
    assert [e][..0] == [];
    assert Run(d, [e][..0]) == d;
  }

  /** The exact condition: the window check still passes and the journal's reading is past the expiry. */
  lemma RepeatableWhen(h: Hello, first: int, second: int)
    requires h.ts >= 0
    ensures Repeatable(h, first, second) <==> InWindow(h, first) && second > h.Expires()
  {
    if InWindow(h, first) && second > h.Expires() {
      var once, again := Arrive(h, h.ts, h.ts, Done, true), Arrive(h, first, second, Done, true);
      var events := [once, again];
      FirstIsTaken(h);
      LateIsTakenAgain(h, first, second);
      RunOne(FRESH, once);
      assert events[..0] == [] && events[..1] == [once];
      assert Repeats(events, 0, h, first, second);
    } else if Repeatable(h, first, second) {
      NotRepeatable(h, first, second);
    }
  }

  lemma NotRepeatable(h: Hello, first: int, second: int)
    requires Repeatable(h, first, second)
    ensures InWindow(h, first) && second > h.Expires()
  {
    var events: seq<Event>, i: nat :| Repeats(events, i, h, first, second);
    RepeatStraddlesExpiry(events, i, |events| - 1);
  }

  // ---- what is let in ----------------------------------------------------------------------------------

  /** The places of the entries that have not expired. */
  function Live(nonces: seq<Entry>, now: int): set<nat> { set i: nat | i < |nonces| && nonces[i].expires >= now }

  lemma {:induction false} UnexpiredCount(nonces: seq<Entry>, now: int)
    ensures |Unexpired(nonces, now)| == |Live(nonces, now)|
  {
    if nonces == [] {
      assert Live(nonces, now) == {};
    } else {
      var init, n := nonces[..|nonces| - 1], |nonces| - 1;
      UnexpiredCount(init, now);
      assert Live(nonces, now) == Live(init, now) + (if nonces[n].expires >= now then {n} else {});
    }
  }

  /** The clock has not gone back, the key has no unexpired entry, and there is room beside those that have one. */
  ghost predicate Welcome(f: File, key: Key, now: int) {
    f.highWater <= now && |Live(f.nonces, now)| < 4096 &&
    forall i :: 0 <= i < |f.nonces| && f.nonces[i].expires >= now ==> f.nonces[i].key != key
  }

  /** The file afterwards: what had not expired, and the new entry last. */
  ghost predicate Adds(f: File, key: Key, expires: int, now: int, n: File) {
    n.highWater == now && |n.nonces| == |Live(f.nonces, now)| + 1 && n.nonces[|n.nonces| - 1] == Entry(key, expires) &&
    forall e :: e in n.nonces <==> e == Entry(key, expires) || (e in f.nonces && e.expires >= now)
  }

  lemma DecideIff(f: File, key: Key, expires: int, now: int)
    ensures Decide(f, key, expires, now).Some? <==> Welcome(f, key, now)
    ensures Welcome(f, key, now) ==> Adds(f, key, expires, now, Decide(f, key, expires, now).value)
  {
    var entries := Unexpired(f.nonces, now);
    UnexpiredAre(f.nonces, now);
    UnexpiredCount(f.nonces, now);
    if Has(entries, key) {
      var i :| 0 <= i < |entries| && entries[i].key == key;
      assert entries[i] in f.nonces;
    }
    forall i | 0 <= i < |f.nonces| && f.nonces[i].expires >= now
      ensures exists j :: 0 <= j < |entries| && entries[j] == f.nonces[i]
    {
      assert f.nonces[i] in entries;
    }
  }

  /** Admission on the clocks, the memory and the file as they are. */
  ghost predicate LetIn(d: Door, h: Hello, first: int, second: int) {
    -60_000 <= first - h.ts <= 60_000 &&
    (h.key in d.recent ==> d.recent[h.key] < second) &&
    |set k | k in d.recent && d.recent[k] >= second| < 4096 &&
    Welcome(Contents(d.file), h.key, second)
  }

  lemma AdmitIff(d: Door, h: Hello, first: int, second: int, write: Write, open: bool)
    ensures Admit(d, Arrive(h, first, second, write, open)).accepted <==>
      LetIn(d, h, first, second) && write == Done && open
  {
    DecideIff(Contents(d.file), h.key, h.Expires(), second);
    var recent := Pruned(d.recent, second);
    assert recent.Keys == set k | k in d.recent && d.recent[k] >= second;
    assert |recent| == |recent.Keys|;
  }

  // ---- over whole runs ----------------------------------------------------------------------------------

  /** Some earlier HELLO of the run has this key and expires then. */
  ghost predicate CameBy(events: seq<Event>, i: nat, key: Key, expires: int) {
    exists m: nat :: m < i && m < |events| && events[m].Arrive? && events[m].hello.key == key &&
      events[m].hello.Expires() == expires
  }

  /** What is held at the door came by, and the file's clock is some earlier reading. */
  ghost predicate Traced(events: seq<Event>, i: nat, d: Door) {
    (forall k <- d.recent :: CameBy(events, i, k, d.recent[k])) &&
    (forall n :: 0 <= n < |Contents(d.file).nonces| ==>
       CameBy(events, i, Contents(d.file).nonces[n].key, Contents(d.file).nonces[n].expires)) &&
    (Contents(d.file).highWater == 0 ||
     exists m: nat :: m < i && m < |events| && events[m].Arrive? && events[m].second == Contents(d.file).highWater)
  }

  lemma CameByLater(events: seq<Event>, i: nat)
    ensures forall key, expires :: CameBy(events, i, key, expires) ==> CameBy(events, i + 1, key, expires)
  {
  }

  lemma AdmitTraces(events: seq<Event>, i: nat, d: Door)
    requires i < |events| && Traced(events, i, d)
    ensures Traced(events, i + 1, Admit(d, events[i]).door)
  {
    CameByLater(events, i);
    var e, u := events[i], Admit(d, events[i]).door;
    if e.Arrive? {
      assert CameBy(events, i + 1, e.hello.key, e.hello.Expires());
      DecideIff(Contents(d.file), e.hello.key, e.hello.Expires(), e.second);
      forall n | 0 <= n < |Contents(u.file).nonces|
        ensures CameBy(events, i + 1, Contents(u.file).nonces[n].key, Contents(u.file).nonces[n].expires)
      {
        var entry := Contents(u.file).nonces[n];
        assert entry in Contents(u.file).nonces;
        if entry != Entry(e.hello.key, e.hello.Expires()) || u.file == d.file {
          var was :| 0 <= was < |Contents(d.file).nonces| && Contents(d.file).nonces[was] == entry;
        }
      }
    }
  }

  lemma {:induction false} RunTraces(events: seq<Event>, i: nat)
    requires i <= |events|
    ensures Traced(events, i, Run(FRESH, events[..i]))
  {
    if i > 0 {
      assert events[..i][..i - 1] == events[..i - 1];
      RunTraces(events, i - 1);
      AdmitTraces(events, i - 1, Run(FRESH, events[..i - 1]));
    }
  }

  /** The keys of the earlier HELLOs that have not expired at this reading. */
  function Around(events: seq<Event>, i: nat, now: int): set<Key>
    requires i <= |events|
  {
    set m: nat | m < i && events[m].Arrive? && events[m].hello.Expires() >= now :: events[m].hello.key
  }

  lemma SubsetSize<T>(a: set<T>, b: set<T>)
    requires a <= b
    ensures |a| <= |b|
  {
    assert b == a + (b - a);
  }

  /** Entries with keys of their own are no more than the keys there are. */
  lemma {:induction false} DistinctSize(entries: seq<Entry>, keys: set<Key>)
    requires DistinctKeys(entries) && forall i :: 0 <= i < |entries| ==> entries[i].key in keys
    ensures |entries| <= |keys|
  {
    if entries != [] {
      var last := entries[|entries| - 1];
      DistinctSize(entries[..|entries| - 1], keys - {last.key});
    }
  }

  lemma RoomAtTheDoor(events: seq<Event>, i: nat, d: Door, now: int)
    requires i <= |events| && Traced(events, i, d) && DistinctKeys(Contents(d.file).nonces)
    ensures |Live(Contents(d.file).nonces, now)| <= |Around(events, i, now)|
    ensures |set k | k in d.recent && d.recent[k] >= now| <= |Around(events, i, now)|
  {
    var nonces, around := Contents(d.file).nonces, Around(events, i, now);
    UnexpiredCount(nonces, now);
    UnexpiredAre(nonces, now);
    var entries := Unexpired(nonces, now);
    forall n | 0 <= n < |entries| ensures entries[n].key in around {
      assert entries[n] in entries;
      var was :| 0 <= was < |nonces| && nonces[was] == entries[n];
      assert CameBy(events, i, nonces[was].key, nonces[was].expires);
    }
    DistinctSize(entries, around);
    SubsetSize((set k | k in d.recent && d.recent[k] >= now), around);
  }

  /**
   * Over every run: a HELLO in its window, read at no earlier time than those before it, whose nonce
   * belongs to none of them that is still unexpired, is accepted while fewer than 4096 of them are,
   * if its write succeeds and its session stays open.
   */
  lemma FreshIsAccepted(events: seq<Event>, i: nat)
    requires i < |events| && (forall m :: 0 <= m < |events| ==> Timed(events[m]))
    requires events[i].Arrive? && events[i].write == Done && events[i].open
    requires -60_000 <= events[i].first - events[i].hello.ts <= 60_000
    requires forall m :: 0 <= m < i && events[m].Arrive? ==>
      events[m].second <= events[i].second &&
      (events[m].hello.key == events[i].hello.key ==> events[m].hello.ts + 60_000 < events[i].second)
    requires |Around(events, i, events[i].second)| < 4096
    ensures AcceptedAt(events, i)
  {
    var e, d := events[i], Run(FRESH, events[..i]);
    RunTraces(events, i);
    JournalAlwaysReads(events[..i]);
    RoomAtTheDoor(events, i, d, e.second);
    AdmitIff(d, e.hello, e.first, e.second, e.write, e.open);
    var nonces := Contents(d.file).nonces;
    forall n | 0 <= n < |nonces| && nonces[n].expires >= e.second ensures nonces[n].key != e.hello.key {
      assert CameBy(events, i, nonces[n].key, nonces[n].expires);
    }
    if e.hello.key in d.recent { assert CameBy(events, i, e.hello.key, d.recent[e.hello.key]); }
  }

  /** A gateway that reconnects with a fresh nonce, however soon, is accepted both times. */
  lemma ReconnectIsAccepted(a: Event, b: Event)
    requires Timed(a) && Timed(b) && a.Arrive? && b.Arrive?
    requires a.write == Done && a.open && b.write == Done && b.open
    requires -60_000 <= a.first - a.hello.ts <= 60_000 && -60_000 <= b.first - b.hello.ts <= 60_000
    requires a.second <= b.second && a.hello.key.nonce != b.hello.key.nonce
    ensures AcceptedAt([a, b], 0) && AcceptedAt([a, b], 1)
  {
    var events := [a, b];
    assert Around(events, 0, a.second) == {};
    SubsetSize(Around(events, 1, b.second), {a.hello.key});
    FreshIsAccepted(events, 0);
    FreshIsAccepted(events, 1);
  }

  // ---- the server ------------------------------------------------------------------------------------------

  class Gateways {
    var file: Option<File>
    var hellos: map<Key, int>

    ghost function View(): Door
      reads this
    {
      Door(file, hellos)
    }

    constructor (onDisk: Option<File>)
      ensures View() == Door(onDisk, map[])
    {
      file, hellos := onDisk, map[];
    }

    /** Forget the nonces that have expired. */
    method Prune(now: int)
      modifies this`hellos
      ensures hellos == Pruned(old(hellos), now)
    {
      var left := hellos.Keys;
      while left != {}
        invariant left <= old(hellos).Keys
        invariant forall k :: k in hellos <==> k in old(hellos) && (k in left || old(hellos)[k] >= now)
        invariant forall k :: k in hellos ==> hellos[k] == old(hellos)[k]
        decreases left
      {
        var k :| k in left;
        left := left - {k};
        if hellos[k] < now { hellos := hellos - {k}; }
      }
    }

    /** HelloReplayStore.accept: read, decide and replace the file in one locked section. */
    method Accept(key: Key, expires: int, now: int, write: Write) returns (isNew: bool)
      modifies this`file
      ensures isNew <==>
        write == Done && Contents(old(file)).highWater <= now && |Live(Contents(old(file)).nonces, now)| < 4096 &&
        forall i :: 0 <= i < |Contents(old(file)).nonces| && Contents(old(file)).nonces[i].expires >= now ==>
          Contents(old(file)).nonces[i].key != key
      ensures if isNew then file.Some? && Adds(Contents(old(file)), key, expires, now, file.value)
              else write != Doubtful ==> file == old(file)
      ensures file == if Decide(Contents(old(file)), key, expires, now).None? || write.Failed? then old(file)
                      else Decide(Contents(old(file)), key, expires, now)
    {
      DecideIff(Contents(file), key, expires, now);
      var v := Contents(file);
      isNew := false;
      if now < v.highWater { return; }
      var entries := Unexpired(v.nonces, now);
      if Has(entries, key) || |entries| >= CAPACITY { return; }
      entries := entries + [Entry(key, expires)];
      if write.Failed? { return; }
      file := Some(File(now, entries));
      isNew := write.Done?;
    }

    /** A HELLO whose signature holds. */
    method OnHello(h: Hello, first: int, second: int, write: Write, open: bool) returns (accepted: bool)
      modifies this
      ensures Admission(View(), accepted) == Admit(old(View()), Arrive(h, first, second, write, open))
      ensures accepted <==> old(LetIn(View(), h, first, second)) && write == Done && open
    {
      AdmitIff(View(), h, first, second, write, open);
      accepted := false;
      if !InWindow(h, first) { return; }
      Prune(second);
      if h.key in hellos || |hellos| >= CAPACITY { return; }
      var isNew := Accept(h.key, h.Expires(), second, write);
      if !isNew || !open { return; }
      hellos := hellos[h.key := h.Expires()];
      accepted := true;
    }
  }
}

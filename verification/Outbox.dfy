/**
 * The training worker (deploy/training/worker.py:108-188): source files drain into the database,
 * and go only once their rows are committed and match. A row is inserted on an unused id or not
 * at all; every transaction commits, fails, or loses its acknowledgement.
 */
module Outbox {
  import opened Wrappers

  type Path = int

  datatype Modality = Thermal | Rgb

  /** A row of training.frames; rest stands for the columns that are never compared. */
  datatype Frame = Frame(id: int, uid: int, modality: Modality, payloadSha: int, sourceSha: int, rest: int)

  /** A row of training.pairs; details stands for skew and mirror. */
  datatype Pair = Pair(id: int, thermalId: int, rgbId: int, details: int, sourceSha: int, rest: int)

  datatype Record = Record(frames: seq<Frame>, pair: Option<Pair>, files: seq<Path>)

  datatype Db = Db(frames: map<int, Frame>, pairs: map<int, Pair>)

  // ---- INSERT ... ON CONFLICT (id) DO NOTHING ---------------------------------------------------

  function Insert<R>(table: map<int, R>, rows: seq<R>, id: R -> int): map<int, R> {
    if rows == [] then table
    else
      var before, row := Insert(table, rows[..|rows| - 1], id), rows[|rows| - 1];
      if id(row) in before then before else before[id(row) := row]
  }

  ghost predicate Extends<R>(a: map<int, R>, b: map<int, R>) { forall k <- a :: k in b && b[k] == a[k] }

  lemma {:induction false} InsertKeeps<R>(table: map<int, R>, rows: seq<R>, id: R -> int)
    ensures Extends(table, Insert(table, rows, id))
    ensures forall i :: 0 <= i < |rows| ==> id(rows[i]) in Insert(table, rows, id)
  {
    if rows != [] { InsertKeeps(table, rows[..|rows| - 1], id); }
  }

  lemma {:induction false} InsertKnown<R>(table: map<int, R>, rows: seq<R>, id: R -> int)
    requires forall i :: 0 <= i < |rows| ==> id(rows[i]) in table
    ensures Insert(table, rows, id) == table
  {
    if rows != [] { InsertKnown(table, rows[..|rows| - 1], id); }
  }

  lemma InsertAgain<R>(table: map<int, R>, rows: seq<R>, id: R -> int)
    ensures Insert(Insert(table, rows, id), rows, id) == Insert(table, rows, id)
  {
    InsertKeeps(table, rows, id);
    InsertKnown(Insert(table, rows, id), rows, id);
  }

  // ---- one batch -----------------------------------------------------------------------------------

  function FrameId(f: Frame): int { f.id }

  function PairId(p: Pair): int { p.id }

  function FramesOf(parsed: seq<Record>): seq<Frame> {
    if parsed == [] then [] else FramesOf(parsed[..|parsed| - 1]) + parsed[|parsed| - 1].frames
  }

  function PairsOf(records: seq<Record>): seq<Pair> {
    if records == [] then []
    else
      var last := records[|records| - 1];
      PairsOf(records[..|records| - 1]) + (if last.pair.Some? then [last.pair.value] else [])
  }

  /** The stored row is the one of this source: payload, source, sensor and modality agree. */
  predicate SameFrame(table: map<int, Frame>, f: Frame) {
    f.id in table && table[f.id].(rest := f.rest) == f
  }

  predicate FramesMatch(table: map<int, Frame>, r: Record) {
    forall i :: 0 <= i < |r.frames| ==> SameFrame(table, r.frames[i])
  }

  /** The thermal frame the record points at is there and comes from the same sensor. */
  predicate PairReady(table: map<int, Frame>, r: Record) {
    r.pair.Some? ==>
      |r.frames| > 0 && r.pair.value.thermalId in table && table[r.pair.value.thermalId].modality.Thermal? &&
      table[r.pair.value.thermalId].uid == r.frames[|r.frames| - 1].uid
  }

  predicate PairMatches(table: map<int, Pair>, r: Record) {
    r.pair.Some? ==> r.pair.value.id in table && table[r.pair.value.id].(rest := r.pair.value.rest) == r.pair.value
  }

  /** The record's frames are stored as its own, and its pair, if it has one, has its thermal frame. */
  predicate Fits(rows: map<int, Frame>, r: Record) {
    (forall i :: 0 <= i < |r.frames| ==> r.frames[i].id in rows && Agrees(rows[r.frames[i].id], r.frames[i])) &&
    (r.pair.Some? ==>
       var t := r.pair.value.thermalId;
       |r.frames| > 0 && t in rows && rows[t].modality == Thermal && rows[t].uid == r.frames[|r.frames| - 1].uid)
  }

  predicate Agrees(row: Frame, f: Frame) {
    row.id == f.id && row.uid == f.uid && row.modality == f.modality && row.payloadSha == f.payloadSha &&
    row.sourceSha == f.sourceSha
  }

  predicate PairAgrees(row: Pair, p: Pair) {
    row.id == p.id && row.thermalId == p.thermalId && row.rgbId == p.rgbId && row.details == p.details &&
    row.sourceSha == p.sourceSha
  }

  /** Everything a record says is in the database as the record says it, column by column. */
  predicate Safe(db: Db, r: Record) {
    Fits(db.frames, r) &&
    (r.pair.Some? ==> r.pair.value.id in db.pairs && PairAgrees(db.pairs[r.pair.value.id], r.pair.value))
  }

  lemma FitsIff(rows: map<int, Frame>, r: Record)
    ensures Fits(rows, r) <==> FramesMatch(rows, r) && PairReady(rows, r)
  {
    forall i | 0 <= i < |r.frames|
      ensures SameFrame(rows, r.frames[i]) <==> r.frames[i].id in rows && Agrees(rows[r.frames[i].id], r.frames[i])
    {
    }
  }

  /** Which is what the three checks of the worker come to. */
  lemma SafeIff(db: Db, r: Record)
    ensures Safe(db, r) <==> FramesMatch(db.frames, r) && PairReady(db.frames, r) && PairMatches(db.pairs, r)
  {
    FitsIff(db.frames, r);
  }

  function Select(records: seq<Record>, keep: Record -> bool): (s: seq<Record>)
    ensures |s| <= |records|
  {
    if records == [] then []
    else
      var last := records[|records| - 1];
      Select(records[..|records| - 1], keep) + (if keep(last) then [last] else [])
  }

  lemma {:induction false} Selected(records: seq<Record>, keep: Record -> bool)
    ensures forall r :: r in Select(records, keep) <==> r in records && keep(r)
  {
    if records != [] {
      Selected(records[..|records| - 1], keep);
      assert records == records[..|records| - 1] + [records[|records| - 1]];
    }
  }

  datatype Batch = Batch(db: Db, verified: seq<Record>)

  function Valid(frames: map<int, Frame>, parsed: seq<Record>): seq<Record> {
    Select(parsed, r => FramesMatch(frames, r))
  }

  function Ready(frames: map<int, Frame>, valid: seq<Record>): seq<Record> { Select(valid, r => PairReady(frames, r)) }

  function Verified(pairs: map<int, Pair>, ready: seq<Record>): seq<Record> {
    Select(ready, r => PairMatches(pairs, r))
  }

  /** store_batch: frames first, then the pairs whose thermal frame is there; what matches is verified. */
  function StoreBatch(db: Db, parsed: seq<Record>): Batch {
    if FramesOf(parsed) == [] then Batch(db, [])
    else
      var frames := Insert(db.frames, FramesOf(parsed), FrameId);
      var ready := Ready(frames, Valid(frames, parsed));
      var pairs := Insert(db.pairs, PairsOf(ready), PairId);
      Batch(Db(frames, pairs), Verified(pairs, ready))
  }

  // ---- what a batch leaves, row by row -----------------------------------------------------------------

  /** A new row is the first of its id among those offered. */
  predicate FirstOf<R>(rows: seq<R>, id: R -> int, i: nat) {
    i < |rows| && forall j :: 0 <= j < i ==> id(rows[j]) != id(rows[i])
  }

  ghost predicate Inserted<R>(table: map<int, R>, rows: seq<R>, id: R -> int, k: int, after: map<int, R>) {
    (k in table && k in after && after[k] == table[k]) || (k !in table && k !in after) ||
    (k !in table && k in after && exists i: nat :: FirstOf(rows, id, i) && id(rows[i]) == k && after[k] == rows[i])
  }

  lemma {:induction false} InsertIs<R>(table: map<int, R>, rows: seq<R>, id: R -> int, k: int)
    ensures Inserted(table, rows, id, k, Insert(table, rows, id))
  {
    if rows != [] {
      var init, n := rows[..|rows| - 1], |rows| - 1;
      InsertIs(table, init, id, k);
      InsertKeeps(table, init, id);
      var before := Insert(table, init, id);
      if k !in table && k in before {
        var i: nat :| FirstOf(init, id, i) && id(init[i]) == k && before[k] == init[i];
        assert FirstOf(rows, id, i);
      } else if k !in table && id(rows[n]) == k {
        assert forall j :: 0 <= j < n ==> id(init[j]) in before;
        assert FirstOf(rows, id, n);
      }
    }
  }

  predicate IsFrame(parsed: seq<Record>, a: nat, b: nat) { a < |parsed| && b < |parsed[a].frames| }

  /** Place (a, b) of a batch comes before place (c, d). */
  predicate Before(a: nat, b: nat, c: nat, d: nat) { a < c || (a == c && b < d) }

  lemma {:induction false} FrameIsOffered(parsed: seq<Record>, a: nat, b: nat) returns (i: nat)
    requires IsFrame(parsed, a, b)
    ensures i < |FramesOf(parsed)| && FramesOf(parsed)[i] == parsed[a].frames[b]
  {
    var n := |parsed| - 1;
    if a == n { i := |FramesOf(parsed[..n])| + b; } else { i := FrameIsOffered(parsed[..n], a, b); }
  }

  /** The i-th frame offered stands somewhere in the batch, and all that stand before it are offered before it. */
  lemma {:induction false} OfferedIsFrame(parsed: seq<Record>, i: nat) returns (a: nat, b: nat)
    requires i < |FramesOf(parsed)|
    ensures IsFrame(parsed, a, b) && FramesOf(parsed)[i] == parsed[a].frames[b]
    ensures forall c: nat, d: nat :: IsFrame(parsed, c, d) && Before(c, d, a, b) ==>
      parsed[c].frames[d] in FramesOf(parsed)[..i]
  {
    var n := |parsed| - 1;
    var init := FramesOf(parsed[..n]);
    if i < |init| {
      a, b := OfferedIsFrame(parsed[..n], i);
      assert FramesOf(parsed)[..i] == init[..i];
      assert forall c: nat, d: nat :: IsFrame(parsed, c, d) && c < n ==> IsFrame(parsed[..n], c, d);
    } else {
      a, b := n, i - |init|;
      forall c: nat, d: nat | IsFrame(parsed, c, d) && Before(c, d, a, b)
        ensures parsed[c].frames[d] in FramesOf(parsed)[..i]
      {
        if c < n {
          var j := FrameIsOffered(parsed[..n], c, d);
          assert FramesOf(parsed)[..i][j] == parsed[c].frames[d];
        } else {
          assert FramesOf(parsed)[..i][|init| + d] == parsed[c].frames[d];
        }
      }
    }
  }

  /** The first frame of the batch with its id. */
  ghost predicate FirstFrame(parsed: seq<Record>, a: nat, b: nat) {
    IsFrame(parsed, a, b) &&
    forall c: nat, d: nat :: IsFrame(parsed, c, d) && Before(c, d, a, b) ==>
      parsed[c].frames[d].id != parsed[a].frames[b].id
  }

  /** Every frame of the batch has a row, every old row is as it was, and a new one is the first of its id. */
  ghost predicate FramesStored(was: map<int, Frame>, parsed: seq<Record>, rows: map<int, Frame>) {
    (forall a: nat, b: nat :: IsFrame(parsed, a, b) ==> parsed[a].frames[b].id in rows) &&
    (forall k <- was :: k in rows && rows[k] == was[k]) &&
    (forall k <- rows :: k in was ||
       exists a: nat, b: nat ::
         FirstFrame(parsed, a, b) && parsed[a].frames[b].id == k && rows[k] == parsed[a].frames[b])
  }

  lemma FramesAreStored(was: map<int, Frame>, parsed: seq<Record>)
    ensures FramesStored(was, parsed, Insert(was, FramesOf(parsed), FrameId))
  {
    var offered := FramesOf(parsed);
    var rows := Insert(was, offered, FrameId);
    InsertKeeps(was, offered, FrameId);
    forall a: nat, b: nat | IsFrame(parsed, a, b) ensures parsed[a].frames[b].id in rows {
      var i := FrameIsOffered(parsed, a, b);
      assert FrameId(offered[i]) in rows;
    }
    forall k | k in rows && k !in was
      ensures exists a: nat, b: nat ::
        FirstFrame(parsed, a, b) && parsed[a].frames[b].id == k && rows[k] == parsed[a].frames[b]
    {
      InsertIs(was, offered, FrameId, k);
      var i: nat :| FirstOf(offered, FrameId, i) && FrameId(offered[i]) == k && rows[k] == offered[i];
      var a, b := OfferedIsFrame(parsed, i);
      assert FirstFrame(parsed, a, b);
    }
  }

  /** Which records get as far as their pair. */
  lemma ReadySnoc(rows: map<int, Frame>, parsed: seq<Record>)
    requires parsed != []
    ensures var n := |parsed| - 1;
      var before := Ready(rows, Valid(rows, parsed[..n]));
      Ready(rows, Valid(rows, parsed)) == if Fits(rows, parsed[n]) then before + [parsed[n]] else before
  {
    var n := |parsed| - 1;
    FitsIff(rows, parsed[n]);
    var valid := Valid(rows, parsed[..n]);
    if FramesMatch(rows, parsed[n]) {
      assert Valid(rows, parsed) == valid + [parsed[n]];
      assert (valid + [parsed[n]])[..|valid|] == valid;
      assert Ready(rows, valid) + [] == Ready(rows, valid);
    } else {
      assert Valid(rows, parsed) == valid + [] == valid;
    }
  }

  predicate HasPair(rows: map<int, Frame>, parsed: seq<Record>, a: nat) {
    a < |parsed| && Fits(rows, parsed[a]) && parsed[a].pair.Some?
  }

  function ReadyPairs(rows: map<int, Frame>, parsed: seq<Record>): seq<Pair> {
    PairsOf(Ready(rows, Valid(rows, parsed)))
  }

  lemma PairsSnoc(rows: map<int, Frame>, parsed: seq<Record>)
    requires parsed != []
    ensures var n := |parsed| - 1;
      var before := ReadyPairs(rows, parsed[..n]);
      ReadyPairs(rows, parsed) == if HasPair(rows, parsed, n) then before + [parsed[n].pair.value] else before
  {
    var n := |parsed| - 1;
    ReadySnoc(rows, parsed);
    var before := Ready(rows, Valid(rows, parsed[..n]));
    assert (before + [parsed[n]])[..|before|] == before && PairsOf(before) + [] == PairsOf(before);
  }

  lemma {:induction false} PairIsOffered(rows: map<int, Frame>, parsed: seq<Record>, a: nat)
    requires HasPair(rows, parsed, a)
    ensures parsed[a].pair.value in ReadyPairs(rows, parsed)
  {
    var n := |parsed| - 1;
    PairsSnoc(rows, parsed);
    if a < n { PairIsOffered(rows, parsed[..n], a); }
  }

  /** The i-th pair offered is that of record a, and those of the records before it are offered before it. */
  ghost predicate OfferedAt(rows: map<int, Frame>, parsed: seq<Record>, i: nat, a: nat) {
    var offered := ReadyPairs(rows, parsed);
    i < |offered| && HasPair(rows, parsed, a) && offered[i] == parsed[a].pair.value &&
    forall c: nat :: c < a && HasPair(rows, parsed, c) ==> parsed[c].pair.value in offered[..i]
  }

  lemma OfferedStill(rows: map<int, Frame>, parsed: seq<Record>, i: nat, a: nat)
    requires parsed != [] && OfferedAt(rows, parsed[..|parsed| - 1], i, a)
    ensures OfferedAt(rows, parsed, i, a)
  {
    var n := |parsed| - 1;
    PairsSnoc(rows, parsed);
    assert ReadyPairs(rows, parsed)[..i] == ReadyPairs(rows, parsed[..n])[..i];
    forall c: nat | c < a && HasPair(rows, parsed, c) ensures parsed[c].pair.value in ReadyPairs(rows, parsed)[..i] {
      assert HasPair(rows, parsed[..n], c);
    }
  }

  lemma OfferedLast(rows: map<int, Frame>, parsed: seq<Record>)
    requires parsed != [] && HasPair(rows, parsed, |parsed| - 1)
    ensures OfferedAt(rows, parsed, |ReadyPairs(rows, parsed[..|parsed| - 1])|, |parsed| - 1)
  {
    var n := |parsed| - 1;
    var init := ReadyPairs(rows, parsed[..n]);
    PairsSnoc(rows, parsed);
    assert ReadyPairs(rows, parsed)[..|init|] == init;
    forall c: nat | c < n && HasPair(rows, parsed, c) ensures parsed[c].pair.value in init {
      PairIsOffered(rows, parsed[..n], c);
    }
  }

  lemma {:induction false} OfferedIsPair(rows: map<int, Frame>, parsed: seq<Record>, i: nat) returns (a: nat)
    requires i < |ReadyPairs(rows, parsed)|
    ensures OfferedAt(rows, parsed, i, a)
  {
    var n := |parsed| - 1;
    PairsSnoc(rows, parsed);
    if i < |ReadyPairs(rows, parsed[..n])| {
      a := OfferedIsPair(rows, parsed[..n], i);
      OfferedStill(rows, parsed, i, a);
    } else {
      a := n;
      OfferedLast(rows, parsed);
    }
  }

  /** The first pair of the batch with its id, among the records that get that far. */
  ghost predicate FirstPair(rows: map<int, Frame>, parsed: seq<Record>, a: nat) {
    HasPair(rows, parsed, a) &&
    forall c: nat :: c < a && HasPair(rows, parsed, c) ==> parsed[c].pair.value.id != parsed[a].pair.value.id
  }

  /** Every pair whose record fits has a row, every old row is as it was, a new one is the first of its id. */
  ghost predicate PairsStored(was: map<int, Pair>, rows: map<int, Frame>, parsed: seq<Record>, pairs: map<int, Pair>) {
    (forall a: nat :: HasPair(rows, parsed, a) ==> parsed[a].pair.value.id in pairs) &&
    (forall k <- was :: k in pairs && pairs[k] == was[k]) &&
    (forall k <- pairs :: k in was ||
       exists a: nat :: FirstPair(rows, parsed, a) && parsed[a].pair == Some(pairs[k]) && pairs[k].id == k)
  }

  lemma PairsAreStored(was: map<int, Pair>, rows: map<int, Frame>, parsed: seq<Record>)
    ensures PairsStored(was, rows, parsed, Insert(was, ReadyPairs(rows, parsed), PairId))
  {
    var offered := ReadyPairs(rows, parsed);
    var pairs := Insert(was, offered, PairId);
    InsertKeeps(was, offered, PairId);
    forall a: nat | HasPair(rows, parsed, a) ensures parsed[a].pair.value.id in pairs {
      PairIsOffered(rows, parsed, a);
      var i :| 0 <= i < |offered| && offered[i] == parsed[a].pair.value;
      assert PairId(offered[i]) in pairs;
    }
    forall k | k in pairs && k !in was
      ensures exists a: nat :: FirstPair(rows, parsed, a) && parsed[a].pair == Some(pairs[k]) && pairs[k].id == k
    {
      InsertIs(was, offered, PairId, k);
      var i: nat :| FirstOf(offered, PairId, i) && PairId(offered[i]) == k && pairs[k] == offered[i];
      var a := OfferedIsPair(rows, parsed, i);
      assert FirstPair(rows, parsed, a);
    }
  }

  /** The database after a batch, described by its rows alone. */
  ghost predicate Stored(was: Db, parsed: seq<Record>, after: Db) {
    FramesStored(was.frames, parsed, after.frames) && PairsStored(was.pairs, after.frames, parsed, after.pairs)
  }

  lemma BatchIsStored(db: Db, parsed: seq<Record>)
    ensures Stored(db, parsed, StoreBatch(db, parsed).db)
  {
    FramesAreStored(db.frames, parsed);
    if FramesOf(parsed) == [] {
      forall a: nat | a < |parsed| ensures parsed[a].frames == [] {
        if parsed[a].frames != [] { var i := FrameIsOffered(parsed, a, 0); }
      }
    } else {
      PairsAreStored(db.pairs, Insert(db.frames, FramesOf(parsed), FrameId), parsed);
    }
  }

  /** Verified is what is safe afterwards, as long as there was any frame to store. */
  lemma VerifiedIff(db: Db, parsed: seq<Record>)
    ensures var b := StoreBatch(db, parsed);
      forall r :: r in b.verified <==>
        r in parsed && Safe(b.db, r) && exists c: nat, d: nat :: IsFrame(parsed, c, d)
  {
    StoreKeepsRows(db, parsed);
    if FramesOf(parsed) != [] {
      var a, b := OfferedIsFrame(parsed, 0);
    } else {
      forall c: nat, d: nat ensures !IsFrame(parsed, c, d) {
        if IsFrame(parsed, c, d) { var i := FrameIsOffered(parsed, c, d); }
      }
    }
  }

  /** Nobody else in the database or in the batch uses the ids of record a. */
  ghost predicate FreeIds(db: Db, parsed: seq<Record>, a: nat) {
    a < |parsed| &&
    (forall b: nat :: b < |parsed[a].frames| ==>
       parsed[a].frames[b].id !in db.frames &&
       forall c: nat, d: nat :: IsFrame(parsed, c, d) && (c, d) != (a, b) ==>
         parsed[c].frames[d].id != parsed[a].frames[b].id) &&
    (parsed[a].pair.Some? ==>
       parsed[a].pair.value.id !in db.pairs &&
       forall c: nat :: c < |parsed| && c != a && parsed[c].pair.Some? ==>
         parsed[c].pair.value.id != parsed[a].pair.value.id)
  }

  /** Then its frames are stored as they are. */
  lemma FreeFrames(db: Db, parsed: seq<Record>, a: nat, b: nat, rows: map<int, Frame>)
    requires FreeIds(db, parsed, a) && IsFrame(parsed, a, b) && FramesStored(db.frames, parsed, rows)
    ensures parsed[a].frames[b].id in rows && rows[parsed[a].frames[b].id] == parsed[a].frames[b]
  {
    var k := parsed[a].frames[b].id;
    var c: nat, d: nat :| FirstFrame(parsed, c, d) && parsed[c].frames[d].id == k && rows[k] == parsed[c].frames[d];
  }

  /**
   * A record with ids of its own, and whose thermal frame, if it names one, is there, is stored and
   * verified: the batch does its work.
   */
  lemma FreshIsVerified(db: Db, parsed: seq<Record>, a: nat)
    requires FreeIds(db, parsed, a) && parsed[a].frames != []
    requires var after := StoreBatch(db, parsed).db;
      parsed[a].pair.Some? ==>
        var t := parsed[a].pair.value.thermalId;
        t in after.frames && after.frames[t].modality == Thermal &&
        after.frames[t].uid == parsed[a].frames[|parsed[a].frames| - 1].uid
    ensures parsed[a] in StoreBatch(db, parsed).verified
    ensures var after := StoreBatch(db, parsed).db;
      (forall b: nat :: IsFrame(parsed, a, b) ==>
         parsed[a].frames[b].id in after.frames && after.frames[parsed[a].frames[b].id] == parsed[a].frames[b]) &&
      (parsed[a].pair.Some? ==>
         parsed[a].pair.value.id in after.pairs && after.pairs[parsed[a].pair.value.id] == parsed[a].pair.value)
  {
    var after, r := StoreBatch(db, parsed).db, parsed[a];
    BatchIsStored(db, parsed);
    forall b: nat | IsFrame(parsed, a, b)
      ensures r.frames[b].id in after.frames && after.frames[r.frames[b].id] == r.frames[b]
    {
      FreeFrames(db, parsed, a, b, after.frames);
    }
    assert Fits(after.frames, r) by {
      forall i | 0 <= i < |r.frames| ensures r.frames[i].id in after.frames { assert IsFrame(parsed, a, i); }
    }
    if r.pair.Some? {
      assert HasPair(after.frames, parsed, a);
      var k := r.pair.value.id;
      var c: nat :| FirstPair(after.frames, parsed, c) && parsed[c].pair == Some(after.pairs[k]) &&
        after.pairs[k].id == k;
    }
    var i := FrameIsOffered(parsed, a, 0);
    StoreKeepsRows(db, parsed);
  }

  ghost predicate Grows(a: Db, b: Db) { Extends(a.frames, b.frames) && Extends(a.pairs, b.pairs) }

  /** No stored row is ever changed, and verified means safe. */
  lemma StoreKeepsRows(db: Db, parsed: seq<Record>)
    ensures Grows(db, StoreBatch(db, parsed).db)
    ensures forall r :: r in StoreBatch(db, parsed).verified <==>
      r in parsed && FramesOf(parsed) != [] && Safe(StoreBatch(db, parsed).db, r)
  {
    if FramesOf(parsed) != [] {
      var frames := Insert(db.frames, FramesOf(parsed), FrameId);
      var ready := Ready(frames, Valid(frames, parsed));
      var pairs := Insert(db.pairs, PairsOf(ready), PairId);
      InsertKeeps(db.frames, FramesOf(parsed), FrameId);
      InsertKeeps(db.pairs, PairsOf(ready), PairId);
      Selected(parsed, r => FramesMatch(frames, r));
      Selected(Valid(frames, parsed), r => PairReady(frames, r));
      Selected(ready, r => PairMatches(pairs, r));
      forall r | r in parsed
        ensures Safe(Db(frames, pairs), r) <==> FramesMatch(frames, r) && PairReady(frames, r) && PairMatches(pairs, r)
      {
        SafeIff(Db(frames, pairs), r);
      }
    }
  }

  /** Doing a batch again, its acknowledgement lost, changes nothing and verifies the same records. */
  lemma RetryChangesNothing(db: Db, parsed: seq<Record>)
    ensures StoreBatch(StoreBatch(db, parsed).db, parsed) == StoreBatch(db, parsed)
  {
    if FramesOf(parsed) != [] {
      var frames := Insert(db.frames, FramesOf(parsed), FrameId);
      InsertAgain(db.frames, FramesOf(parsed), FrameId);
      InsertAgain(db.pairs, PairsOf(Ready(frames, Valid(frames, parsed))), PairId);
    }
  }

  /** A record once safe stays safe, whatever else is stored. */
  lemma SafeStays(a: Db, b: Db, r: Record)
    requires Grows(a, b) && Safe(a, r)
    ensures Safe(b, r)
  {
  }

  // ---- draining ----------------------------------------------------------------------------------------

  /** How a transaction ends: acknowledged; undone; or committed without the worker hearing of it. */
  datatype Fate = Acked | Undone | Unheard

  /** What a drain meets: the files' contents, the constraints of the database, the transactions' fates. */
  datatype World = World(parse: Path -> Option<Record>, refuses: (Db, seq<Record>) -> bool, fate: nat -> Fate)

  datatype Drained = Drained(db: Db, verified: seq<Record>, lost: bool)

  /** One transaction round a batch. */
  function Transact(db: Db, parsed: seq<Record>, fate: Fate): Drained {
    match fate
    case Acked => Drained(StoreBatch(db, parsed).db, StoreBatch(db, parsed).verified, false)
    case Undone => Drained(db, [], true)
    case Unheard => Drained(StoreBatch(db, parsed).db, [], true)
  }

  /** The slow path: each record by itself, the refused ones skipped, until a connection is lost. */
  function Isolated(db: Db, parsed: seq<Record>, w: World): Drained {
    if parsed == [] then Drained(db, [], false)
    else
      var n := |parsed| - 1;
      var before := Isolated(db, parsed[..n], w);
      if before.lost || w.refuses(before.db, [parsed[n]]) then before
      else
        var one := Transact(before.db, [parsed[n]], w.fate(n + 1));
        Drained(one.db, before.verified + one.verified, one.lost)
  }

  /** The records that can be read; the others stay where they are. */
  function Parsed(paths: seq<Path>, spool: set<Path>, w: World): seq<Record> {
    if paths == [] then []
    else
      var p := paths[|paths| - 1];
      var r := w.parse(p);
      Parsed(paths[..|paths| - 1], spool, w) +
      (if p in spool && r.Some? &&
        (forall i :: 0 <= i < |r.value.files| ==> r.value.files[i] in spool) then [r.value] else [])
  }

  function FileSet(r: Record): set<Path> { set f | f in r.files }

  function Files(records: seq<Record>): set<Path> {
    if records == [] then {}
    else Files(records[..|records| - 1]) + FileSet(records[|records| - 1])
  }

  datatype Site = Site(db: Db, spool: set<Path>)

  function Attempt(db: Db, parsed: seq<Record>, w: World): Drained {
    if parsed == [] then Drained(db, [], false)
    else if w.refuses(db, parsed) then Isolated(db, parsed, w)
    else Transact(db, parsed, w.fate(0))
  }

  /** drain: deletion comes last, and only when nothing was lost on the way. */
  function Drain(s: Site, paths: seq<Path>, delete: bool, w: World): Site {
    var d := Attempt(s.db, Parsed(paths, s.spool, w), w);
    Site(d.db, if delete && !d.lost then s.spool - Files(d.verified) else s.spool)
  }

  // ---- what a drain keeps ----------------------------------------------------------------------------------

  ghost predicate AllSafe(db: Db, records: seq<Record>) { forall i :: 0 <= i < |records| ==> Safe(db, records[i]) }

  lemma AllSafeStays(a: Db, b: Db, records: seq<Record>)
    requires Grows(a, b) && AllSafe(a, records)
    ensures AllSafe(b, records)
  {
    forall i | 0 <= i < |records| ensures Safe(b, records[i]) { SafeStays(a, b, records[i]); }
  }

  lemma TransactKeeps(db: Db, parsed: seq<Record>, fate: Fate)
    ensures Grows(db, Transact(db, parsed, fate).db) &&
      AllSafe(Transact(db, parsed, fate).db, Transact(db, parsed, fate).verified)
    ensures forall r :: r in Transact(db, parsed, fate).verified ==> r in parsed
  {
    StoreKeepsRows(db, parsed);
    var v := Transact(db, parsed, fate).verified;
    forall i | 0 <= i < |v| ensures Safe(Transact(db, parsed, fate).db, v[i]) { assert v[i] in v; }
  }

  lemma GrowsTwice(a: Db, b: Db, c: Db)
    requires Grows(a, b) && Grows(b, c)
    ensures Grows(a, c)
  {
  }

  lemma {:induction false} IsolatedKeeps(db: Db, parsed: seq<Record>, w: World)
    ensures Grows(db, Isolated(db, parsed, w).db) &&
      AllSafe(Isolated(db, parsed, w).db, Isolated(db, parsed, w).verified)
    ensures forall r :: r in Isolated(db, parsed, w).verified ==> r in parsed
  {
    if parsed != [] {
      var n := |parsed| - 1;
      var before := Isolated(db, parsed[..n], w);
      IsolatedKeeps(db, parsed[..n], w);
      if !before.lost && !w.refuses(before.db, [parsed[n]]) {
        var one := Transact(before.db, [parsed[n]], w.fate(n + 1));
        TransactKeeps(before.db, [parsed[n]], w.fate(n + 1));
        AllSafeStays(before.db, one.db, before.verified);
        GrowsTwice(db, before.db, one.db);
      }
    }
  }

  lemma AttemptKeeps(db: Db, parsed: seq<Record>, w: World)
    ensures Grows(db, Attempt(db, parsed, w).db) && AllSafe(Attempt(db, parsed, w).db, Attempt(db, parsed, w).verified)
    ensures forall r :: r in Attempt(db, parsed, w).verified ==> r in parsed
  {
    IsolatedKeeps(db, parsed, w);
    TransactKeeps(db, parsed, w.fate(0));
  }

  /** The file belongs to one of the records. */
  predicate FileOfSome(records: seq<Record>, p: Path) { exists i :: 0 <= i < |records| && p in records[i].files }

  lemma FileSnoc(records: seq<Record>, p: Path)
    requires records != []
    ensures var n := |records| - 1;
      FileOfSome(records, p) <==> FileOfSome(records[..n], p) || p in records[n].files
  {
    var n := |records| - 1;
    if i :| 0 <= i < n && p in records[..n][i].files { assert p in records[i].files; }
    if i :| 0 <= i < |records| && p in records[i].files { assert i < n ==> p in records[..n][i].files; }
  }

  lemma {:induction false} FileIs(records: seq<Record>, p: Path)
    ensures p in Files(records) <==> FileOfSome(records, p)
  {
    if records != [] {
      FileIs(records[..|records| - 1], p);
      FileSnoc(records, p);
    }
  }

  lemma FilesAre(records: seq<Record>)
    ensures forall p :: p in Files(records) <==> exists i :: 0 <= i < |records| && p in records[i].files
  {
    forall p ensures p in Files(records) <==> FileOfSome(records, p) { FileIs(records, p); }
  }

  /** The file is listed, is there with all its record names, and can be read. */
  predicate Readable(paths: seq<Path>, spool: set<Path>, w: World, p: Path, r: Record) {
    p in paths && p in spool && w.parse(p) == Some(r) && forall i :: 0 <= i < |r.files| ==> r.files[i] in spool
  }

  lemma {:induction false} ParsedAre(paths: seq<Path>, spool: set<Path>, w: World)
    ensures forall r :: r in Parsed(paths, spool, w) <==> exists p: Path :: Readable(paths, spool, w, p, r)
  {
    if paths != [] {
      var init, last := paths[..|paths| - 1], paths[|paths| - 1];
      ParsedAre(init, spool, w);
      assert paths == init + [last];
      forall r ensures r in Parsed(paths, spool, w) <==> exists p: Path :: Readable(paths, spool, w, p, r) {
        if p: Path :| Readable(init, spool, w, p, r) { assert Readable(paths, spool, w, p, r); }
        if Readable(paths, spool, w, last, r) { assert r in Parsed(paths, spool, w); }
        if p: Path :| Readable(paths, spool, w, p, r) { assert p != last ==> Readable(init, spool, w, p, r); }
      }
    }
  }

  /** The file belongs to a record whose rows and pair the database holds. */
  ghost predicate Held(db: Db, parse: Path -> Option<Record>, file: Path) {
    exists p: Path :: parse(p).Some? && file in parse(p).value.files && Safe(db, parse(p).value)
  }

  /**
   * Deleted only when committed rows match all frames and the pair of its record; and no row of
   * the database changes, whatever is refused, undone or unheard.
   */
  lemma DeletedOnlyWhenHeld(s: Site, paths: seq<Path>, delete: bool, w: World)
    ensures Grows(s.db, Drain(s, paths, delete, w).db)
    ensures forall file :: file in s.spool && file !in Drain(s, paths, delete, w).spool ==>
      delete && Held(Drain(s, paths, delete, w).db, w.parse, file)
  {
    var parsed := Parsed(paths, s.spool, w);
    var d := Attempt(s.db, parsed, w);
    AttemptKeeps(s.db, parsed, w);
    FilesAre(d.verified);
    ParsedAre(paths, s.spool, w);
    forall file | file in s.spool && file !in Drain(s, paths, delete, w).spool ensures Held(d.db, w.parse, file) {
      var i :| 0 <= i < |d.verified| && file in d.verified[i].files;
      assert d.verified[i] in parsed;
      var p: Path :| Readable(paths, s.spool, w, p, d.verified[i]);
    }
  }

  lemma {:induction false} SomeFrames(parsed: seq<Record>)
    requires parsed != [] && forall i :: 0 <= i < |parsed| ==> parsed[i].frames != []
    ensures FramesOf(parsed) != []
  {
    assert parsed[|parsed| - 1].frames != [];
  }

  /** When the transaction is acknowledged, exactly the files of the records that are safe go. */
  lemma AckedDeletesExactly(s: Site, paths: seq<Path>, w: World, file: Path)
    requires forall p: Path :: w.parse(p).Some? ==> w.parse(p).value.frames != []
    requires file in s.spool && w.fate(0).Acked? && !w.refuses(s.db, Parsed(paths, s.spool, w))
    ensures var after := Drain(s, paths, true, w);
      file !in after.spool <==> exists r :: r in Parsed(paths, s.spool, w) && file in r.files && Safe(after.db, r)
  {
    var parsed := Parsed(paths, s.spool, w);
    var d := Attempt(s.db, parsed, w);
    ParsedAre(paths, s.spool, w);
    if parsed != [] {
      forall i | 0 <= i < |parsed| ensures parsed[i].frames != [] { assert parsed[i] in parsed; }
      SomeFrames(parsed);
    }
    StoreKeepsRows(s.db, parsed);
    FilesAre(d.verified);
    if r :| r in parsed && file in r.files && Safe(d.db, r) {
      assert r in d.verified;
      var i :| 0 <= i < |d.verified| && d.verified[i] == r;
      assert file in Files(d.verified);
    }
  }

  /**
   * A record with ids of its own that can be read is drained when its batch is acknowledged: its rows
   * are in the database, and its files are gone.
   */
  lemma FreshIsDrained(s: Site, paths: seq<Path>, w: World, a: nat)
    requires var parsed := Parsed(paths, s.spool, w);
      FreeIds(s.db, parsed, a) && parsed[a].frames != [] && w.fate(0).Acked? && !w.refuses(s.db, parsed)
    requires var r := Parsed(paths, s.spool, w)[a];
      r.pair.Some? ==>
        var t, rows := r.pair.value.thermalId, Drain(s, paths, true, w).db.frames;
        t in rows && rows[t].modality == Thermal && rows[t].uid == r.frames[|r.frames| - 1].uid
    ensures var r, after := Parsed(paths, s.spool, w)[a], Drain(s, paths, true, w);
      Safe(after.db, r) && forall i :: 0 <= i < |r.files| ==> r.files[i] !in after.spool
  {
    var parsed := Parsed(paths, s.spool, w);
    var batch, r := StoreBatch(s.db, parsed), parsed[a];
    assert Drain(s, paths, true, w) == Site(batch.db, s.spool - Files(batch.verified));
    FreshIsVerified(s.db, parsed, a);
    StoreKeepsRows(s.db, parsed);
    VerifiedFiles(batch.verified, r);
  }

  lemma VerifiedFiles(verified: seq<Record>, r: Record)
    requires r in verified
    ensures forall i :: 0 <= i < |r.files| ==> r.files[i] in Files(verified)
  {
    FilesAre(verified);
    var k :| 0 <= k < |verified| && verified[k] == r;
    forall i | 0 <= i < |r.files| ensures r.files[i] in Files(verified) { assert r.files[i] in verified[k].files; }
  }

  // ---- the slow path ---------------------------------------------------------------------------------------------

  /** Record i got its turn, was taken by the database, and is held in full after its own transaction. */
  ghost predicate TakenAlone(db: Db, parsed: seq<Record>, w: World, i: nat) {
    i < |parsed| && TakenAfter(Isolated(db, parsed[..i], w).db, parsed[i], w)
  }

  predicate TakenAfter(before: Db, r: Record, w: World) {
    !w.refuses(before, [r]) && r.frames != [] && Safe(StoreBatch(before, [r]).db, r)
  }

  ghost predicate AllAcked(w: World) { forall n :: w.fate(n).Acked? }

  lemma AloneIsVerified(db: Db, r: Record)
    ensures forall x :: x in StoreBatch(db, [r]).verified <==>
      x == r && r.frames != [] && Safe(StoreBatch(db, [r]).db, r)
  {
    VerifiedIff(db, [r]);
    assert r.frames != [] ==> IsFrame([r], 0, 0);
  }

  lemma TakenFirst(db: Db, parsed: seq<Record>, w: World, i: nat)
    requires i + 1 < |parsed|
    ensures TakenAlone(db, parsed, w, i) <==> TakenAlone(db, parsed[..|parsed| - 1], w, i)
  {
    assert parsed[..|parsed| - 1][..i] == parsed[..i];
  }

  /** What the last record adds, once those before it have had their turn. */
  lemma LastTurn(db: Db, parsed: seq<Record>, w: World, r: Record)
    requires parsed != [] && w.fate(|parsed|).Acked? && !Isolated(db, parsed[..|parsed| - 1], w).lost
    ensures !Isolated(db, parsed, w).lost
    ensures var n := |parsed| - 1;
      r in Isolated(db, parsed, w).verified <==>
        r in Isolated(db, parsed[..n], w).verified || (TakenAlone(db, parsed, w, n) && r == parsed[n])
  {
    AloneIsVerified(Isolated(db, parsed[..|parsed| - 1], w).db, parsed[|parsed| - 1]);
  }

  lemma {:induction false} NeverLost(db: Db, parsed: seq<Record>, w: World)
    requires AllAcked(w)
    ensures !Isolated(db, parsed, w).lost
  {
    if parsed != [] {
      NeverLost(db, parsed[..|parsed| - 1], w);
      LastTurn(db, parsed, w, parsed[|parsed| - 1]);
    }
  }

  lemma {:induction false} VerifiedStays(db: Db, parsed: seq<Record>, w: World, k: nat, r: Record)
    requires AllAcked(w) && k <= |parsed| && r in Isolated(db, parsed[..k], w).verified
    ensures r in Isolated(db, parsed, w).verified
    decreases |parsed|
  {
    if k < |parsed| {
      var init := parsed[..|parsed| - 1];
      assert init[..k] == parsed[..k];
      VerifiedStays(db, init, w, k, r);
      NeverLost(db, init, w);
      LastTurn(db, parsed, w, r);
    } else {
      assert parsed[..k] == parsed;
    }
  }

  lemma TakenPrefix(db: Db, parsed: seq<Record>, w: World, i: nat)
    requires i < |parsed|
    ensures TakenAlone(db, parsed, w, i) <==> TakenAlone(db, parsed[..i + 1], w, i)
  {
    assert parsed[..i + 1][..i] == parsed[..i];
  }

  /** When every transaction is acknowledged, a refused record does not hold back the others. */
  lemma RefusedHoldsBackNobody(db: Db, parsed: seq<Record>, w: World, i: nat)
    requires AllAcked(w) && TakenAlone(db, parsed, w, i)
    ensures parsed[i] in Isolated(db, parsed, w).verified
  {
    var turn := parsed[..i + 1];
    TakenPrefix(db, parsed, w, i);
    NeverLost(db, turn[..i], w);
    LastTurn(db, turn, w, parsed[i]);
    VerifiedStays(db, parsed, w, i + 1, parsed[i]);
  }

  /** And no other record is verified. */
  lemma {:induction false} VerifiedWasTaken(db: Db, parsed: seq<Record>, w: World, r: Record) returns (i: nat)
    requires AllAcked(w) && r in Isolated(db, parsed, w).verified
    ensures TakenAlone(db, parsed, w, i) && parsed[i] == r
  {
    var n := |parsed| - 1;
    NeverLost(db, parsed[..n], w);
    LastTurn(db, parsed, w, r);
    if r in Isolated(db, parsed[..n], w).verified {
      i := VerifiedWasTaken(db, parsed[..n], w, r);
      TakenFirst(db, parsed, w, i);
    } else {
      i := n;
    }
  }

  /** So the files that go are exactly those of the records that were taken, each by itself. */
  lemma SlowPathDeletesExactly(s: Site, paths: seq<Path>, w: World, file: Path)
    requires AllAcked(w)
    requires var parsed := Parsed(paths, s.spool, w); parsed != [] && w.refuses(s.db, parsed)
    requires file in s.spool
    ensures var parsed := Parsed(paths, s.spool, w);
      file !in Drain(s, paths, true, w).spool <==>
        exists i: nat :: TakenAlone(s.db, parsed, w, i) && file in parsed[i].files
  {
    var parsed := Parsed(paths, s.spool, w);
    var verified := Isolated(s.db, parsed, w).verified;
    NeverLost(s.db, parsed, w);
    assert Drain(s, paths, true, w).spool == s.spool - Files(verified);
    FilesAre(verified);
    if i: nat :| TakenAlone(s.db, parsed, w, i) && file in parsed[i].files {
      RefusedHoldsBackNobody(s.db, parsed, w, i);
      VerifiedFiles(verified, parsed[i]);
    }
    if k :| 0 <= k < |verified| && file in verified[k].files {
      var i := VerifiedWasTaken(s.db, parsed, w, verified[k]);
    }
  }

  // ---- over many drains ------------------------------------------------------------------------------------------

  datatype Event = Arrives(file: Path) | Drains(paths: seq<Path>, delete: bool, refuses: (Db, seq<Record>) -> bool,
    fate: nat -> Fate)

  function Next(s: Site, e: Event, parse: Path -> Option<Record>): Site {
    match e
    case Arrives(file) => s.(spool := s.spool + {file})
    case Drains(paths, delete, refuses, fate) => Drain(s, paths, delete, World(parse, refuses, fate))
  }

  function Run(s: Site, events: seq<Event>, parse: Path -> Option<Record>): Site {
    if events == [] then s else Next(Run(s, events[..|events| - 1], parse), events[|events| - 1], parse)
  }

  lemma HeldStays(a: Db, b: Db, parse: Path -> Option<Record>, file: Path)
    requires Grows(a, b) && Held(a, parse, file)
    ensures Held(b, parse, file)
  {
    var p: Path :| parse(p).Some? && file in parse(p).value.files && Safe(a, parse(p).value);
    SafeStays(a, b, parse(p).value);
  }

  lemma NextKeeps(s: Site, e: Event, parse: Path -> Option<Record>, file: Path)
    requires file in s.spool || Held(s.db, parse, file)
    ensures file in Next(s, e, parse).spool || Held(Next(s, e, parse).db, parse, file)
  {
    if e.Drains? {
      var w := World(parse, e.refuses, e.fate);
      DeletedOnlyWhenHeld(s, e.paths, e.delete, w);
      if Held(s.db, parse, file) {
        HeldStays(s.db, Next(s, e, parse).db, parse, file);
      }
    }
  }

  /** Over any run of arrivals and drains, nothing is lost: a file is in the outbox or in the database. */
  lemma {:induction false} NothingLost(s: Site, events: seq<Event>, parse: Path -> Option<Record>, file: Path)
    requires file in s.spool || Held(s.db, parse, file)
    ensures file in Run(s, events, parse).spool || Held(Run(s, events, parse).db, parse, file)
  {
    if events != [] {
      NothingLost(s, events[..|events| - 1], parse, file);
      NextKeeps(Run(s, events[..|events| - 1], parse), events[|events| - 1], parse, file);
    }
  }

  // ---- the worker -----------------------------------------------------------------------------------

  class Worker {
    var db: Db
    var spool: set<Path>

    constructor (db: Db, spool: set<Path>)
      ensures this.db == db && this.spool == spool
    {
      this.db, this.spool := db, spool;
    }

    /** The inserts and checks of one transaction: its rows, and the records it verifies. */
    method Store(parsed: seq<Record>) returns (after: Db, verified: seq<Record>)
      ensures Batch(after, verified) == StoreBatch(db, parsed)
      ensures Stored(db, parsed, after)
      ensures forall r :: r in verified <==>
        r in parsed && Safe(after, r) && exists a: nat, b: nat :: IsFrame(parsed, a, b)
    {
      BatchIsStored(db, parsed);
      VerifiedIff(db, parsed);
      var rows := FramesOf(parsed);
      if rows == [] { return db, []; }
      var frames := InsertFrames(db.frames, rows);
      var valid := Matching(frames, parsed);
      var ready := WithThermal(frames, valid);
      var pairs := InsertPairs(db.pairs, PairsOf(ready));
      verified := Paired(pairs, ready);
      after := Db(frames, pairs);
    }

    /** A transaction on the worker's own database. */
    method Try(parsed: seq<Record>, fate: Fate) returns (verified: seq<Record>, lost: bool)
      modifies this`db
      ensures Drained(db, verified, lost) == Transact(old(db), parsed, fate)
    {
      if fate.Undone? { return [], true; }
      var after;
      after, verified := Store(parsed);
      db := after;
      lost := fate.Unheard?;
      if lost { verified := []; }
    }

    method DrainFiles(paths: seq<Path>, delete: bool, w: World)
      modifies this
      ensures Site(db, spool) == Drain(old(Site(db, spool)), paths, delete, w)
    {
      var parsed := Parsed(paths, spool, w);
      if parsed == [] { return; }
      var verified, lost := [], false;
      if !w.refuses(db, parsed) {
        verified, lost := Try(parsed, w.fate(0));
      } else {
        for i := 0 to |parsed|
          invariant spool == old(spool) && !lost
          invariant Drained(db, verified, lost) == Isolated(old(db), parsed[..i], w)
        {
          assert parsed[..i + 1][..i] == parsed[..i];
          if !w.refuses(db, [parsed[i]]) {
            var accepted;
            accepted, lost := Try([parsed[i]], w.fate(i + 1));
            verified := verified + accepted;
            if lost {
              LostStops(old(db), parsed, i + 1, w);
              return;
            }
          }
        }
        assert parsed[..|parsed|] == parsed;
      }
      if lost || !delete { return; }
      Unlink(verified);
    }

    /** The files of what was verified, one by one. */
    method Unlink(verified: seq<Record>)
      modifies this`spool
      ensures spool == old(spool) - Files(verified)
    {
      for i := 0 to |verified|
        invariant spool == old(spool) - Files(verified[..i])
      {
        assert verified[..i + 1][..i] == verified[..i];
        var files, was := verified[i].files, spool;
        for k := 0 to |files|
          invariant spool == was - (set f | f in files[..k])
        {
          assert files[..k + 1] == files[..k] + [files[k]];
          spool := spool - {files[k]};
        }
        assert files[..|files|] == files;
      }
      assert verified[..|verified|] == verified;
    }
  }

  method InsertFrames(table: map<int, Frame>, rows: seq<Frame>) returns (frames: map<int, Frame>)
    ensures frames == Insert(table, rows, FrameId)
  {
    frames := table;
    for i := 0 to |rows|
      invariant frames == Insert(table, rows[..i], FrameId)
    {
      assert rows[..i + 1][..i] == rows[..i];
      if rows[i].id !in frames { frames := frames[rows[i].id := rows[i]]; }
    }
    assert rows[..|rows|] == rows;
  }

  /** The records whose frames are stored as their own. */
  method Matching(frames: map<int, Frame>, parsed: seq<Record>) returns (valid: seq<Record>)
    ensures valid == Valid(frames, parsed)
  {
    valid := [];
    for i := 0 to |parsed|
      invariant valid == Valid(frames, parsed[..i])
    {
      assert parsed[..i + 1][..i] == parsed[..i];
      if FramesMatch(frames, parsed[i]) { valid := valid + [parsed[i]]; }
    }
    assert parsed[..|parsed|] == parsed;
  }

  /** Of those, the ones whose thermal frame is there. */
  method WithThermal(frames: map<int, Frame>, valid: seq<Record>) returns (ready: seq<Record>)
    ensures ready == Ready(frames, valid)
  {
    ready := [];
    for i := 0 to |valid|
      invariant ready == Ready(frames, valid[..i])
    {
      assert valid[..i + 1][..i] == valid[..i];
      if PairReady(frames, valid[i]) { ready := ready + [valid[i]]; }
    }
    assert valid[..|valid|] == valid;
  }

  /** And of those, the ones whose pair is stored as their own. */
  method Paired(pairs: map<int, Pair>, ready: seq<Record>) returns (verified: seq<Record>)
    ensures verified == Verified(pairs, ready)
  {
    verified := [];
    for i := 0 to |ready|
      invariant verified == Verified(pairs, ready[..i])
    {
      assert ready[..i + 1][..i] == ready[..i];
      if PairMatches(pairs, ready[i]) { verified := verified + [ready[i]]; }
    }
    assert ready[..|ready|] == ready;
  }

  method InsertPairs(table: map<int, Pair>, rows: seq<Pair>) returns (pairs: map<int, Pair>)
    ensures pairs == Insert(table, rows, PairId)
  {
    pairs := table;
    for i := 0 to |rows|
      invariant pairs == Insert(table, rows[..i], PairId)
    {
      assert rows[..i + 1][..i] == rows[..i];
      if rows[i].id !in pairs { pairs := pairs[rows[i].id := rows[i]]; }
    }
    assert rows[..|rows|] == rows;
  }

  /** After a lost connection nothing more is tried. */
  lemma {:induction false} LostStops(db: Db, parsed: seq<Record>, i: nat, w: World)
    requires i <= |parsed| && Isolated(db, parsed[..i], w).lost
    ensures Isolated(db, parsed, w) == Isolated(db, parsed[..i], w)
    decreases |parsed|
  {
    if i < |parsed| {
      assert parsed[..|parsed| - 1][..i] == parsed[..i];
      LostStops(db, parsed[..|parsed| - 1], i, w);
    } else {
      assert parsed[..i] == parsed;
    }
  }
}

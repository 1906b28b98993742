/**
 * The write-ahead journal of src/edge/replay.ts: its records, what reading it back means,
 * and how a crash may leave it.
 *
 * The file is a list of complete lines, of which a prefix is known to be fsynced, and
 * possibly a torn last line.
 */
module Journal {
  import opened Wrappers

  /** A node's MAC address, as the 48-bit number its six hex pairs spell. */
  type Uid = int

  /** A node's replay cursor: boot counter, then packet sequence within that boot. */
  datatype Cursor = Cursor(boot: int, num: int)

  /** One journal line; anything the reader does not recognise is Malformed. */
  datatype Record = Seen(uid: Uid, cursor: Cursor) | Forget(uid: Uid) | Cmd(num: int) | Malformed

  datatype Snapshot = Snapshot(cursors: map<Uid, Cursor>, commandSeq: int)

  /** `durable` counts the leading lines known to survive power loss. */
  datatype Disk = Disk(lines: seq<Record>, durable: nat, torn: bool)

  const MAX_NODES := 5000
  const COMPACT_AT := 10000

  predicate U32(v: int) { 0 <= v <= 0xffff_ffff }

  /** The texts the UID pattern accepts are exactly the 48-bit numbers. */
  predicate IsUid(u: Uid) { 0 <= u <= 0xffff_ffff_ffff }

  predicate ValidCursor(c: Cursor) { U32(c.boot) && U32(c.num) }

  predicate ValidRecord(r: Record) {
    match r
    case Seen(uid, c) => IsUid(uid) && ValidCursor(c)
    case Forget(uid) => IsUid(uid)
    case Cmd(n) => U32(n)
    case Malformed => false
  }

  /** Lexicographic: a later boot, or a later sequence of the same boot. */
  predicate Newer(a: Cursor, b: Cursor) {
    a.boot > b.boot || (a.boot == b.boot && a.num > b.num)
  }

  function Max(a: int, b: int): int { if a > b then a else b }

  /** What one line does to the state read so far. */
  function Apply(s: Snapshot, r: Record): Snapshot {
    match r
    case Seen(uid, c) => s.(cursors := s.cursors[uid := c])
    case Forget(uid) => s.(cursors := s.cursors - {uid})
    case Cmd(n) => s.(commandSeq := Max(s.commandSeq, n))
    case Malformed => s
  }

  /** The state a list of lines stands for. */
  function Fold(lines: seq<Record>): Snapshot {
    if lines == [] then Snapshot(map[], 0)
    else Apply(Fold(lines[..|lines| - 1]), lines[|lines| - 1])
  }

  /** Line `i` is the last one that says anything about the node. */
  predicate LastWord(lines: seq<Record>, uid: Uid, i: nat) {
    i < |lines| && Names(lines[i], uid) && forall j :: i < j < |lines| ==> !Names(lines[j], uid)
  }

  predicate Names(r: Record, uid: Uid) { (r.Seen? || r.Forget?) && r.uid == uid }

  /** What reading means for a node: it is known exactly when the last word on it is a cursor, and by that cursor. */
  ghost predicate ReadsAs(lines: seq<Record>, uid: Uid, cursors: map<Uid, Cursor>) {
    ((forall i :: 0 <= i < |lines| ==> !Names(lines[i], uid)) && uid !in cursors) ||
    (exists i: nat :: LastWord(lines, uid, i) && Leaves(lines[i], uid, cursors))
  }

  predicate Leaves(r: Record, uid: Uid, cursors: map<Uid, Cursor>) {
    if r.Seen? then uid in cursors && cursors[uid] == r.cursor else uid !in cursors
  }

  lemma {:induction false} FoldReadsAs(lines: seq<Record>, uid: Uid)
    ensures ReadsAs(lines, uid, Fold(lines).cursors)
  {
    if lines != [] {
      var rest, n := lines[..|lines| - 1], |lines| - 1;
      FoldReadsAs(rest, uid);
      if Names(lines[n], uid) {
        assert LastWord(lines, uid, n);
      } else if i: nat :| LastWord(rest, uid, i) && Leaves(rest[i], uid, Fold(rest).cursors) {
        assert forall j :: i < j < n ==> lines[j] == rest[j];
        assert LastWord(lines, uid, i);
      } else {
        assert forall j :: 0 <= j < n ==> lines[j] == rest[j];
      }
    }
  }

  /** And the command counter reads as the largest number written, 0 when there is none. */
  lemma {:induction false} FoldIsLargest(lines: seq<Record>)
    ensures var c := Fold(lines).commandSeq;
      c >= 0 && (forall i :: 0 <= i < |lines| && lines[i].Cmd? ==> lines[i].num <= c) &&
      (c == 0 || exists i :: 0 <= i < |lines| && lines[i] == Cmd(c))
  {
    if lines != [] {
      var rest := lines[..|lines| - 1];
      FoldIsLargest(rest);
      assert forall j :: 0 <= j < |rest| ==> lines[j] == rest[j];
      assert lines[|lines| - 1] == lines[|rest|];
    }
  }

  predicate AllValid(lines: seq<Record>) { forall i :: 0 <= i < |lines| ==> ValidRecord(lines[i]) }

  /** When the strict reader accepts a file, and what it returns. */
  predicate Readable(d: Disk) {
    !d.torn && AllValid(d.lines) && |Fold(d.lines).cursors| <= MAX_NODES
  }

  /** The strict, read-only reader: refuses a torn tail, a bad record, or too many nodes. */
  method ReadSnapshot(d: Disk) returns (r: Result<Snapshot>)
    ensures r.Ok? <==> Readable(d)
    ensures r.Ok? ==> r.value == Fold(d.lines)
    ensures r.Ok? ==> !d.torn && |r.value.cursors| <= 5000
  {
    if d.torn { return Err("incomplete replay journal; restore it before starting"); }
    var cursors: map<Uid, Cursor> := map[];
    var commandSeq := 0;
    for i := 0 to |d.lines|
      invariant AllValid(d.lines[..i])
      invariant Fold(d.lines[..i]) == Snapshot(cursors, commandSeq)
    {
      assert d.lines[..i + 1][..i] == d.lines[..i];
      var record := d.lines[i];
      if record.Cmd? && U32(record.num) {
        commandSeq := Max(commandSeq, record.num);
      } else if record.Seen? && IsUid(record.uid) && ValidCursor(record.cursor) {
        cursors := cursors[record.uid := record.cursor];
      } else if record.Forget? && IsUid(record.uid) {
        cursors := cursors - {record.uid};
      } else {
        return Err("invalid replay journal record");
      }
    }
    assert d.lines[..|d.lines|] == d.lines;
    if |cursors| > MAX_NODES { return Err("replay journal node limit exceeded"); }
    return Ok(Snapshot(cursors, commandSeq));
  }

  // ---- compaction -----------------------------------------------------------

  /** `order` lists every key once: the iteration order of the in-memory map. */
  ghost predicate Enumerates(order: seq<Uid>, keys: set<Uid>) {
    (forall i :: 0 <= i < |order| ==> order[i] in keys) &&
    (forall u <- keys :: u in order) &&
    forall i, j :: 0 <= i < j < |order| ==> order[i] != order[j]
  }

  /** The compacted journal: the command counter first, then one line per node. */
  function CheckpointLines(order: seq<Uid>, s: Snapshot): seq<Record>
    requires forall i :: 0 <= i < |order| ==> order[i] in s.cursors
  {
    if order == [] then [Cmd(s.commandSeq)]
    else CheckpointLines(order[..|order| - 1], s) + [Seen(order[|order| - 1], s.cursors[order[|order| - 1]])]
  }

  lemma FoldSnoc(lines: seq<Record>, r: Record)
    ensures Fold(lines + [r]) == Apply(Fold(lines), r)
  {
    assert (lines + [r])[..|lines|] == lines;
  }

  lemma {:induction false} FoldCheckpointPrefix(order: seq<Uid>, s: Snapshot)
    requires forall i :: 0 <= i < |order| ==> order[i] in s.cursors
    requires s.commandSeq >= 0
    ensures Fold(CheckpointLines(order, s)).commandSeq == s.commandSeq
    ensures Fold(CheckpointLines(order, s)).cursors == map u | u in order :: s.cursors[u]
  {
    if order == [] {
      FoldSnoc([], Cmd(s.commandSeq));
      assert [Cmd(s.commandSeq)] == [] + [Cmd(s.commandSeq)];
    } else {
      var rest, last := order[..|order| - 1], order[|order| - 1];
      FoldCheckpointPrefix(rest, s);
      FoldSnoc(CheckpointLines(rest, s), Seen(last, s.cursors[last]));
      assert forall u :: u in order <==> u in rest || u == last by { assert order == rest + [last]; }
    }
  }

  /** Compaction loses nothing and invents nothing, whatever order the map is walked in. */
  lemma CompactionPreserves(order: seq<Uid>, s: Snapshot)
    requires Enumerates(order, s.cursors.Keys)
    requires s.commandSeq >= 0
    ensures Fold(CheckpointLines(order, s)) == s
  {
    FoldCheckpointPrefix(order, s);
    assert forall u :: u in order <==> u in s.cursors;
  }

  lemma {:induction false} CheckpointValid(order: seq<Uid>, s: Snapshot)
    requires forall i :: 0 <= i < |order| ==> order[i] in s.cursors
    requires U32(s.commandSeq)
    requires forall u <- s.cursors :: IsUid(u) && ValidCursor(s.cursors[u])
    ensures AllValid(CheckpointLines(order, s))
  {
    if order != [] { CheckpointValid(order[..|order| - 1], s); }
  }

  lemma {:induction false} FoldValid(lines: seq<Record>)
    requires AllValid(lines)
    ensures U32(Fold(lines).commandSeq)
    ensures forall u <- Fold(lines).cursors :: IsUid(u) && ValidCursor(Fold(lines).cursors[u])
  {
    if lines != [] {
      FoldValid(lines[..|lines| - 1]);
    }
  }

  // ---- crashes --------------------------------------------------------------

  /** A crash may leave any prefix between the durable lines and all written lines. */
  predicate CrashPoint(d: Disk, k: nat) { d.durable <= k <= |d.lines| }

  ghost function After(d: Disk, k: nat): Snapshot requires k <= |d.lines| { Fold(d.lines[..k]) }

  /** `t` knows everything `s` does: no node forgotten, no cursor or counter lowered. */
  ghost predicate AtLeast(t: Snapshot, s: Snapshot) {
    s.commandSeq <= t.commandSeq &&
    forall u <- s.cursors :: u in t.cursors && !Newer(s.cursors[u], t.cursors[u])
  }
}

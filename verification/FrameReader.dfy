/** The incremental reader of the gateway link (src/edge/gwlink.ts:94-128), on its own buffers. */
module FrameReader {
  import opened Frames
  import opened Octets
  import opened Streams

  /** Buffer.copy: the n bytes of source at start, to the end of what target already holds. */
  method Copy(source: Bytes, start: nat, n: nat, target: array<Byte>, at: nat)
    requires start + n <= |source| && at + n <= target.Length
    modifies target
    ensures target[..at + n] == old(target[..at]) + source[start..start + n]
  {
    for k := 0 to n
      invariant target[..at + k] == old(target[..at]) + source[start..start + k]
    {
      target[at + k] := source[start + k];
      assert target[..at + k + 1] == target[..at + k] + [target[at + k]];
      assert source[start..start + k + 1] == source[start..start + k] + [source[start + k]];
    }
  }

  lemma Onward(h: Held, chunk: Bytes, i: nat, j: nat)
    requires i <= j <= |chunk|
    ensures Feed(h, chunk[..j]) == Then(FeedByte, Feed(h, chunk[..i]), chunk[i..j])
  {
    ScanSplit(FeedByte, h, chunk[..i], chunk[i..j]);
    assert chunk[..i] + chunk[i..j] == chunk[..j];
  }

  lemma StopsAtBad(h: Held, chunk: Bytes, i: nat)
    requires i <= |chunk| && Bad(Feed(h, chunk[..i]).state)
    ensures Feed(h, chunk) == Feed(h, chunk[..i])
  {
    Onward(h, chunk, i, |chunk|);
    BadStays(Feed(h, chunk[..i]).state, chunk[i..]);
    assert chunk[..|chunk|] == chunk;
  }

  class Reader {
    const header: array<Byte>
    var headerBytes: nat
    var body: array?<Byte>
    var bodyBytes: nat

    ghost predicate Valid()
      reads this, header, body
    {
      header.Length == 4 && headerBytes <= 4 && (body != null ==> body != header && bodyBytes <= body.Length) &&
        Sound(Holding())
    }

    /** The reader's state as a value. */
    ghost function Holding(): Held
      requires header.Length == 4 && headerBytes <= 4 && (body != null ==> bodyBytes <= body.Length)
      reads this, header, body
    {
      if body == null then Header(header[..headerBytes]) else Body(body.Length, body[..bodyBytes])
    }

    constructor ()
      ensures Valid() && Holding() == START && fresh(header)
    {
      header := new Byte[4];
      headerBytes := 0;
      body := null;
      bodyBytes := 0;
    }

    /** The header part of one turn of the loop. */
    method TakeHeader(chunk: Bytes, start: nat) returns (offset: nat, failed: bool)
      requires Valid() && body == null && start < |chunk|
      modifies this, header
      ensures Valid() && start <= offset <= |chunk| && (body == null || fresh(body))
      ensures Scanned(Holding(), []) == Feed(old(Holding()), chunk[start..offset])
      ensures failed <==> Bad(Holding())
      ensures body == null && !failed ==> offset == |chunk|
      ensures body != null ==> bodyBytes == 0
    {
      var n := if 4 - headerBytes < |chunk| - start then 4 - headerBytes else |chunk| - start;
      ghost var got, part := header[..headerBytes], chunk[start..start + n];
      if headerBytes < 4 {
        FeedPartHeader(got, part);
      } else {
        BadStays(Header(got), part);
        assert got + part == got;
      }
      Copy(chunk, start, n, header, headerBytes);
      headerBytes := headerBytes + n;
      offset := start + n;
      assert header[..headerBytes] == got + part;
      failed := false;
      if headerBytes < 4 { return; }
      var length := FromLe32(header[..]);
      assert header[..] == got + part;
      if length < 1 || length > MAX_FRAME {
        failed := true;
        return;
      }
      body := new Byte[length];
      bodyBytes := 0;
      assert body[..0] == [];
    }

    /** The body part: what the chunk still has, up to the end of the frame. */
    method TakeBody(chunk: Bytes, start: nat) returns (offset: nat, done: seq<Message>)
      requires Valid() && body != null && start <= |chunk|
      modifies this, body
      ensures Valid() && start <= offset <= |chunk| && (body == null || body == old(body))
      ensures Scanned(Holding(), done) == Feed(old(Holding()), chunk[start..offset])
      ensures !Bad(Holding())
      ensures body != null ==> offset == |chunk| && done == []
      ensures start < |chunk| ==> start < offset
    {
      var n := if body.Length - bodyBytes < |chunk| - start then body.Length - bodyBytes else |chunk| - start;
      ghost var got, part := body[..bodyBytes], chunk[start..start + n];
      FeedPartBody(body.Length, got, part);
      Copy(chunk, start, n, body, bodyBytes);
      bodyBytes := bodyBytes + n;
      offset := start + n;
      done := [];
      if bodyBytes < body.Length { return; }
      assert body[..] == got + part;
      done := [MessageOf(body[..])];
      body := null;
      headerBytes := 0;
    }

    /**
     * push: the frames handed on and the state left are those of reading byte by byte; it
     * throws exactly when it was given bytes and they end at or past a bad length.
     */
    method Push(chunk: Bytes) returns (frames: seq<Message>, failed: bool)
      requires Valid()
      modifies this, header, body
      ensures Valid() && (body == null || body == old(body) || fresh(body))
      ensures Scanned(Holding(), frames) == Feed(old(Holding()), chunk)
      ensures failed <==> Throws(old(Holding()), chunk)
    {
      ghost var h := Holding();
      frames, failed := [], false;
      var offset := 0;
      while offset < |chunk|
        invariant Valid() && offset <= |chunk| && (body == null || body == old(body) || fresh(body))
        invariant Scanned(Holding(), frames) == Feed(h, chunk[..offset])
        invariant offset > 0 ==> !Bad(Holding())
      {
        if body == null {
          ghost var from := offset;
          offset, failed := TakeHeader(chunk, offset);
          Onward(h, chunk, from, offset);
          if failed {
            StopsAtBad(h, chunk, offset);
            return;
          }
          if body == null {
            assert chunk[..offset] == chunk;
            return;
          }
        }
        ghost var from := offset;
        var done;
        offset, done := TakeBody(chunk, offset);
        Onward(h, chunk, from, offset);
        frames := frames + done;
      }
      assert chunk[..offset] == chunk;
    }
  }
}

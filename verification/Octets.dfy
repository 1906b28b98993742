/** Bytes, and numbers in little-endian order, as Buffer reads and writes them. */
module Octets {
  type Byte = x: int | 0 <= x < 256
  type Bytes = seq<Byte>

  /** The i-th byte of n, counting from the least significant. */
  function Digit(n: nat, i: nat): Byte
    decreases i
  {
    if i == 0 then n % 256 else Digit(n / 256, i - 1)
  }

  /** The width low bytes of n, least significant first. */
  function Le(n: nat, width: nat): (r: Bytes)
    ensures |r| == width
  {
    seq(width, i requires 0 <= i < width => Digit(n, i))
  }

  function FromLe(b: Bytes): nat { if b == [] then 0 else b[0] as int + 256 * FromLe(b[1..]) }

  function Span(width: nat): nat { if width == 0 then 1 else 256 * Span(width - 1) }

  lemma {:induction false} LeReadsBack(n: nat, width: nat)
    requires n < Span(width)
    ensures FromLe(Le(n, width)) == n
    decreases width
  {
    if width > 0 {
      LeReadsBack(n / 256, width - 1);
      assert Le(n, width)[1..] == Le(n / 256, width - 1);
      assert Le(n, width)[0] == n % 256;
    }
  }

  lemma {:induction false} LeInverts(b: Bytes)
    ensures FromLe(b) < Span(|b|) && Le(FromLe(b), |b|) == b
  {
    if b != [] {
      LeInverts(b[1..]);
      var rest := FromLe(b[1..]);
      assert (b[0] as int + 256 * rest) % 256 == b[0] && (b[0] as int + 256 * rest) / 256 == rest;
      forall i | 0 <= i < |b| ensures Le(FromLe(b), |b|)[i] == b[i] {
        assert i > 0 ==> Le(rest, |b| - 1)[i - 1] == b[1..][i - 1];
      }
    }
  }

  lemma SpanOf()
    ensures Span(2) == 0x1_0000 && Span(4) == 0x1_0000_0000
  {
    assert Span(1) == 256 && Span(3) == 256 * Span(2);
  }

  lemma HalfInverts(b: Bytes)
    requires |b| == 2
    ensures FromLe(b) < 0x1_0000 && Le(FromLe(b), 2) == b
  {
    SpanOf();
    LeInverts(b);
  }

  lemma WordInverts(b: Bytes)
    requires |b| == 4
    ensures FromLe(b) < 0x1_0000_0000 && Le(FromLe(b), 4) == b
  {
    SpanOf();
    LeInverts(b);
  }
}

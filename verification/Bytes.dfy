/** Bytes and the readers that deliver them in pieces. */
module Bytes {
  type Byte = x: int | 0 <= x < 256

  const U64_LIMIT: nat := 0x1_0000_0000_0000_0000

  /** What one call of a reader gives; a chunk of no bytes is end of input. */
  datatype Read = Chunk(bytes: seq<Byte>) | Failed

  /** The bytes read before end of input or a failure. */
  function Delivered(calls: seq<Read>): seq<Byte> {
    if calls == [] || calls[0].Failed? || calls[0].bytes == [] then []
    else calls[0].bytes + Delivered(calls[1..])
  }

  /** Whether a read fails before end of input. */
  predicate Fails(calls: seq<Read>) {
    calls != [] && (calls[0].Failed? || (calls[0].bytes != [] && Fails(calls[1..])))
  }

  lemma DeliveredNext(calls: seq<Read>, next: nat)
    requires next < |calls|
    ensures var read := calls[next];
      if read.Failed? then Fails(calls[next..]) && Delivered(calls[next..]) == []
      else if read.bytes == [] then !Fails(calls[next..]) && Delivered(calls[next..]) == []
      else Fails(calls[next..]) == Fails(calls[next + 1..]) &&
           Delivered(calls[next..]) == read.bytes + Delivered(calls[next + 1..])
  {
    assert calls[next..][1..] == calls[next + 1..];
  }

  lemma DeliveredEnd()
    ensures !Fails([]) && Delivered([]) == []
  {
  }

  function Flatten(chunks: seq<seq<Byte>>): seq<Byte> {
    if chunks == [] then [] else chunks[0] + Flatten(chunks[1..])
  }

  function AsReads(chunks: seq<seq<Byte>>): seq<Read> {
    seq(|chunks|, i requires 0 <= i < |chunks| => Chunk(chunks[i]))
  }

  /** However a message is cut into nonempty chunks, a reader of the chunks delivers the message. */
  lemma {:induction false} DeliveredIsTheMessage(chunks: seq<seq<Byte>>)
    requires forall i | 0 <= i < |chunks| :: chunks[i] != []
    ensures Delivered(AsReads(chunks)) == Flatten(chunks) && !Fails(AsReads(chunks))
  {
    if chunks != [] {
      DeliveredIsTheMessage(chunks[1..]);
      assert AsReads(chunks)[1..] == AsReads(chunks[1..]);
    }
  }

  // Big-endian numbers.

  function BigEndian(n: nat, width: nat): (r: seq<Byte>)
    ensures |r| == width
  {
    if width == 0 then [] else BigEndian(n / 256, width - 1) + [n % 256]
  }

  function FromBigEndian(bytes: seq<Byte>): nat {
    if bytes == [] then 0 else 256 * FromBigEndian(bytes[..|bytes| - 1]) + bytes[|bytes| - 1]
  }

  function Pow256(n: nat): nat { if n == 0 then 1 else 256 * Pow256(n - 1) }

  lemma {:induction false} BigEndianRoundTrip(n: nat, width: nat)
    requires n < Pow256(width)
    ensures FromBigEndian(BigEndian(n, width)) == n
  {
    if width > 0 {
      BigEndianRoundTrip(n / 256, width - 1);
      assert BigEndian(n, width)[..width - 1] == BigEndian(n / 256, width - 1);
    }
  }

  lemma {:induction false} FromBigEndianRoundTrip(bytes: seq<Byte>)
    ensures FromBigEndian(bytes) < Pow256(|bytes|)
    ensures BigEndian(FromBigEndian(bytes), |bytes|) == bytes
  {
    if bytes != [] {
      FromBigEndianRoundTrip(bytes[..|bytes| - 1]);
    }
  }
}

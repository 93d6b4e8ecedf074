/** The signer's length-prefixed frames: a bounded reader over a stream that may deliver any
    number of bytes a read, and the frame encoder and decoder. */
module Framing {
  import opened Basics
  import opened Bytes

  const MAX_FRAME: nat := 16 * 1024
  const U32_LIMIT: nat := 0x1_0000_0000

  datatype Decoded = Payload(bytes: seq<Byte>) | MalformedFrame | FrameTooLarge

  // `encode_frame` and `decode_frame`.

  /** The length is written as 32 bits; a longer payload's length is cut to them. */
  function Encode(payload: seq<Byte>): seq<Byte> {
    BigEndian(|payload| % U32_LIMIT, 4) + payload
  }

  function Decode(frame: seq<Byte>): Decoded {
    if |frame| < 4 then MalformedFrame
    else
      var length := FromBigEndian(frame[..4]);
      if length > MAX_FRAME then FrameTooLarge
      else if |frame| != length + 4 then MalformedFrame
      else Payload(frame[4..])
  }

  lemma HeaderRange(header: seq<Byte>)
    requires |header| == 4
    ensures FromBigEndian(header) < U32_LIMIT
    ensures BigEndian(FromBigEndian(header), 4) == header
  {
    FromBigEndianRoundTrip(header);
    assert Pow256(4) == U32_LIMIT;
  }

  lemma HeaderOf(n: nat)
    requires n < U32_LIMIT
    ensures FromBigEndian(BigEndian(n, 4)) == n
  {
    assert Pow256(4) == U32_LIMIT;
    BigEndianRoundTrip(n, 4);
  }

  /** Decoding undoes encoding exactly for the payloads within the limit. */
  lemma DecodeOfEncode(payload: seq<Byte>)
    ensures Decode(Encode(payload)) == Payload(payload) <==> |payload| <= MAX_FRAME
    ensures MAX_FRAME < |payload| < U32_LIMIT ==> Decode(Encode(payload)) == FrameTooLarge
    ensures |payload| > MAX_FRAME ==> !Decode(Encode(payload)).Payload?
  {
    var frame := Encode(payload);
    HeaderOf(|payload| % U32_LIMIT);
    assert frame[..4] == BigEndian(|payload| % U32_LIMIT, 4);
    assert frame[4..] == payload;
  }

  // The bounded read, as a function of everything the stream will ever deliver.

  function FrameRead(stream: seq<Byte>): seq<Byte> {
    if |stream| < 4 then stream
    else if FromBigEndian(stream[..4]) > MAX_FRAME then stream[..4]
    else stream[..Min(|stream|, 4 + FromBigEndian(stream[..4]))]
  }

  /** A bounded read decodes to a payload exactly when the stream starts with that payload's
      frame and the payload is within the limit. */
  lemma ReadDecodesCompleteFrames(stream: seq<Byte>, payload: seq<Byte>)
    ensures Decode(FrameRead(stream)) == Payload(payload) <==> |payload| <= MAX_FRAME && Encode(payload) <= stream
  {
    if |payload| <= MAX_FRAME && Encode(payload) <= stream {
      HeaderOf(|payload|);
      assert stream[..4] == Encode(payload)[..4] == BigEndian(|payload|, 4);
      assert FrameRead(stream) == Encode(payload);
      DecodeOfEncode(payload);
    }
    if Decode(FrameRead(stream)) == Payload(payload) {
      var frame := FrameRead(stream);
      assert frame[..4] == stream[..4];
      HeaderRange(frame[..4]);
      assert frame == frame[..4] + payload;
      assert |payload| == FromBigEndian(frame[..4]);
      assert Encode(payload) == frame;
    }
  }

  /** Oversize and truncation are told apart: the one needs a complete header that claims too
      much, the other a stream that ends before its frame. */
  lemma ReadErrors(stream: seq<Byte>)
    ensures Decode(FrameRead(stream)) == FrameTooLarge <==>
              |stream| >= 4 && FromBigEndian(stream[..4]) > MAX_FRAME
    ensures Decode(FrameRead(stream)) == MalformedFrame <==>
              |stream| < 4 || (FromBigEndian(stream[..4]) <= MAX_FRAME && |stream| < 4 + FromBigEndian(stream[..4]))
  {
    if |stream| >= 4 {
      assert FrameRead(stream)[..4] == stream[..4];
    }
  }

  /** A connection's stream: what is left to deliver, how much each read gives, and which read fails. */
  class Stream {
    var left: seq<Byte>
    var turn: nat
    const sizes: nat -> nat
    const fails: nat -> bool
    ghost var failed: bool

    constructor (data: seq<Byte>, sizes: nat -> nat, fails: nat -> bool)
      ensures left == data && this.sizes == sizes && this.fails == fails && !failed
    {
      left, turn, failed := data, 0, false;
      this.sizes, this.fails := sizes, fails;
    }

    /** Fills part of a buffer: at least one byte unless the stream has ended or there is no room. */
    method Read(buffer: array<Byte>, from: nat) returns (ok: bool, count: nat)
      requires from <= buffer.Length
      modifies this, buffer
      ensures ok == !fails(old(turn)) && failed == (old(failed) || !ok) && turn == old(turn) + 1
      ensures count <= buffer.Length - from && count <= |old(left)|
      ensures ok ==> (count == 0 <==> from == buffer.Length || old(left) == [])
      ensures !ok ==> count == 0
      ensures left == old(left)[count..]
      ensures buffer[..from + count] == old(buffer[..from]) + old(left)[..count]
    {
      ok, turn := !fails(turn), turn + 1;
      count := 0;
      if !ok {
        failed := true;
        return;
      }
      var room := Min(buffer.Length - from, |left|);
      count := if room == 0 then 0 else Min(room, 1 + sizes(turn));
      ghost var before := buffer[..from];
      for i := 0 to count
        invariant left == old(left) && failed == old(failed) && turn == old(turn) + 1
        invariant buffer[..from + i] == before + left[..i]
      {
        buffer[from + i] := left[i];
        assert buffer[..from + i + 1] == buffer[..from + i] + [left[i]];
      }
      left := left[count..];
    }
  }

  /** One read loop: fill a buffer from an offset, until it is full, the stream ends or a read fails. */
  method Fill(stream: Stream, buffer: array<Byte>, from: nat) returns (ok: bool, filled: nat)
    requires from <= buffer.Length
    modifies stream, buffer
    ensures stream.failed == (old(stream.failed) || !ok)
    ensures from <= filled <= buffer.Length && filled - from <= |old(stream.left)|
    ensures ok ==> filled == Min(buffer.Length, from + |old(stream.left)|)
    ensures buffer[..filled] == old(buffer[..from]) + old(stream.left)[..filled - from]
    ensures stream.left == old(stream.left)[filled - from..]
  {
    ghost var data, start := stream.left, buffer[..from];
    ok, filled := true, from;
    while filled < buffer.Length
      invariant ok && stream.failed == old(stream.failed)
      invariant from <= filled <= buffer.Length && filled - from <= |data|
      invariant stream.left == data[filled - from..]
      invariant buffer[..filled] == start + data[..filled - from]
      decreases buffer.Length - filled
    {
      ghost var taken := filled - from;
      var count;
      ok, count := stream.Read(buffer, filled);
      if !ok || count == 0 { return; }
      assert data[..taken + count] == data[..taken] + data[taken..][..count];
      assert data[taken..][count..] == data[taken + count..];
      filled := filled + count;
    }
  }

  /** `read_bounded_frame`: for every split of the stream into reads the frame is the same, nothing
      past it is consumed, and the only error is that of a failed read. */
  method ReadBoundedFrame(stream: Stream) returns (frame: Option<seq<Byte>>)
    requires !stream.failed
    modifies stream
    ensures frame.None? <==> stream.failed
    ensures frame.Some? ==>
      frame.value == FrameRead(old(stream.left)) && stream.left == old(stream.left)[|frame.value|..]
  {
    ghost var data := stream.left;
    var header := new Byte[4](_ => 0);
    var ok, headerRead := Fill(stream, header, 0);
    if !ok { return None; }
    assert header[..headerRead] == data[..headerRead];
    if headerRead < 4 {
      assert data[..headerRead] == data;
      return Some(header[..headerRead]);
    }
    var length := FromBigEndian(header[..]);
    assert header[..] == header[..4] == data[..4];
    if length > MAX_FRAME {
      return Some(header[..]);
    }
    frame := ReadPayload(stream, header[..], length, data);
  }

  /** The second loop: the payload behind a header that claims no more than the limit. */
  method ReadPayload(stream: Stream, header: seq<Byte>, length: nat, ghost data: seq<Byte>)
    returns (frame: Option<seq<Byte>>)
    requires !stream.failed && |header| == 4 && |data| >= 4 && header == data[..4] && stream.left == data[4..]
    modifies stream
    ensures frame.None? <==> stream.failed
    ensures frame.Some? ==>
      frame.value == data[..Min(|data|, 4 + length)] && stream.left == data[|frame.value|..]
  {
    var whole := new Byte[4 + length](i requires 0 <= i < 4 + length => if i < 4 then header[i] else 0);
    assert whole[..4] == header;
    var ok, offset := Fill(stream, whole, 4);
    if !ok { return None; }
    assert data[..4] + data[4..][..offset - 4] == data[..offset];
    assert data[4..][offset - 4..] == data[offset..];
    frame := Some(whole[..offset]);
  }
}

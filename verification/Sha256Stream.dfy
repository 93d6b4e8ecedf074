/** The hand-written streaming SHA-256 that pins provider executables: blocks are compressed as
    reads arrive, and the padded tail is compressed at end of input. Every method is proved
    against the definitions of the standard in module Sha256. */
module Sha256Stream {
  import opened Bytes
  import opened Sha256

  datatype Outcome = Digested(digest: seq<Byte>) | ReadFailed | TooLarge

  lemma AddMod(n: nat, x: Word)
    ensures Add(n % WORD_LIMIT, x) == (n + x) % WORD_LIMIT
  {
  }

  lemma SumsReorder(a: Word, b: Word, c: Word, d: Word)
    ensures Add(Add(Add(a, b), c), d) == Add(Add(Add(d, c), b), a)
  {
    AddMod(a + b, c);
    AddMod(a + b + c, d);
    AddMod(d + c, b);
    AddMod(d + c + b, a);
  }

  method ExtendSchedule(w2: Word, w7: Word, w15: Word, w16: Word) returns (w: Word)
    ensures w == NextWord(w2, w7, w15, w16)
  {
    var s0 := Xor(Xor(Rotr(w15, 7), Rotr(w15, 18)), Shr(w15, 3));
    var s1 := Xor(Xor(Rotr(w2, 17), Rotr(w2, 19)), Shr(w2, 10));
    w := Add(Add(Add(w16, s0), w7), s1);
    SumsReorder(w16, s0, w7, s1);
  }

  /** Fills the schedule in place: words 0..16 from the block, the rest from earlier words. */
  method Schedule(block: Block) returns (words: array<Word>)
    ensures fresh(words) && words.Length == 64
    ensures forall t: nat | t < 64 :: words[t] == W(block, t)
  {
    hide NextWord, WordAt;
    words := new Word[64](_ => 0);
    for index := 0 to 16
      invariant forall t: nat | t < index :: words[t] == W(block, t)
    {
      words[index] := WordAt(block, index);
    }
    for index := 16 to 64
      invariant forall t: nat | t < index :: words[t] == W(block, t)
    {
      words[index] := ExtendSchedule(words[index - 2], words[index - 7], words[index - 15], words[index - 16]);
    }
  }

  /** One turn of the round loop: the eight variables are shifted one after the other. */
  method MixStep(v: Vars, k: Word, w: Word) returns (r: Vars)
    ensures r == Round(v, k, w)
  {
    var Vars(a, b, c, d, e, f, g, h) := v;
    var sum1 := Xor(Xor(Rotr(e, 6), Rotr(e, 11)), Rotr(e, 25));
    var choice := Xor(And(e, f), And(Not(e), g));
    var temp1 := Add(Add(Add(Add(h, sum1), choice), k), w);
    var sum0 := Xor(Xor(Rotr(a, 2), Rotr(a, 13)), Rotr(a, 22));
    var majority := Xor(Xor(And(a, b), And(a, c)), And(b, c));
    var temp2 := Add(sum0, majority);
    h := g;
    g := f;
    f := e;
    e := Add(d, temp1);
    d := c;
    c := b;
    b := a;
    a := Add(temp1, temp2);
    r := Vars(a, b, c, d, e, f, g, h);
  }

  method Mix(hash: Hash, words: array<Word>, ghost block: Block) returns (v: Vars)
    requires words.Length == 64
    requires forall t: nat | t < 64 :: words[t] == W(block, t)
    ensures v == Rounds(hash, block, 64)
  {
    v := Vars(hash[0], hash[1], hash[2], hash[3], hash[4], hash[5], hash[6], hash[7]);
    for index := 0 to 64
      invariant v == Rounds(hash, block, index)
    {
      v := MixStep(v, K[index], words[index]);
    }
  }

  method AddInto(state: array<Word>, v: Vars)
    requires state.Length == 8
    modifies state
    ensures state[..] == Added(old(state[..]), v)
  {
    var values := [v.a, v.b, v.c, v.d, v.e, v.f, v.g, v.h];
    for index := 0 to 8
      invariant forall i | 0 <= i < index :: state[i] == Add(old(state[i]), values[i])
      invariant forall i | index <= i < 8 :: state[i] == old(state[i])
    {
      state[index] := Add(state[index], values[index]);
    }
  }

  method Compress(state: array<Word>, block: Block)
    requires state.Length == 8
    modifies state
    ensures state[..] == Compressed(old(state[..]), block)
  {
    hide Added, Rounds;
    var words := Schedule(block);
    var v := Mix(state[..], words, block);
    AddInto(state, v);
  }

  /** Compressing whole blocks and then the rest is compressing everything. */
  lemma {:induction false} HashBlocksAppend(hash: Hash, a: seq<Byte>, b: seq<Byte>)
    requires |a| % 64 == 0
    ensures HashBlocks(hash, a + b) == HashBlocks(HashBlocks(hash, a), b)
    decreases |a|
  {
    hide Compressed;
    if |a| < 64 {
      assert a + b == b;
    } else {
      assert (a + b)[..64] == a[..64] && (a + b)[64..] == a[64..] + b;
      HashBlocksAppend(Compressed(hash, a[..64]), a[64..], b);
    }
  }

  method CompressBlocks(state: array<Word>, data: seq<Byte>)
    requires state.Length == 8 && |data| % 64 == 0
    modifies state
    ensures state[..] == HashBlocks(old(state[..]), data)
  {
    hide Compressed;
    ghost var start: Hash := state[..];
    var offset := 0;
    while offset < |data|
      invariant 0 <= offset <= |data| && offset % 64 == 0
      invariant state[..] == HashBlocks(start, data[..offset])
    {
      var block := data[offset..offset + 64];
      Compress(state, block);
      HashBlocksAppend(start, data[..offset], block);
      assert data[..offset + 64] == data[..offset] + block;
      assert HashBlocks(HashBlocks(start, data[..offset]), block) ==
             HashBlocks(Compressed(HashBlocks(start, data[..offset]), block[..64]), block[64..]);
      assert block[..64] == block;
      offset := offset + 64;
    }
    assert data[..|data|] == data;
  }

  method Pad(pending: seq<Byte>, bitLength: nat) returns (tail: seq<Byte>)
    ensures tail == pending + [0x80] + Zeros(PadZeros(|pending|)) + BigEndian(bitLength, 8)
    ensures |tail| % 64 == 0
  {
    tail := pending + [0x80];
    ghost var zeros := 0;
    while |tail| % 64 != 56
      invariant zeros <= PadZeros(|pending|)
      invariant tail == pending + [0x80] + Zeros(zeros)
      decreases PadZeros(|pending|) - zeros
    {
      tail := tail + [0];
      zeros := zeros + 1;
    }
    tail := tail + BigEndian(bitLength, 8);
  }

  lemma {:induction false} HashBytesAppend(a: seq<Word>, w: Word)
    ensures HashBytes(a + [w]) == HashBytes(a) + WordBytes(w)
  {
    if a == [] {
      assert a + [w] == [w];
      assert HashBytes([]) == [];
    } else {
      assert (a + [w])[1..] == a[1..] + [w];
      HashBytesAppend(a[1..], w);
    }
  }

  /** One read: the whole blocks of pending and new bytes are compressed, the rest stays pending. */
  method Absorb(state: array<Word>, pending: seq<Byte>, bytes: seq<Byte>, ghost hashed: seq<Byte>)
    returns (rest: seq<Byte>, ghost now: seq<Byte>)
    requires state.Length == 8 && |hashed| % 64 == 0 && state[..] == HashBlocks(INITIAL, hashed)
    modifies state
    ensures |rest| < 64 && |now| % 64 == 0
    ensures state[..] == HashBlocks(INITIAL, now)
    ensures now + rest == hashed + pending + bytes
  {
    hide Compressed, HashBlocks;
    var all := pending + bytes;
    var complete := |all| / 64 * 64;
    CompressBlocks(state, all[..complete]);
    HashBlocksAppend(INITIAL, hashed, all[..complete]);
    now := hashed + all[..complete];
    rest := all[complete..];
  }

  /** End of input: the tail is padded and compressed, and the state is written out. */
  method Finish(state: array<Word>, pending: seq<Byte>, bitLength: nat, ghost hashed: seq<Byte>)
    returns (digest: seq<Byte>)
    requires state.Length == 8 && |hashed| % 64 == 0 && state[..] == HashBlocks(INITIAL, hashed)
    requires |pending| < 64 && bitLength == 8 * |hashed + pending|
    modifies state
    ensures digest == Digest(hashed + pending)
  {
    hide Compressed, HashBlocks, Padded, HashBytes;
    var tail := Pad(pending, bitLength);
    CompressBlocks(state, tail);
    HashBlocksAppend(INITIAL, hashed, tail);
    PaddedTail(hashed, pending);
    assert state[..] == HashBlocks(INITIAL, Padded(hashed + pending));
    digest := WriteOut(state);
  }

  method WriteOut(state: array<Word>) returns (digest: seq<Byte>)
    requires state.Length == 8
    ensures digest == HashBytes(state[..])
  {
    digest := [];
    for index := 0 to 8
      invariant digest == HashBytes(state[..index])
    {
      HashBytesAppend(state[..index], state[index]);
      assert state[..index + 1] == state[..index] + [state[index]];
      digest := digest + WordBytes(state[index]);
    }
    assert state[..8] == state[..];
  }

  lemma PaddedTail(hashed: seq<Byte>, pending: seq<Byte>)
    requires |hashed| % 64 == 0
    ensures Padded(hashed + pending) ==
            hashed + (pending + [0x80] + Zeros(PadZeros(|pending|)) + BigEndian(8 * (|hashed| + |pending|), 8))
  {
    assert PadZeros(|hashed + pending|) == PadZeros(|pending|);
  }

  /** The reader loop: `sha256_reader`. */
  method HashReader(calls: seq<Read>) returns (r: Outcome)
    ensures r.Digested? <==> !Fails(calls) && 8 * |Delivered(calls)| < U64_LIMIT
    ensures r.Digested? ==> r.digest == Digest(Delivered(calls))
    ensures r.TooLarge? ==> 8 * |Delivered(calls)| >= U64_LIMIT
    ensures r.ReadFailed? ==> Fails(calls)
  {
    hide HashBlocks, Digest, Delivered, Fails;
    var state := new Word[8](i requires 0 <= i < 8 => INITIAL[i]);
    assert state[..] == INITIAL;
    EmptyHash();
    var pending: seq<Byte> := [];
    var total := 0;
    ghost var hashed: seq<Byte> := [];
    var next := 0;
    assert calls[0..] == calls;
    while next < |calls| && calls[next] != Chunk([])
      invariant 0 <= next <= |calls|
      invariant |hashed| % 64 == 0 && state[..] == HashBlocks(INITIAL, hashed)
      invariant |pending| < 64 && total == |hashed| + |pending| < U64_LIMIT
      invariant Delivered(calls) == hashed + pending + Delivered(calls[next..])
      invariant Fails(calls) == Fails(calls[next..])
    {
      var read := calls[next];
      DeliveredNext(calls, next);
      if read.Failed? { return ReadFailed; }
      if total + |read.bytes| >= U64_LIMIT { return TooLarge; }
      total := total + |read.bytes|;
      pending, hashed := Absorb(state, pending, read.bytes, hashed);
      next := next + 1;
    }
    if next < |calls| { DeliveredNext(calls, next); } else { DeliveredEnd(); assert calls[next..] == []; }
    assert Delivered(calls) == hashed + pending;
    if 8 * total >= U64_LIMIT { return TooLarge; }
    var digest := Finish(state, pending, 8 * total, hashed);
    r := Digested(digest);
  }

  /** However a message is cut into nonempty chunks, hashing the chunks gives its digest. */
  method HashChunks(chunks: seq<seq<Byte>>) returns (r: Outcome)
    requires forall i | 0 <= i < |chunks| :: chunks[i] != []
    ensures r == if 8 * |Flatten(chunks)| < U64_LIMIT then Digested(Digest(Flatten(chunks))) else TooLarge
  {
    hide Digest;
    DeliveredIsTheMessage(chunks);
    r := HashReader(AsReads(chunks));
  }

  lemma EmptyHash()
    ensures HashBlocks(INITIAL, []) == INITIAL
  {
  }

  // The lower-case hexadecimal form in which digests are compared and stored.

  const HEX: string := "0123456789abcdef"

  function HexValue(c: char): int {
    if '0' <= c <= '9' then c as int - '0' as int
    else if 'a' <= c <= 'f' then c as int - 'a' as int + 10
    else -1
  }

  predicate IsHex(s: string) { forall i | 0 <= i < |s| :: 0 <= HexValue(s[i]) < 16 }

  function ParseHex(s: string): seq<Byte>
    requires |s| % 2 == 0 && IsHex(s)
  {
    if s == [] then [] else [16 * HexValue(s[0]) + HexValue(s[1])] + ParseHex(s[2..])
  }

  lemma {:induction false} ParseHexAppend(s: string, high: char, low: char)
    requires |s| % 2 == 0 && IsHex(s + [high, low])
    ensures IsHex(s)
    ensures ParseHex(s + [high, low]) == ParseHex(s) + [16 * HexValue(high) + HexValue(low)]
  {
    var t := s + [high, low];
    assert forall i | 0 <= i < |s| :: s[i] == t[i];
    assert t[|s|] == high && t[|s| + 1] == low;
    if s == [] {
      assert t == [high, low];
      assert t[2..] == [];
    } else {
      assert t[2..] == s[2..] + [high, low];
      ParseHexAppend(s[2..], high, low);
    }
  }

  lemma HexDigits(n: nat)
    requires n < 16
    ensures HexValue(HEX[n]) == n
  {
  }

  method HexDigest(digest: seq<Byte>) returns (output: string)
    ensures |output| == 2 * |digest| && IsHex(output)
    ensures ParseHex(output) == digest
  {
    hide HexValue;
    output := "";
    for index := 0 to |digest|
      invariant |output| == 2 * index && IsHex(output)
      invariant ParseHex(output) == digest[..index]
    {
      var byte := digest[index];
      var high, low := HEX[byte / 16], HEX[byte % 16];
      HexDigits(byte / 16);
      HexDigits(byte % 16);
      ParseHexAppend(output, high, low);
      assert digest[..index + 1] == digest[..index] + [byte];
      assert output + [high] + [low] == output + [high, low];
      output := output + [high];
      output := output + [low];
    }
    assert digest[..|digest|] == digest;
  }
}

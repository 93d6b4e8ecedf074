/** The whole pipeline of a child's output: drained, sanitized and appended to its bounded files. */
module ChildLog {
  import opened Bytes
  import opened LogDrain
  import opened LogRotation

  /** A text in a character-by-character encoding, as UTF-8 is. */
  function Encoded(text: string, encode: char -> seq<Byte>): seq<Byte> {
    if text == "" then [] else encode(text[0]) + Encoded(text[1..], encode)
  }

  lemma {:induction false} EncodedAppend(a: string, b: string, encode: char -> seq<Byte>)
    ensures Encoded(a + b, encode) == Encoded(a, encode) + Encoded(b, encode)
  {
    if a == "" {
      assert a + b == b;
    } else {
      assert (a + b)[0] == a[0] && (a + b)[1..] == a[1..] + b;
      EncodedAppend(a[1..], b, encode);
    }
  }

  /** What one entry appends. */
  function BytesOf(entry: Entry, decode: seq<Byte> -> string, encode: char -> seq<Byte>): seq<Byte> {
    Encoded(TextOf(entry, decode), encode)
  }

  function Appends(entries: seq<Entry>, decode: seq<Byte> -> string, encode: char -> seq<Byte>): seq<seq<Byte>> {
    seq(|entries|, i requires 0 <= i < |entries| => BytesOf(entries[i], decode, encode))
  }

  lemma {:induction false} AppendsAreTheLog(entries: seq<Entry>, decode: seq<Byte> -> string, encode: char -> seq<Byte>)
    ensures Flatten(Appends(entries, decode, encode)) == Encoded(LogText(entries, decode), encode)
  {
    hide TextOf;
    if entries != [] {
      AppendsAreTheLog(entries[1..], decode, encode);
      assert Appends(entries, decode, encode)[1..] == Appends(entries[1..], decode, encode);
      EncodedAppend(TextOf(entries[0], decode), LogText(entries[1..], decode), encode);
    }
  }

  /** Appends that fit are kept whole. */
  lemma {:induction false} FittingIsKept(texts: seq<seq<Byte>>, maxBytes: nat)
    requires forall i | 0 <= i < |texts| :: |texts[i]| <= maxBytes
    ensures AllKept(texts, maxBytes) == Flatten(texts)
  {
    if texts != [] {
      FittingIsKept(texts[1..], maxBytes);
      assert Kept(texts[0], maxBytes) == texts[0];
    }
  }

  /** A stream has no more entries than bytes. */
  lemma {:induction false} EntriesAreFew(stream: seq<Byte>, closed: bool)
    ensures |Entries(stream, closed)| <= |stream|
    decreases |stream|
  {
    var n := LineLength(stream);
    if n < |stream| { EntriesAreFew(stream[n + 1..], closed); }
  }

  /** For every split of the output into reads, in any directory: the new segments and the live file
      hold what is kept of the specified entries, in order. With entries that fit and no hole, all
      segments followed by the live file are exactly the earlier bytes and the sanitized log. */
  method Record(files: LogFiles, calls: seq<Read>, decode: seq<Byte> -> string, encode: char -> seq<Byte>)
    returns (ghost order: seq<nat>)
    requires files.Valid()
    requires forall text | text in Appends(Entries(Delivered(calls), !Fails(calls)), decode, encode) ::
      |text| < FILE_LIMIT
    modifies files
    ensures files.Valid() && Grown(old(files.segments), files.segments, order)
    ensures var entries := Entries(Delivered(calls), !Fails(calls));
      var texts := Appends(entries, decode, encode);
      && Gathered(files.segments, order) + files.live == old(files.live) + AllKept(texts, files.maxBytes)
      && ((forall i | 0 <= i < |texts| :: |texts[i]| <= files.maxBytes) && old(Contiguous(files.segments)) ==>
            && Contiguous(files.segments)
            && files.Contents() == old(files.Contents()) + Encoded(LogText(entries, decode), encode))
  {
    hide Entries, Delivered, Fails, BytesOf, LogText, AllKept, Contiguous, Grown, Gathered, Encoded;
    hide LogFiles.Valid, LogFiles.Contents;
    EntriesAreFew(Delivered(calls), !Fails(calls));
    var log := Drain(calls, |Delivered(calls)|);
    var texts := Appends(log, decode, encode);
    AppendsAreTheLog(log, decode, encode);
    if forall i | 0 <= i < |texts| :: |texts[i]| <= files.maxBytes { FittingIsKept(texts, files.maxBytes); }
    order := files.AppendAll(texts);
  }
}

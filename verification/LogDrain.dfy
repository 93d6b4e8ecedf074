/** The thread that drains a child's output stream: it cuts bytes into lines as they arrive,
    gives up on overlong lines, and appends what the sanitizer keeps of each line. */
module LogDrain {
  import opened Bytes
  import opened Text
  import Redaction

  const LINE_LIMIT: nat := 4096
  const LINE_FEED: Byte := 10

  /** One append to the log. */
  datatype Entry = Line(bytes: seq<Byte>) | Overlong

  // The line specification, on the whole stream at once.

  function EntryOf(line: seq<Byte>): Entry { if |line| <= LINE_LIMIT then Line(line) else Overlong }

  /** What an unterminated last line gives; a short one is flushed only at a clean end of input. */
  function TailEntries(tail: seq<Byte>, closed: bool): seq<Entry> {
    if |tail| > LINE_LIMIT then [Overlong] else if closed && tail != [] then [Line(tail)] else []
  }

  function LineLength(stream: seq<Byte>): (n: nat)
    ensures n <= |stream|
  {
    if stream == [] || stream[0] == LINE_FEED then 0 else 1 + LineLength(stream[1..])
  }

  function Entries(stream: seq<Byte>, closed: bool): seq<Entry>
    decreases |stream|
  {
    var n := LineLength(stream);
    if n == |stream| then TailEntries(stream, closed)
    else [EntryOf(stream[..n])] + Entries(stream[n + 1..], closed)
  }

  predicate IsUnbroken(bytes: seq<Byte>) { forall i | 0 <= i < |bytes| :: bytes[i] != LINE_FEED }

  lemma {:induction false} LineLengthOfLine(line: seq<Byte>, rest: seq<Byte>)
    requires IsUnbroken(line) && (rest == [] || rest[0] == LINE_FEED)
    ensures LineLength(line + rest) == |line|
  {
    if line == [] {
      assert line + rest == rest;
    } else {
      assert (line + rest)[1..] == line[1..] + rest;
      assert forall i | 0 <= i < |line[1..]| :: line[1..][i] == line[i + 1];
      LineLengthOfLine(line[1..], rest);
    }
  }

  lemma EntriesOfLine(line: seq<Byte>, rest: seq<Byte>, closed: bool)
    requires IsUnbroken(line)
    ensures Entries(line + [LINE_FEED] + rest, closed) == [EntryOf(line)] + Entries(rest, closed)
  {
    var stream := line + [LINE_FEED] + rest;
    assert stream == line + ([LINE_FEED] + rest);
    LineLengthOfLine(line, [LINE_FEED] + rest);
    assert stream[..|line|] == line && stream[|line| + 1..] == rest;
  }

  lemma EntriesOfTail(tail: seq<Byte>, closed: bool)
    requires IsUnbroken(tail)
    ensures Entries(tail, closed) == TailEntries(tail, closed)
  {
    LineLengthOfLine(tail, []);
    assert tail + [] == tail;
  }

  function Terminated(lines: seq<seq<Byte>>): seq<Byte> {
    if lines == [] then [] else lines[0] + [LINE_FEED] + Terminated(lines[1..])
  }

  function EntriesOfAll(lines: seq<seq<Byte>>): seq<Entry> {
    seq(|lines|, i requires 0 <= i < |lines| => EntryOf(lines[i]))
  }

  /** For a stream given as lines: one entry a line in order, and the tail by its own rule. */
  lemma {:induction false} LineSpecification(lines: seq<seq<Byte>>, tail: seq<Byte>, closed: bool)
    requires forall i | 0 <= i < |lines| :: IsUnbroken(lines[i])
    requires IsUnbroken(tail)
    ensures Entries(Terminated(lines) + tail, closed) == EntriesOfAll(lines) + TailEntries(tail, closed)
  {
    hide Entries, TailEntries, EntryOf;
    if lines == [] {
      assert Terminated(lines) + tail == tail;
      EntriesOfTail(tail, closed);
    } else {
      var rest := Terminated(lines[1..]) + tail;
      assert Terminated(lines) + tail == lines[0] + [LINE_FEED] + rest;
      EntriesOfLine(lines[0], rest, closed);
      LineSpecification(lines[1..], tail, closed);
      assert EntriesOfAll(lines) == [EntryOf(lines[0])] + EntriesOfAll(lines[1..]);
    }
  }

  /** Every stream is some lines and a tail, so the line specification covers every stream. */
  lemma {:induction false} EveryStreamIsLines(stream: seq<Byte>) returns (lines: seq<seq<Byte>>, tail: seq<Byte>)
    ensures (forall i | 0 <= i < |lines| :: IsUnbroken(lines[i])) && IsUnbroken(tail)
    ensures stream == Terminated(lines) + tail
    decreases |stream|
  {
    var n := LineLength(stream);
    LineLengthIsLine(stream);
    if n == |stream| {
      lines, tail := [], stream;
    } else {
      lines, tail := EveryStreamIsLines(stream[n + 1..]);
      lines := [stream[..n]] + lines;
      assert stream == stream[..n] + [LINE_FEED] + stream[n + 1..];
    }
  }

  lemma {:induction false} LineLengthIsLine(stream: seq<Byte>)
    ensures var n := LineLength(stream);
      IsUnbroken(stream[..n]) && (n < |stream| ==> stream[n] == LINE_FEED)
  {
    if stream != [] && stream[0] != LINE_FEED {
      LineLengthIsLine(stream[1..]);
      var n := LineLength(stream[1..]);
      assert forall i | 1 <= i < n + 1 :: stream[i] == stream[1..][..n][i - 1];
    }
  }

  // What is still to come from a state of the drain, given the bytes not yet read.

  function ToCome(pending: seq<Byte>, discarding: bool, rest: seq<Byte>, closed: bool): seq<Entry> {
    if !discarding then Entries(pending + rest, closed)
    else
      var n := LineLength(rest);
      if n == |rest| then [] else Entries(rest[n + 1..], closed)
  }

  lemma OverlongLine(pending: seq<Byte>, byte: Byte, rest: seq<Byte>, closed: bool)
    requires IsUnbroken(pending) && |pending| == LINE_LIMIT && byte != LINE_FEED
    ensures ToCome(pending, false, [byte] + rest, closed) == [Overlong] + ToCome([], true, rest, closed)
  {
    var n := LineLength(rest);
    LineLengthIsLine(rest);
    var line := pending + [byte] + rest[..n];
    assert IsUnbroken(line);
    if n == |rest| {
      assert pending + ([byte] + rest) == line;
      EntriesOfTail(line, closed);
    } else {
      assert pending + ([byte] + rest) == line + [LINE_FEED] + rest[n + 1..];
      EntriesOfLine(line, rest[n + 1..], closed);
    }
  }

  lemma DiscardedByte(byte: Byte, rest: seq<Byte>, closed: bool)
    ensures ToCome([], true, [byte] + rest, closed) == ToCome([], byte != LINE_FEED, rest, closed)
  {
    hide Entries;
    assert ([byte] + rest)[1..] == rest;
    if byte != LINE_FEED {
      var n := LineLength(rest);
      assert n < |rest| ==> ([byte] + rest)[n + 2..] == rest[n + 1..];
    } else {
      assert [] + rest == rest;
    }
  }

  predicate Valid(pending: seq<Byte>, discarding: bool) {
    |pending| <= LINE_LIMIT && IsUnbroken(pending) && (discarding ==> pending == [])
  }

  /** The byte loop over one buffer. `accepted` is how many appends succeed before one fails;
      the drain stops at a failed append. */
  method DrainBuffer(buffer: seq<Byte>, pending0: seq<Byte>, discarding0: bool, log0: seq<Entry>, accepted: nat,
                     ghost later: seq<Byte>, ghost closed: bool)
    returns (pending: seq<Byte>, discarding: bool, log: seq<Entry>, stopped: bool)
    requires Valid(pending0, discarding0) && |log0| <= accepted
    ensures Valid(pending, discarding) && |log| <= accepted
    ensures !stopped ==>
      log + ToCome(pending, discarding, later, closed) == log0 + ToCome(pending0, discarding0, buffer + later, closed)
    ensures stopped ==>
      |log| == accepted && log < log0 + ToCome(pending0, discarding0, buffer + later, closed)
  {
    hide ToCome, Entries;
    pending, discarding, log, stopped := pending0, discarding0, log0, false;
    assert buffer[0..] == buffer;
    for next := 0 to |buffer|
      invariant Valid(pending, discarding) && |log| <= accepted
      invariant log + ToCome(pending, discarding, buffer[next..] + later, closed)
             == log0 + ToCome(pending0, discarding0, buffer + later, closed)
    {
      var byte := buffer[next];
      ghost var rest := buffer[next + 1..] + later;
      assert buffer[next..] + later == [byte] + rest;
      if discarding {
        DiscardedByte(byte, rest, closed);
        if byte == LINE_FEED {
          discarding := false;
        }
      } else if byte == LINE_FEED {
        TerminatedLine(pending, rest, closed);
        if |log| == accepted { return pending, discarding, log, true; }
        log := log + [Line(pending)];
        pending := [];
      } else if |pending| < LINE_LIMIT {
        KeptByte(pending, byte, rest, closed);
        pending := pending + [byte];
      } else {
        OverlongLine(pending, byte, rest, closed);
        if |log| == accepted { return pending, discarding, log, true; }
        log := log + [Overlong];
        pending := [];
        discarding := true;
      }
    }
    assert buffer[|buffer|..] + later == later;
  }

  lemma TerminatedLine(pending: seq<Byte>, rest: seq<Byte>, closed: bool)
    requires IsUnbroken(pending) && |pending| <= LINE_LIMIT
    ensures ToCome(pending, false, [LINE_FEED] + rest, closed) == [Line(pending)] + ToCome([], false, rest, closed)
  {
    assert pending + ([LINE_FEED] + rest) == pending + [LINE_FEED] + rest;
    EntriesOfLine(pending, rest, closed);
    assert [] + rest == rest;
  }

  lemma KeptByte(pending: seq<Byte>, byte: Byte, rest: seq<Byte>, closed: bool)
    ensures ToCome(pending, false, [byte] + rest, closed) == ToCome(pending + [byte], false, rest, closed)
  {
    assert pending + ([byte] + rest) == pending + [byte] + rest;
  }

  /** The read loop. The log depends on the delivered bytes only, not on where reads end, and is
      exactly the specified entries, or their first `accepted` if an append fails. */
  method Drain(calls: seq<Read>, accepted: nat) returns (log: seq<Entry>)
    ensures var specified := Entries(Delivered(calls), !Fails(calls));
      log == if |specified| <= accepted then specified else specified[..accepted]
  {
    hide ToCome, Entries, Delivered, Fails;
    log := [];
    var pending: seq<Byte> := [];
    var discarding := false;
    var next := 0;
    ghost var closed := !Fails(calls);
    ghost var specified := Entries(Delivered(calls), closed);
    DrainStart(Delivered(calls), closed);
    assert calls[0..] == calls;
    while next < |calls| && calls[next] != Chunk([])
      invariant 0 <= next <= |calls|
      invariant Valid(pending, discarding) && |log| <= accepted
      invariant Fails(calls[next..]) == !closed
      invariant log + ToCome(pending, discarding, Delivered(calls[next..]), closed) == specified
    {
      DeliveredNext(calls, next);
      if calls[next].Failed? {
        DrainEnd(pending, discarding, closed);
        return;
      }
      var stopped;
      pending, discarding, log, stopped :=
        DrainBuffer(calls[next].bytes, pending, discarding, log, accepted, Delivered(calls[next + 1..]), closed);
      if stopped { return; }
      next := next + 1;
    }
    if next < |calls| { DeliveredNext(calls, next); } else { DeliveredEnd(); assert calls[next..] == []; }
    DrainEnd(pending, discarding, closed);
    if !discarding && pending != [] && |log| < accepted {
      log := log + [Line(pending)];
    }
  }

  /** However a stream is cut into nonempty chunks, draining the chunks logs the entries of its lines. */
  method DrainChunks(chunks: seq<seq<Byte>>, accepted: nat) returns (log: seq<Entry>)
    requires forall i | 0 <= i < |chunks| :: chunks[i] != []
    ensures var specified := Entries(Flatten(chunks), true);
      log == if |specified| <= accepted then specified else specified[..accepted]
  {
    hide Entries;
    DeliveredIsTheMessage(chunks);
    log := Drain(AsReads(chunks), accepted);
  }

  lemma DrainStart(stream: seq<Byte>, closed: bool)
    ensures [] + ToCome([], false, stream, closed) == Entries(stream, closed)
  {
    assert [] + stream == stream;
  }

  lemma DrainEnd(pending: seq<Byte>, discarding: bool, closed: bool)
    requires Valid(pending, discarding)
    ensures ToCome(pending, discarding, [], closed) == if closed && pending != [] then [Line(pending)] else []
  {
    assert pending + [] == pending;
    EntriesOfTail(pending, closed);
  }

  // What the entries put into the log file.

  /** The text of an entry. `decode` is the lossy decoding of a line's bytes. */
  function TextOf(entry: Entry, decode: seq<Byte> -> string): string {
    match entry
    case Line(bytes) => Redaction.Redact(decode(bytes))
    case Overlong => Redaction.PLACEHOLDER + "\n"
  }

  function LogText(entries: seq<Entry>, decode: seq<Byte> -> string): string {
    if entries == [] then "" else TextOf(entries[0], decode) + LogText(entries[1..], decode)
  }

  lemma EntryIsLanguage(entry: Entry, decode: seq<Byte> -> string) returns (lines: seq<string>)
    ensures TextOf(entry, decode) == Unlines(lines)
    ensures forall i | 0 <= i < |lines| :: Redaction.InLanguage(lines[i])
  {
    hide Redaction.RedactLines, Lines, Redaction.InLanguage;
    match entry
    case Line(bytes) =>
      lines := Redaction.RedactLines(Lines(decode(bytes)));
      Redaction.RedactLinesInLanguage(Lines(decode(bytes)));
    case Overlong =>
      lines := [Redaction.PLACEHOLDER];
      assert Unlines(lines) == Redaction.PLACEHOLDER + "\n" + Unlines(lines[1..]);
      PlaceholderInLanguage();
  }

  lemma PlaceholderInLanguage()
    ensures Redaction.InLanguage(Redaction.PLACEHOLDER)
  {
  }

  lemma {:induction false} LogIsLanguage(entries: seq<Entry>, decode: seq<Byte> -> string) returns (lines: seq<string>)
    ensures LogText(entries, decode) == Unlines(lines)
    ensures forall i | 0 <= i < |lines| :: Redaction.InLanguage(lines[i])
  {
    hide Redaction.InLanguage, TextOf;
    if entries == [] {
      lines := [];
    } else {
      var first := EntryIsLanguage(entries[0], decode);
      var rest := LogIsLanguage(entries[1..], decode);
      lines := first + rest;
      UnlinesAppend(first, rest);
    }
  }

  /** The whole log a drain writes is unchanged by redacting it again. */
  lemma LogIsStable(entries: seq<Entry>, decode: seq<Byte> -> string)
    ensures Redaction.Redact(LogText(entries, decode)) == LogText(entries, decode)
  {
    hide Redaction.InLanguage, Redaction.Redact;
    var lines := LogIsLanguage(entries, decode);
    Redaction.FixedPointsAreTheLanguage(LogText(entries, decode));
  }

  /** An entry writes nothing if and only if it is a line whose bytes decode to the empty text. With a
      decoding that empties no bytes, that is the line of length zero and no other. */
  lemma WritesNothingExactly(entry: Entry, decode: seq<Byte> -> string)
    ensures TextOf(entry, decode) == "" <==> entry.Line? && decode(entry.bytes) == ""
    ensures (forall bytes :: decode(bytes) == "" <==> bytes == []) ==>
      (TextOf(entry, decode) == "" <==> entry == Line([]))
  {
    hide Redaction.Redact;
    if entry.Line? { Redaction.RedactsToNothingExactly(decode(entry.bytes)); }
  }

  /** A line of a single carriage return, as an empty line ended by carriage return and line feed
      gives it, yields the placeholder. */
  lemma CarriageReturnYieldsPlaceholder(decode: seq<Byte> -> string)
    requires decode([13]) == "\r"
    ensures Entries([13, LINE_FEED], true) == [Line([13])]
    ensures LogText(Entries([13, LINE_FEED], true), decode) == Redaction.PLACEHOLDER + "\n"
  {
    hide Redaction.Redact;
    EntriesOfLine([13], [], true);
    assert [13] + [LINE_FEED] + [] == [13, LINE_FEED];
    EntriesOfTail([], true);
    Redaction.CarriageReturnIsRedacted();
  }
}

/** The size-bounded log file of a child stream: the live file, the numbered segments it is
    rotated into, and the byte accounting kept beside each of them. File operations succeed. */
module LogRotation {
  import opened Basics
  import opened Bytes

  /** File lengths are below this, so sums of two of them fit 64 bits. */
  const FILE_LIMIT: nat := 0x8000_0000_0000_0000

  /** The counters of a provenance record. */
  datatype Provenance = Provenance(captured: nat, stored: nat, truncated: nat, dropped: nat)

  function SaturatingAdd(x: nat, y: nat): nat { if x + y < U64_LIMIT then x + y else U64_LIMIT - 1 }

  /** What is kept of one append: its last bytes, at most as many as the file may hold. */
  function Kept(text: seq<Byte>, maxBytes: nat): seq<Byte> { text[|text| - Min(maxBytes, |text|)..] }

  const ZERO: Provenance := Provenance(0, 0, 0, 0)

  /** The counters after one append, without any saturation. */
  function Counted(p: Provenance, text: seq<Byte>, maxBytes: nat): Provenance {
    var keep := Min(maxBytes, |text|);
    Provenance(p.captured + |text|, p.stored + keep, p.truncated + (|text| - keep), p.dropped)
  }

  /** Accounting that agrees with the file beside it. */
  predicate Balanced(p: Provenance, file: seq<Byte>) {
    p.captured == p.stored + p.truncated + p.dropped && p.stored == |file| && p.captured < U64_LIMIT
  }

  lemma ZeroIsBalanced()
    ensures Balanced(ZERO, [])
  {
  }

  // Segments by number.

  type Segments = map<nat, seq<Byte>>

  ghost predicate Contiguous(segments: Segments) { forall k: nat :: k in segments <==> k < |segments| }

  /** Segments below a number, concatenated in number order. */
  function Concatenated(segments: Segments, n: nat): seq<Byte> {
    if n == 0 then []
    else Concatenated(segments, n - 1) + if n - 1 in segments then segments[n - 1] else []
  }

  ghost predicate IsFirstFree(segments: Segments, k: nat) {
    k !in segments && forall j: nat | j < k :: j in segments
  }

  lemma {:induction false} ConcatenatedAgrees(a: Segments, b: Segments, n: nat)
    requires forall k: nat | k < n :: k in a <==> k in b
    requires forall k: nat | k < n && k in a :: a[k] == b[k]
    ensures Concatenated(a, n) == Concatenated(b, n)
  {
    if n > 0 {
      ConcatenatedAgrees(a, b, n - 1);
    }
  }

  lemma FirstFreeIsFree(segments: Segments, k: nat)
    requires IsFirstFree(segments, k)
    ensures k !in segments
  {
  }

  lemma FirstFreeOfContiguous(segments: Segments, k: nat)
    requires IsFirstFree(segments, k) && Contiguous(segments)
    ensures k == |segments|
  {
    assert |segments| !in segments;
  }

  /** Rotating the live file into the next segment keeps contiguous segments contiguous and in order. */
  lemma RotationKeepsOrder(segments: Segments, live: seq<Byte>, k: nat)
    requires Contiguous(segments) && IsFirstFree(segments, k)
    ensures Contiguous(segments[k := live])
    ensures Concatenated(segments[k := live], |segments[k := live]|) == Concatenated(segments, |segments|) + live
  {
    FirstFreeOfContiguous(segments, k);
    ConcatenatedAgrees(segments, segments[k := live], k);
  }

  ghost function Below(n: nat): (r: set<nat>)
    ensures |r| == n && forall k: nat :: k in r <==> k < n
  {
    if n == 0 then {} else Below(n - 1) + {n - 1}
  }

  lemma FewerAbove(taken: set<nat>, n: nat)
    requires n in taken
    ensures |taken - Below(n + 1)| < |taken - Below(n)|
  {
    assert taken - Below(n + 1) == (taken - Below(n)) - {n};
  }

  /** The first free number comes after every segment exactly when the segments have no hole:
      a rotation into a hole files newer bytes before older ones. */
  lemma NewestIsLast(segments: Segments, k: nat)
    requires IsFirstFree(segments, k)
    ensures (forall j: nat | j in segments :: j < k) <==> Contiguous(segments)
  {
    if forall j: nat | j in segments :: j < k {
      assert segments.Keys == Below(k);
    }
  }

  /** Segments from one number up to another, concatenated in number order. */
  function Range(segments: Segments, lo: nat, hi: nat): seq<Byte>
    requires lo <= hi
  {
    if lo == hi then []
    else Range(segments, lo, hi - 1) + if hi - 1 in segments then segments[hi - 1] else []
  }

  lemma {:induction false} SplitAt(segments: Segments, k: nat, n: nat)
    requires k <= n
    ensures Concatenated(segments, n) == Concatenated(segments, k) + Range(segments, k, n)
  {
    if k < n {
      SplitAt(segments, k, n - 1);
      var last := if n - 1 in segments then segments[n - 1] else [];
      assert Concatenated(segments, k) + Range(segments, k, n - 1) + last ==
             Concatenated(segments, k) + (Range(segments, k, n - 1) + last);
    }
  }

  lemma {:induction false} RangeAgrees(a: Segments, b: Segments, lo: nat, hi: nat)
    requires lo <= hi
    requires forall k: nat | lo <= k < hi :: k in a <==> k in b
    requires forall k: nat | lo <= k < hi && k in a :: a[k] == b[k]
    ensures Range(a, lo, hi) == Range(b, lo, hi)
  {
    if lo < hi { RangeAgrees(a, b, lo, hi - 1); }
  }

  /** The rotated bytes land after every segment numbered below k and before every segment numbered
      above it. So the bytes stay in order exactly when the rotated ones commute with those above. */
  lemma RotatedBytesLand(segments: Segments, live: seq<Byte>, k: nat, n: nat)
    requires IsFirstFree(segments, k) && k < n
    ensures Concatenated(segments[k := live], n) == Concatenated(segments, k) + live + Range(segments, k + 1, n)
    ensures Concatenated(segments, n) == Concatenated(segments, k) + Range(segments, k + 1, n)
    ensures Concatenated(segments[k := live], n) == Concatenated(segments, n) + live
      <==> live + Range(segments, k + 1, n) == Range(segments, k + 1, n) + live
  {
    var rotated := segments[k := live];
    var below, above := Concatenated(segments, k), Range(segments, k + 1, n);
    SplitAt(segments, k + 1, n);
    SplitAt(rotated, k + 1, n);
    ConcatenatedAgrees(segments, rotated, k);
    RangeAgrees(segments, rotated, k + 1, n);
    assert below + [] == below;
    assert below + live + above == below + (live + above);
    assert below + above + live == below + (above + live);
    assert (below + (live + above))[|below|..] == live + above;
    assert (below + (above + live))[|below|..] == above + live;
  }

  // The segments a run of appends has added, in the order in which it added them.

  ghost predicate Grown(before: Segments, segments: Segments, order: seq<nat>) {
    && (forall k | k in before :: k in segments && segments[k] == before[k])
    && (forall k | k in segments :: k in before || k in order)
    && (forall k | k in order :: k in segments && k !in before)
    && Ascending(order)
    && (order != [] ==> forall j: nat | j <= order[|order| - 1] :: j in segments)
  }

  function Gathered(segments: Segments, order: seq<nat>): seq<Byte> {
    if order == [] then []
    else
      var last := order[|order| - 1];
      Gathered(segments, order[..|order| - 1]) + if last in segments then segments[last] else []
  }

  lemma {:induction false} GatheredAgrees(a: Segments, b: Segments, order: seq<nat>)
    requires forall k | k in order :: k in a && k in b && a[k] == b[k]
    ensures Gathered(a, order) == Gathered(b, order)
  {
    if order != [] { GatheredAgrees(a, b, order[..|order| - 1]); }
  }

  ghost predicate Ascending(order: seq<nat>) { forall i, j | 0 <= i < j < |order| :: order[i] < order[j] }

  lemma AscendingAppend(order: seq<nat>, k: nat)
    requires Ascending(order) && (order != [] ==> order[|order| - 1] < k)
    ensures Ascending(order + [k])
  {
    forall i, j | 0 <= i < j < |order + [k]| ensures (order + [k])[i] < (order + [k])[j] {
      assert i < |order| - 1 ==> order[i] < order[|order| - 1];
    }
  }

  lemma GrownStep(before: Segments, segments: Segments, order: seq<nat>, k: nat, live: seq<Byte>)
    requires Grown(before, segments, order) && IsFirstFree(segments, k)
    ensures Grown(before, segments[k := live], order + [k])
  {
    var order' := order + [k];
    AscendingAppend(order, k);
    hide Ascending;
    assert order'[|order'| - 1] == k;
    assert forall x :: x in order' <==> x in order || x == k;
  }

  lemma GatheredStep(before: Segments, segments: Segments, order: seq<nat>, k: nat, live: seq<Byte>)
    requires Grown(before, segments, order) && IsFirstFree(segments, k)
    ensures Gathered(segments[k := live], order + [k]) == Gathered(segments, order) + live
  {
    var order' := order + [k];
    assert order'[..|order|] == order && order'[|order'| - 1] == k;
    GatheredAgrees(segments, segments[k := live], order);
  }

  class LogFiles {
    const maxBytes: nat
    var live: seq<Byte>
    var liveMeta: Option<Provenance>
    var segments: Segments
    var segmentMeta: map<nat, Provenance>

    ghost predicate Valid()
      reads this
    {
      && 0 < maxBytes < FILE_LIMIT
      && |live| <= maxBytes
      && (liveMeta.Some? ==>
            && Balanced(liveMeta.value, live)
            && liveMeta.value.dropped == 0
            && (liveMeta.value.truncated > 0 ==> |live| == maxBytes))
      && (forall k | k in segmentMeta :: k in segments && Balanced(segmentMeta[k], segments[k]))
      && (forall k | k in segments :: |segments[k]| <= maxBytes)
    }

    /** The segments in order, then the live file. */
    ghost function Contents(): seq<Byte>
      reads this
    {
      Concatenated(segments, |segments|) + live
    }

    /** The live file and its accounting, as they were, are now segment k; no other segment changed. */
    ghost predicate RotatedInto(k: nat, segments0: Segments, meta0: map<nat, Provenance>,
                                live0: seq<Byte>, liveMeta0: Option<Provenance>)
      reads this
    {
      && segments == segments0[k := live0]
      && segmentMeta == if liveMeta0.Some? then meta0[k := liveMeta0.value] else meta0
    }

    /** A launch starts a new live file with zero counters; segments of earlier launches stay. */
    constructor (maxBytes: nat, segments: Segments)
      requires 0 < maxBytes < FILE_LIMIT
      requires forall k | k in segments :: |segments[k]| <= maxBytes
      ensures Valid() && this.maxBytes == maxBytes && this.segments == segments && live == []
      ensures liveMeta == Some(ZERO)
    {
      this.maxBytes := maxBytes;
      this.segments := segments;
      live, liveMeta, segmentMeta := [], Some(ZERO), map[];
    }

    /** The search for a segment number that is not taken. */
    method FreeSegment() returns (segment: nat)
      ensures IsFirstFree(segments, segment)
    {
      segment := 0;
      while segment in segments
        invariant forall j: nat | j < segment :: j in segments
        decreases |segments.Keys - Below(segment)|
      {
        FewerAbove(segments.Keys, segment);
        segment := segment + 1;
      }
    }

    method Rotate() returns (segment: nat)
      requires Valid()
      modifies this
      ensures Valid() && live == [] && liveMeta == (if old(liveMeta).Some? then Some(ZERO) else None)
      ensures IsFirstFree(old(segments), segment)
      ensures RotatedInto(segment, old(segments), old(segmentMeta), old(live), old(liveMeta))
      ensures old(Contiguous(segments)) ==> Contiguous(segments) && Contents() == old(Contents())
    {
      hide Concatenated, Contiguous, IsFirstFree, Balanced;
      ghost var segments0, live0 := segments, live;
      var rotated := liveMeta;
      segment := FreeSegment();
      FirstFreeIsFree(segments, segment);
      segments := segments[segment := live];
      if liveMeta.Some? {
        segmentMeta := segmentMeta[segment := liveMeta.value];
      }
      live := [];
      liveMeta := None;
      if rotated.Some? {
        liveMeta := Some(ZERO);
        ZeroIsBalanced();
      }
      if old(Contiguous(segments)) {
        RotationKeepsOrder(segments0, live0, segment);
        assert Concatenated(segments, |segments|) + [] == Concatenated(segments, |segments|);
      }
    }

    /** The write after any rotation, and `update_log_provenance`: no counter saturates. */
    method Write(text: seq<Byte>)
      requires Valid() && |text| < FILE_LIMIT
      requires |live| + |text| <= maxBytes || (live == [] && (liveMeta.Some? ==> liveMeta.value == ZERO))
      modifies this`live, this`liveMeta
      ensures Valid()
      ensures live == old(live) + Kept(text, maxBytes)
      ensures liveMeta == (if old(liveMeta).None? then None else Some(Counted(old(liveMeta).value, text, maxBytes)))
    {
      var keep := Min(maxBytes, |text|);
      live := live + text[|text| - keep..];
      if liveMeta.Some? {
        var p := liveMeta.value;
        liveMeta := Some(Provenance(SaturatingAdd(p.captured, |text|), SaturatingAdd(p.stored, keep),
                                    SaturatingAdd(p.truncated, |text| - keep), SaturatingAdd(p.dropped, 0)));
      }
    }

    /** `append_sanitized_log`: nothing is overwritten, the live file stays within its limit, the
        accounting stays balanced, and the kept bytes come last. */
    method Append(text: seq<Byte>) returns (ghost segment: nat)
      requires Valid() && |text| < FILE_LIMIT
      modifies this
      ensures Valid()
      ensures liveMeta.Some? == old(liveMeta).Some?
      ensures var rotates := |old(live)| + |text| > maxBytes;
        && (if rotates then
              && IsFirstFree(old(segments), segment)
              && RotatedInto(segment, old(segments), old(segmentMeta), old(live), old(liveMeta))
            else segments == old(segments) && segmentMeta == old(segmentMeta))
        && live == (if rotates then [] else old(live)) + Kept(text, maxBytes)
        && (liveMeta.Some? ==>
              liveMeta.value == Counted(if rotates then ZERO else old(liveMeta).value, text, maxBytes))
      ensures old(Contiguous(segments)) ==>
                Contiguous(segments) && Contents() == old(Contents()) + Kept(text, maxBytes)
    {
      hide Concatenated, Contiguous, IsFirstFree, Balanced, Kept, Counted;
      segment := 0;
      if SaturatingAdd(|live|, |text|) > maxBytes {
        segment := Rotate();
      }
      ghost var held := Contents();
      Write(text);
      assert Contents() == held + Kept(text, maxBytes);
    }

    /** One append of a run that has added the segments in `order`. */
    method AppendNext(text: seq<Byte>, ghost before: Segments, ghost order0: seq<nat>) returns (ghost order: seq<nat>)
      requires Valid() && |text| < FILE_LIMIT && Grown(before, segments, order0)
      modifies this
      ensures Valid() && Grown(before, segments, order)
      ensures Gathered(segments, order) + live == old(Gathered(segments, order0) + live) + Kept(text, maxBytes)
      ensures old(Contiguous(segments)) ==>
                Contiguous(segments) && Contents() == old(Contents()) + Kept(text, maxBytes)
    {
      hide Kept, Contiguous, Balanced, Contents, Grown, Gathered, IsFirstFree;
      ghost var segments0, live0 := segments, live;
      ghost var rotates := |live| + |text| > maxBytes;
      ghost var k := Append(text);
      order := order0;
      if rotates {
        GrownStep(before, segments0, order0, k, live0);
        GatheredStep(before, segments0, order0, k, live0);
        order := order0 + [k];
        assert [] + Kept(text, maxBytes) == Kept(text, maxBytes);
      } else {
        assert Gathered(segments0, order0) + (live0 + Kept(text, maxBytes)) ==
               Gathered(segments0, order0) + live0 + Kept(text, maxBytes);
      }
    }

    /** A whole run of appends, in any directory: earlier segments stay as they are, and the new ones,
        numbered in ascending order, hold with the live file exactly the kept bytes in order. Without
        a hole the same is true of all segments together. */
    method AppendAll(texts: seq<seq<Byte>>) returns (ghost order: seq<nat>)
      requires Valid()
      requires forall i | 0 <= i < |texts| :: |texts[i]| < FILE_LIMIT
      modifies this
      ensures Valid() && Grown(old(segments), segments, order)
      ensures Gathered(segments, order) + live == old(live) + AllKept(texts, maxBytes)
      ensures old(Contiguous(segments)) ==>
                Contiguous(segments) && Contents() == old(Contents()) + AllKept(texts, maxBytes)
    {
      order := [];
      AllKeptNone(maxBytes);
      assert texts[..0] == [] && Gathered(segments, []) == [];
      assert [] + live == live + [] && Contents() + [] == Contents();
      hide AllKept, Kept, Contiguous, Balanced, Contents, Grown, Gathered, Valid;
      for next := 0 to |texts|
        invariant Valid() && Grown(old(segments), segments, order)
        invariant Gathered(segments, order) + live == old(live) + AllKept(texts[..next], maxBytes)
        invariant old(Contiguous(segments)) ==>
                    Contiguous(segments) && Contents() == old(Contents()) + AllKept(texts[..next], maxBytes)
      {
        AllKeptNext(old(live), texts, next, maxBytes);
        AllKeptNext(old(Contents()), texts, next, maxBytes);
        order := AppendNext(texts[next], old(segments), order);
      }
      assert texts[..|texts|] == texts;
    }
  }

  /** A directory whose first segment was deleted: the bytes written second come first. */
  method HoleMisorders() returns (files: LogFiles)
    ensures fresh(files) && files.Valid()
    ensures files.segments == map[0 := [2], 1 := [1]] && files.live == [3]
    ensures Concatenated(files.segments, 2) + files.live == [2, 1, 3]
  {
    hide Concatenated, Contiguous, Balanced, Counted, Kept, IsFirstFree;
    var hole: Segments := map[1 := [1]];
    files := new LogFiles(1, hole);
    KeptOne(2);
    KeptOne(3);
    hide LogFiles.Valid, LogFiles.Contents;
    var _ := files.Append([2]);
    assert [] + [2] == [2];
    ghost var k := files.Append([3]);
    HoleIsFirstFree(hole, k);
    assert [] + [3] == [3] && hole[0 := [2]] == map[0 := [2], 1 := [1]];
    TwoSegments([2], [1]);
  }

  lemma KeptOne(x: Byte)
    ensures Kept([x], 1) == [x]
  {
  }

  lemma HoleIsFirstFree(segments: Segments, k: nat)
    requires 0 !in segments && IsFirstFree(segments, k)
    ensures k == 0
  {
  }

  lemma TwoSegments(a: seq<Byte>, b: seq<Byte>)
    ensures Concatenated(map[0 := a, 1 := b], 2) == a + b
  {
    var segments: Segments := map[0 := a, 1 := b];
    assert Concatenated(segments, 1) == Concatenated(segments, 0) + a;
    assert [] + a == a;
  }

  function AllKept(texts: seq<seq<Byte>>, maxBytes: nat): seq<Byte> {
    if texts == [] then [] else Kept(texts[0], maxBytes) + AllKept(texts[1..], maxBytes)
  }

  lemma AllKeptNone(maxBytes: nat)
    ensures AllKept([], maxBytes) == []
  {
  }

  lemma AllKeptNext(start: seq<Byte>, texts: seq<seq<Byte>>, next: nat, maxBytes: nat)
    requires next < |texts|
    ensures start + AllKept(texts[..next + 1], maxBytes) ==
            start + AllKept(texts[..next], maxBytes) + Kept(texts[next], maxBytes)
  {
    AllKeptLast(texts[..next], texts[next], maxBytes);
    assert texts[..next + 1] == texts[..next] + [texts[next]];
  }

  lemma {:induction false} AllKeptLast(texts: seq<seq<Byte>>, text: seq<Byte>, maxBytes: nat)
    ensures AllKept(texts + [text], maxBytes) == AllKept(texts, maxBytes) + Kept(text, maxBytes)
  {
    if texts == [] {
      assert texts + [text] == [text];
      AllKeptNone(maxBytes);
    } else {
      assert (texts + [text])[1..] == texts[1..] + [text];
      AllKeptLast(texts[1..], text, maxBytes);
    }
  }
}

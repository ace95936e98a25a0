/**
 The segmented journal of one pane: append-only segment files named by the
 absolute offset of their first byte, a bounded total size, and a count of
 bytes that reached nobody's disk.

 Every step that can fail on a real disk takes its outcome from a `Faults`
 value, so each method is proved for every way its input and output can go.
 */
module Journals {
  import opened Basics

  const MIN_SEGMENT_BYTES: nat := 4096
  const SYNC_BYTES: nat := 1024 * 1024
  const READ_ALL_CHUNK: nat := 1024 * 1024

  datatype JournalBounds = JournalBounds(maxBytes: nat, segmentBytes: nat) {
    /** Bounds a journal can always keep: a segment fits inside the total. They are the
        least such bounds above those asked for. */
    function Normalized(): (b: JournalBounds)
      ensures b.IsNormal()
      ensures maxBytes <= b.maxBytes && segmentBytes <= b.segmentBytes
      ensures forall c: JournalBounds :: c.IsNormal() && maxBytes <= c.maxBytes && segmentBytes <= c.segmentBytes ==>
                b.maxBytes <= c.maxBytes && b.segmentBytes <= c.segmentBytes
      ensures IsNormal() ==> b == this
    {
      var segment := Max(segmentBytes, MIN_SEGMENT_BYTES);
      JournalBounds(Max(maxBytes, segment), segment)
    }

    predicate IsNormal() {
      MIN_SEGMENT_BYTES <= segmentBytes <= maxBytes
    }
  }

  datatype Segment = Segment(start: nat, len: nat) {
    function End(): nat { start + len }
  }

  datatype Chunk = Chunk(at: nat, data: seq<Byte>)

  /** What the disk does to one `Append`: which of its steps fail. */
  datatype Faults = Faults(
    rotateSync: bool,      // the sync before a rotation fails
    open: bool,            // opening the next segment fails
    write: Option<nat>,    // the write fails after at most this many bytes
    unlink: set<nat>,      // starts of the segments whose removal fails
    interval: bool,        // the sync interval has elapsed
    sync: bool)            // the closing sync fails

  type Files = map<nat, seq<Byte>>
  type Stream = map<nat, Byte>

  // ----- what a directory and an index of it must satisfy

  /** `data` is what the stream holds from offset `at` on. */
  ghost predicate Matches(stream: Stream, at: nat, data: seq<Byte>) {
    forall o: nat :: at <= o < at + |data| ==> o in stream && stream[o] == data[o - at]
  }

  /** File byte `j` of segment `k` is stream byte `k + j`, and files never overlap. */
  ghost predicate LaidOut(files: Files, written: Stream) {
    && (forall k :: k in files ==> Matches(written, k, files[k]))
    && (forall k, l :: k in files && l in files && k < l ==> k + |files[k]| <= l)
  }

  ghost predicate IsLast(files: Files, k: nat) {
    k in files && forall l :: l in files ==> l <= k
  }

  /** No byte was ever written past the end of the last file, so a journal
      current on these files cannot hand an offset out twice. */
  ghost predicate Reopenable(files: Files, written: Stream) {
    && LaidOut(files, written)
    && (files == map[] ==> written == map[])
    && (forall k, o :: k in files && IsLast(files, k) && o in written ==> o < k + |files[k]|)
  }

  /** Segments in stream order: starts strictly increase and nothing overlaps. */
  ghost predicate InOrder(segments: seq<Segment>) {
    forall i, j :: 0 <= i < j < |segments| ==>
      segments[i].End() <= segments[j].start && segments[i].start < segments[j].start
  }

  ghost predicate Indexes(segments: seq<Segment>, files: Files) {
    && InOrder(segments)
    && (forall i :: 0 <= i < |segments| ==> segments[i].start in files && segments[i].len <= |files[segments[i].start]|)
    && (segments == [] ==> files == map[])
    && (segments != [] ==> IsLast(files, segments[|segments| - 1].start))
  }

  function EndOf(segments: seq<Segment>, lost: nat): nat {
    (if segments == [] then 0 else segments[|segments| - 1].End()) + lost
  }

  /** The journal's invariant. `owed` bounds the bytes of a failed append the
      caller has yet to note as lost: a torn tail lies within them. */
  ghost predicate Sound(segments: seq<Segment>, files: Files, written: Stream, lost: nat, owed: nat) {
    && Indexes(segments, files) && Reopenable(files, written)
    && (segments != [] ==>
          var last := segments[|segments| - 1];
          && |files[last.start]| <= last.len + lost + owed
          && (lost + owed == 0 ==> |files[last.start]| == last.len))
  }

  /** Some segment holds the byte of offset `o`. */
  ghost predicate Held(segments: seq<Segment>, o: nat) {
    exists i :: 0 <= i < |segments| && segments[i].start <= o < segments[i].End()
  }

  /** The sparse map an index stands for: offset to readable byte. */
  ghost function HeldMap(segments: seq<Segment>, written: Stream): (m: Stream) {
    map o | o in written && Held(segments, o) :: written[o]
  }

  /** What is left of a sparse stream once everything below `horizon` is evicted. */
  function From(stream: Stream, horizon: nat): Stream {
    map o | o in stream && horizon <= o :: stream[o]
  }

  /** The bytes of a sparse stream in offset order, gaps skipped. */
  ghost function Listing(stream: Stream, lo: nat, hi: nat): (data: seq<Byte>)
    decreases hi - lo
  {
    if hi <= lo then []
    else (if lo in stream then [stream[lo]] else []) + Listing(stream, lo + 1, hi)
  }

  function Total(segments: seq<Segment>): (bytes: nat) {
    if segments == [] then 0 else segments[0].len + Total(segments[1..])
  }

  lemma TotalOfOne(segments: seq<Segment>)
    ensures |segments| == 1 ==> Total(segments) == segments[0].len
  {
    if |segments| == 1 {
      assert segments[1..] == [];
    }
  }

  /** An append goes to a new segment: bytes were lost, or the open one is full or missing. */
  predicate RotationDue(segments: seq<Segment>, lost: nat, segmentBytes: nat) {
    lost > 0 || segments == [] || segments[|segments| - 1].len >= segmentBytes
  }

  /** The segments with one to append to. */
  function Opened(segments: seq<Segment>, lost: nat, segmentBytes: nat): (opened': seq<Segment>)
    ensures opened' != []
  {
    if RotationDue(segments, lost, segmentBytes) then segments + [Segment(EndOf(segments, lost), 0)] else segments
  }

  lemma EndOfOpen(segments: seq<Segment>)
    requires segments != []
    ensures EndOf(segments, 0) == segments[|segments| - 1].End()
  {
  }

  lemma OpenedIs(segments: seq<Segment>, lost: nat, segmentBytes: nat)
    ensures var due := lost > 0 || segments == [] || segments[|segments| - 1].len >= segmentBytes;
            Opened(segments, lost, segmentBytes) == if due then segments + [Segment(EndOf(segments, lost), 0)] else segments
  {
  }

  /** `left` is `segments` without the first `gone`, each of which was dropped because what
      there was with it exceeded the bound. */
  ghost predicate DroppedOver(segments: seq<Segment>, gone: nat, maxBytes: nat, left: seq<Segment>) {
    && gone < |segments| && left == segments[gone..]
    && forall i :: 0 <= i < gone ==> Total(segments[i..]) > maxBytes
  }

  lemma {:induction false} TotalAppended(segments: seq<Segment>, last: Segment)
    ensures Total(segments + [last]) == Total(segments) + last.len
  {
    if segments == [] {
      TotalOfOne([last]);
      assert [] + [last] == [last];
    } else {
      assert (segments + [last])[1..] == segments[1..] + [last];
      TotalAppended(segments[1..], last);
    }
  }

  lemma TotalGrown(segments: seq<Segment>, bytes: nat)
    requires segments != []
    ensures Total(Grown(segments, bytes)) == Total(segments) + bytes
  {
    var n := |segments| - 1;
    var last := segments[n];
    assert segments == segments[..n] + [last];
    assert Grown(segments, bytes) == segments[..n] + [Segment(last.start, last.len + bytes)];
    TotalAppended(segments[..n], last);
    TotalAppended(segments[..n], Segment(last.start, last.len + bytes));
  }

  /** Within the bound nothing is dropped; of what is, no more than the bound asks for. */
  lemma DroppedIffOver(segments: seq<Segment>, gone: nat, maxBytes: nat, left: seq<Segment>)
    requires DroppedOver(segments, gone, maxBytes, left)
    ensures Total(segments) <= maxBytes ==> gone == 0 && left == segments
    ensures gone > 0 ==> segments[gone - 1].len + Total(left) > maxBytes
  {
    if gone > 0 {
      assert segments[0..] == segments;
      assert Total(segments[gone - 1..]) > maxBytes && segments[gone - 1..][1..] == left;
    }
  }

  // ----- each disk step keeps the invariant

  lemma WrittenBelowEnd(segments: seq<Segment>, files: Files, written: Stream, lost: nat, owed: nat)
    requires Sound(segments, files, written, lost, owed)
    ensures forall o :: o in written ==> o < EndOf(segments, lost) + owed
  {
    if segments != [] {
      assert IsLast(files, segments[|segments| - 1].start);
    }
  }

  lemma SoundInOrder(segments: seq<Segment>, files: Files, written: Stream, lost: nat, owed: nat)
    requires Sound(segments, files, written, lost, owed)
    ensures InOrder(segments)
  {
  }

  lemma OwesMore(segments: seq<Segment>, files: Files, written: Stream, lost: nat, owed: nat)
    requires Sound(segments, files, written, lost, 0)
    ensures Sound(segments, files, written, lost, owed)
  {
  }

  lemma FileOfSegment(segments: seq<Segment>, files: Files, written: Stream, lost: nat, owed: nat, i: nat)
    requires Sound(segments, files, written, lost, owed) && i < |segments|
    ensures var s := segments[i];
            && s.start in files && s.len <= |files[s.start]|
            && Matches(written, s.start, files[s.start])
            && s.End() <= EndOf(segments, lost)
  {
    assert i < |segments| - 1 ==> segments[i].End() <= segments[|segments| - 1].start;
  }

  lemma HeldIsWritten(segments: seq<Segment>, files: Files, written: Stream, lost: nat, owed: nat)
    requires Sound(segments, files, written, lost, owed)
    ensures forall o: nat :: Held(segments, o) ==> o in written && o < EndOf(segments, lost)
  {
    hide Sound, EndOf;
    forall o: nat | Held(segments, o) ensures o in written && o < EndOf(segments, lost) {
      var i :| 0 <= i < |segments| && segments[i].start <= o < segments[i].End();
      FileOfSegment(segments, files, written, lost, owed, i);
    }
  }

  lemma FilesBelowEnd(segments: seq<Segment>, files: Files, written: Stream, lost: nat)
    requires Sound(segments, files, written, lost, 0)
    requires segments == [] || lost > 0 || segments[|segments| - 1].len > 0
    ensures var end := EndOf(segments, lost); forall k :: k in files ==> k < end && k + |files[k]| <= end
  {
    if segments != [] {
      var last := segments[|segments| - 1];
      assert IsLast(files, last.start);
      forall k | k in files && k != last.start ensures k + |files[k]| <= last.start {
      }
    }
  }

  lemma RotateReopenable(files: Files, written: Stream, end: nat)
    requires Reopenable(files, written)
    requires forall k :: k in files ==> k < end && k + |files[k]| <= end
    requires forall o :: o in written ==> o < end
    ensures end !in files && Reopenable(files[end := []], written) && IsLast(files[end := []], end)
  {
    var files' := files[end := []];
    assert end in files';
    forall k | k in files' ensures Matches(written, k, files'[k]) {
      assert k != end ==> Matches(written, k, files[k]);
    }
  }

  lemma RotateIndexes(segments: seq<Segment>, files: Files, end: nat)
    requires Indexes(segments, files) && end !in files && IsLast(files[end := []], end)
    requires forall k :: k in files ==> k < end && k + |files[k]| <= end
    ensures Indexes(segments + [Segment(end, 0)], files[end := []])
  {
  }

  lemma RotateKeeps(segments: seq<Segment>, files: Files, written: Stream, lost: nat)
    requires Sound(segments, files, written, lost, 0)
    requires segments == [] || lost > 0 || segments[|segments| - 1].len > 0
    ensures var end := EndOf(segments, lost);
            end !in files && Sound(segments + [Segment(end, 0)], files[end := []], written, 0, 0)
  {
    hide Indexes, Reopenable;
    var end := EndOf(segments, lost);
    FilesBelowEnd(segments, files, written, lost);
    WrittenBelowEnd(segments, files, written, lost, 0);
    RotateReopenable(files, written, end);
    RotateIndexes(segments, files, end);
  }

  lemma HeldAfterRotate(segments: seq<Segment>, end: nat, o: nat)
    ensures Held(segments + [Segment(end, 0)], o) <==> Held(segments, o)
  {
    if Held(segments, o) {
      var i :| 0 <= i < |segments| && segments[i].start <= o < segments[i].End();
      assert (segments + [Segment(end, 0)])[i] == segments[i];
    }
  }

  /** The files left when the oldest segment's is removed, or could not be. */
  function Unlinked(files: Files, start: nat, unlinked: bool): Files {
    if unlinked then files - {start} else files
  }

  lemma EvictIndexes(segments: seq<Segment>, files: Files, unlinked: bool)
    requires Indexes(segments, files) && |segments| > 1
    ensures Indexes(segments[1..], Unlinked(files, segments[0].start, unlinked))
  {
    var rest := segments[1..];
    assert segments[0].start < segments[|segments| - 1].start;
    assert rest[|rest| - 1] == segments[|segments| - 1];
  }

  lemma EvictReopenable(files: Files, written: Stream, start: nat, last: nat, unlinked: bool)
    requires Reopenable(files, written) && IsLast(files, last) && start < last
    ensures Reopenable(Unlinked(files, start, unlinked), written) && IsLast(Unlinked(files, start, unlinked), last)
  {
    hide Matches;
    var files' := Unlinked(files, start, unlinked);
    assert last in files';
    forall k, o | k in files' && IsLast(files', k) && o in written ensures o < k + |files'[k]| {
      assert k == last;
    }
  }

  lemma EvictKeeps(segments: seq<Segment>, files: Files, written: Stream, unlinked: bool)
    requires Sound(segments, files, written, 0, 0) && |segments| > 1
    ensures Sound(segments[1..], Unlinked(files, segments[0].start, unlinked), written, 0, 0)
  {
    hide Reopenable, Matches, Unlinked;
    var last := segments[|segments| - 1];
    assert segments[0].start < last.start;
    EvictIndexes(segments, files, unlinked);
    EvictReopenable(files, written, segments[0].start, last.start, unlinked);
    LastFileStays(files, segments[0].start, last.start, unlinked);
    assert segments[1..][|segments| - 2] == last;
  }

  lemma LastFileStays(files: Files, start: nat, last: nat, unlinked: bool)
    requires last in files && start != last
    ensures last in Unlinked(files, start, unlinked) && Unlinked(files, start, unlinked)[last] == files[last]
  {
  }

  lemma HeldAfterEvict(segments: seq<Segment>, gone: nat, o: nat)
    requires InOrder(segments) && gone < |segments|
    ensures Held(segments[gone..], o) <==> Held(segments, o) && segments[gone].start <= o
  {
    if Held(segments[gone..], o) {
      var i :| 0 <= i < |segments[gone..]| && segments[gone..][i].start <= o < segments[gone..][i].End();
      assert segments[gone + i].start <= o < segments[gone + i].End();
    }
    if Held(segments, o) && segments[gone].start <= o {
      var i :| 0 <= i < |segments| && segments[i].start <= o < segments[i].End();
      assert gone <= i;
      assert segments[gone..][i - gone] == segments[i];
    }
  }

  lemma WriteLaysOut(files: Files, written: Stream, k: nat, data: seq<Byte>)
    requires LaidOut(files, written) && IsLast(files, k)
    requires forall o :: o in written ==> o < k + |files[k]|
    ensures LaidOut(files[k := files[k] + data], written + Placed(k + |files[k]|, data))
  {
    var files' := files[k := files[k] + data];
    var written' := written + Placed(k + |files[k]|, data);
    forall l | l in files' ensures Matches(written', l, files'[l]) {
      assert Matches(written, l, files[l]);
    }
  }

  lemma WriteReopenable(files: Files, written: Stream, k: nat, data: seq<Byte>)
    requires Reopenable(files, written) && IsLast(files, k)
    ensures Reopenable(files[k := files[k] + data], written + Placed(k + |files[k]|, data))
  {
    hide LaidOut, Matches;
    var files' := files[k := files[k] + data];
    var written' := written + Placed(k + |files[k]|, data);
    WriteLaysOut(files, written, k, data);
    forall l, o | l in files' && IsLast(files', l) && o in written' ensures o < l + |files'[l]| {
      assert l in files && k in files';
      assert l == k;
    }
    assert files' != map[] by { assert k in files'; }
  }

  function Grown(segments: seq<Segment>, bytes: nat): seq<Segment>
    requires segments != []
  {
    var last := segments[|segments| - 1];
    segments[|segments| - 1 := Segment(last.start, last.len + bytes)]
  }

  lemma GrownByNone(segments: seq<Segment>)
    requires segments != []
    ensures Grown(segments, 0) == segments
  {
  }

  lemma GrownAtLast(segments: seq<Segment>, bytes: nat)
    requires segments != []
    ensures var n := |segments| - 1;
            && Grown(segments, bytes) == segments[n := Segment(segments[n].start, segments[n].len + bytes)]
            && |Grown(segments, bytes)| == |segments| && Grown(segments, bytes)[n].start == segments[n].start
  {
  }

  lemma GrownIndexes(segments: seq<Segment>, files: Files, data: seq<Byte>, counted: nat)
    requires Indexes(segments, files) && segments != []
    requires var last := segments[|segments| - 1]; |files[last.start]| == last.len && counted <= |data|
    ensures var k := segments[|segments| - 1].start; Indexes(Grown(segments, counted), files[k := files[k] + data])
  {
    var k := segments[|segments| - 1].start;
    var files' := files[k := files[k] + data];
    var grown := Grown(segments, counted);
    assert InOrder(grown);
    assert IsLast(files', k) && grown[|grown| - 1].start == k;
    forall i | 0 <= i < |grown| ensures grown[i].start in files' && grown[i].len <= |files'[grown[i].start]| {
      assert i < |segments| - 1 ==> segments[i].start < k;
    }
  }

  lemma TailSound(segments: seq<Segment>, files: Files, written: Stream, owed: nat)
    requires Indexes(segments, files) && Reopenable(files, written) && segments != []
    requires var last := segments[|segments| - 1]; last.len <= |files[last.start]| <= last.len + owed
    ensures Sound(segments, files, written, 0, owed)
  {
  }

  /** A write of `data` to the open file, indexed up to `counted` bytes of it. */
  lemma WriteKeeps(segments: seq<Segment>, files: Files, written: Stream, data: seq<Byte>, counted: nat, owed: nat)
    requires Sound(segments, files, written, 0, 0) && segments != []
    requires counted <= |data| <= counted + owed && (owed == 0 ==> counted == |data|)
    ensures var last := segments[|segments| - 1];
            && last.start in files
            && Sound(Grown(segments, counted), files[last.start := files[last.start] + data],
                     written + Placed(last.End(), data), 0, owed)
  {
    hide Placed, Grown, Reopenable;
    GrownAtLast(segments, counted);
    var last := segments[|segments| - 1];
    WriteReopenable(files, written, last.start, data);
    GrownIndexes(segments, files, data, counted);
    TailSound(Grown(segments, counted), files[last.start := files[last.start] + data], written + Placed(last.End(), data), owed);
  }

  lemma HeldAfterWrite(segments: seq<Segment>, bytes: nat, o: nat)
    requires segments != []
    ensures var last := segments[|segments| - 1];
            Held(Grown(segments, bytes), o) <==> Held(segments, o) || last.End() <= o < last.End() + bytes
  {
    var n := |segments| - 1;
    var last := segments[n];
    var after := Grown(segments, bytes);
    if Held(segments, o) {
      var i :| 0 <= i < |segments| && segments[i].start <= o < segments[i].End();
      assert after[i].start <= o < after[i].End();
    }
    if last.End() <= o < last.End() + bytes {
      assert after[n].start <= o < after[n].End();
    }
    if Held(after, o) {
      var i :| 0 <= i < |after| && after[i].start <= o < after[i].End();
      assert i < n ==> segments[i] == after[i];
      if i == n && o < last.End() {
        assert segments[n].start <= o < segments[n].End();
      }
    }
  }

  /** The index a journal starts from: every file whole, in stream order. */
  lemma FoundIsSound(found: seq<Segment>, files: Files, written: Stream)
    requires Reopenable(files, written) && FoundSoFar(found, files, {})
    ensures Sound(found, files, written, 0, 0)
  {
    assert InOrder(found);
    assert found == [] ==> files.Keys == {} by {
      assert forall k :: k in files ==> StartsOne(found, k);
    }
    if found != [] {
      var last := found[|found| - 1].start;
      forall k | k in files ensures k <= last {
        assert StartsOne(found, k);
      }
    }
  }

  lemma HeldAfterAppend(segments: seq<Segment>, bytes: nat, gone: nat)
    requires gone < |segments| && InOrder(Grown(segments, bytes))
    ensures var left := Grown(segments, bytes)[gone..];
            var end := segments[|segments| - 1].End();
            forall o: nat :: Held(left, o) <==> left[0].start <= o && (Held(segments, o) || end <= o < end + bytes)
  {
    var left := Grown(segments, bytes)[gone..];
    var end := segments[|segments| - 1].End();
    forall o: nat ensures Held(left, o) <==> left[0].start <= o && (Held(segments, o) || end <= o < end + bytes) {
      HeldAfterWrite(segments, bytes, o);
      HeldAfterEvict(Grown(segments, bytes), gone, o);
    }
  }

  /** Whatever the index holds is readable, and the rest of the stream is not. */
  lemma HeldMapAfter(before: seq<Segment>, written: Stream, left: seq<Segment>, end: nat, bytes: seq<Byte>, horizon: nat)
    requires forall o: nat :: Held(before, o) ==> o in written && o < end
    requires forall o: nat :: Held(left, o) <==> horizon <= o && (Held(before, o) || end <= o < end + |bytes|)
    ensures HeldMap(left, written + Placed(end, bytes)) == From(HeldMap(before, written) + Placed(end, bytes), horizon)
  {
  }

  lemma NothingPlaced(stream: Stream, at: nat, bytes: seq<Byte>)
    ensures stream + Placed(at, bytes[..0]) == stream && bytes[..|bytes|] == bytes
  {
  }

  /** An append in index terms: write to the open segment, evict a prefix. */
  lemma HeldMapAfterAppend(segments: seq<Segment>, files: Files, written: Stream, bytes: seq<Byte>,
                           files': Files, written': Stream, gone: nat)
    requires Sound(segments, files, written, 0, 0)
    requires gone < |segments| && Sound(Grown(segments, |bytes|), files', written', 0, 0)
    ensures var left := Grown(segments, |bytes|)[gone..];
            var end := EndOf(segments, 0);
            HeldMap(left, written + Placed(end, bytes)) == From(HeldMap(segments, written) + Placed(end, bytes), left[0].start)
  {
    hide Sound, HeldMap, From, InOrder, Held;
    SoundInOrder(Grown(segments, |bytes|), files', written', 0, 0);
    HeldIsWritten(segments, files, written, 0, 0);
    HeldAfterAppend(segments, |bytes|, gone);
    HeldMapAfter(segments, written, Grown(segments, |bytes|)[gone..], EndOf(segments, 0), bytes,
                 Grown(segments, |bytes|)[gone..][0].start);
  }

  lemma HeldMapUnwritten(segments: seq<Segment>, files: Files, written: Stream, bytes: seq<Byte>)
    requires Sound(segments, files, written, 0, 0)
    ensures HeldMap(segments, written + Placed(EndOf(segments, 0), bytes)) == HeldMap(segments, written)
  {
    HeldIsWritten(segments, files, written, 0, 0);
  }

  lemma HeldMapAfterRotate(segments: seq<Segment>, written: Stream, end: nat)
    ensures HeldMap(segments + [Segment(end, 0)], written) == HeldMap(segments, written)
  {
    forall o: nat ensures Held(segments + [Segment(end, 0)], o) <==> Held(segments, o) {
      HeldAfterRotate(segments, end, o);
    }
  }

  /** The segments of all files but those that start in `rest`, which come later. */
  ghost predicate FoundSoFar(found: seq<Segment>, files: Files, rest: set<nat>) {
    && (forall i :: 0 <= i < |found| ==> found[i].start in files && found[i].len == |files[found[i].start]|)
    && (forall i, k :: 0 <= i < |found| && k in rest ==> found[i].start < k)
    && (forall i, j :: 0 <= i < j < |found| ==> found[i].start < found[j].start)
    && (forall k :: k in files && k !in rest ==> StartsOne(found, k))
  }

  ghost predicate StartsOne(found: seq<Segment>, k: nat) {
    exists i :: 0 <= i < |found| && found[i].start == k
  }

  /** Every file, and nothing else, is a segment, as long as the file. */
  ghost predicate WholeFiles(segments: seq<Segment>, files: Files) {
    && (forall k :: k in files <==> StartsOne(segments, k))
    && (forall i :: 0 <= i < |segments| ==> segments[i].start in files && segments[i].len == |files[segments[i].start]|)
  }

  lemma FoundWhole(found: seq<Segment>, files: Files)
    requires FoundSoFar(found, files, {})
    ensures WholeFiles(found, files) && (found == [] <==> files == map[])
  {
    assert forall k :: k in files ==> StartsOne(found, k);
    if found == [] {
      assert files.Keys == {};
    } else {
      assert found[0].start in files;
    }
  }

  lemma FoundNothing(files: Files)
    ensures FoundSoFar([], files, files.Keys)
  {
  }

  lemma FoundNext(found: seq<Segment>, files: Files, rest: set<nat>, least: nat)
    requires FoundSoFar(found, files, rest) && least in rest && rest <= files.Keys && forall k :: k in rest ==> least <= k
    ensures FoundSoFar(found + [Segment(least, |files[least]|)], files, rest - {least})
  {
    var more := found + [Segment(least, |files[least]|)];
    assert more[|found|].start == least;
    forall k | k in files && k !in rest ensures StartsOne(more, k) {
      assert StartsOne(found, k);
      var i :| 0 <= i < |found| && found[i].start == k;
      assert more[i].start == k;
    }
  }

  ghost predicate EndsOne(segments: seq<Segment>, end: nat) {
    exists i :: 0 <= i < |segments| && segments[i].End() == end
  }

  /** The directory of segment files. `written` is history: every byte any
      journal on this directory ever wrote, by its absolute offset. */
  class Directory {
    var files: Files
    ghost var written: Stream

    constructor ()
      ensures files == map[] && written == map[] && Reopenable(files, written)
    {
      files, written := map[], map[];
    }
  }

  class Journal {
    const dir: Directory
    const bounds: JournalBounds
    var segments: seq<Segment>
    var file: Option<nat>
    var lost: nat
    var unsynced: nat
    ghost var dirty: nat   // bytes written to the open file since it was last synced

    function Start(): nat
      reads this
    {
      if segments == [] then 0 else segments[0].start
    }

    function End(): nat
      reads this
    {
      EndOf(segments, lost)
    }

    /** Valid but for the `owed` bytes of a failed append, still to be noted as lost. */
    ghost predicate Owing(owed: nat)
      reads this, dir
    {
      && Sound(segments, dir.files, dir.written, lost, owed) && bounds.IsNormal()
      && file == (if segments == [] then None else Some(segments[|segments| - 1].start))
      // A torn write is not counted; the rotation it leads to syncs it.
      && (file.None? ==> dirty == 0) && (lost + owed == 0 ==> dirty <= unsynced)
    }

    ghost predicate Valid()
      reads this, dir
    {
      Owing(0)
    }

    ghost function Retained(): (m: Stream)
      reads this, dir
    {
      HeldMap(segments, dir.written)
    }

    /** Opens a directory: every file is a segment as long as the file is. The listing can
        fail, and so can opening the last file to append to it. */
    static method Open(dir: Directory, bounds: JournalBounds, listFails: bool, openFails: bool) returns (journal: Option<Journal>)
      requires Reopenable(dir.files, dir.written)
      ensures journal.None? <==> listFails || (openFails && dir.files != map[])
      ensures journal.Some? ==> fresh(journal.value) && journal.value.dir == dir && journal.value.bounds == bounds.Normalized()
      ensures journal.Some? ==> journal.value.Valid() && journal.value.lost == 0 && WholeFiles(journal.value.segments, dir.files)
    {
      hide FoundSoFar, Reopenable;
      if listFails {
        return None;
      }
      var found := SortedByStart(dir.files);
      FoundWhole(found, dir.files);
      if found != [] && openFails {
        return None;
      }
      var j := new Journal(dir, bounds, found);
      return Some(j);
    }

    constructor (dir: Directory, bounds: JournalBounds, found: seq<Segment>)
      requires Reopenable(dir.files, dir.written) && FoundSoFar(found, dir.files, {})
      ensures this.dir == dir && this.bounds == bounds.Normalized() && segments == found
      ensures Valid() && lost == 0
    {
      hide Sound, FoundSoFar, Reopenable;
      FoundIsSound(found, dir.files, dir.written);
      this.dir := dir;
      this.bounds := bounds.Normalized();
      segments := found;
      lost, unsynced, dirty := 0, 0, 0;
      file := if found == [] then None else Some(found[|found| - 1].start);
    }

    /** The segments of a directory's files, as `sort_by_key` orders them. */
    static method SortedByStart(files: Files) returns (found: seq<Segment>)
      ensures FoundSoFar(found, files, {})
    {
      hide FoundSoFar;
      found := [];
      var rest := files.Keys;
      FoundNothing(files);
      while rest != {}
        invariant rest <= files.Keys && FoundSoFar(found, files, rest)
        decreases rest
      {
        var least := Least(rest);
        FoundNext(found, files, rest, least);
        found := found + [Segment(least, |files[least]|)];
        rest := rest - {least};
      }
    }

    static method Least(s: set<nat>) returns (least: nat)
      requires s != {}
      ensures least in s && forall k :: k in s ==> least <= k
    {
      least :| least in s;
      var rest := s - {least};
      while rest != {}
        invariant least in s && rest <= s && forall k :: k in s && k !in rest ==> least <= k
        decreases rest
      {
        var k :| k in rest;
        if k < least {
          least := k;
        }
        rest := rest - {k};
      }
    }

    method NoteLost(bytes: nat, ghost owed: nat)
      requires owed <= bytes && Owing(owed)
      modifies this`lost
      ensures Valid() && lost == old(lost) + bytes
      ensures End() == old(End()) + bytes && Retained() == old(Retained())
    {
      lost := lost + bytes;
    }

    /** Closes the current segment and opens the next at the end of the stream,
        past every lost byte. */
    method Rotate(faults: Faults) returns (ok: bool)
      requires Valid() && (segments == [] || lost > 0 || segments[|segments| - 1].len > 0)
      modifies this`segments, this`file, this`lost, this`dirty, dir
      ensures Valid() && ok == ((old(segments) == [] || !faults.rotateSync) && !faults.open)
      ensures dir.written == old(dir.written)
      ensures ok ==> segments == old(segments) + [Segment(old(End()), 0)] && lost == 0
      ensures !ok ==> segments == old(segments) && lost == old(lost)
      ensures Retained() == old(Retained())
    {
      hide HeldMap, Sound;
      if file.Some? && faults.rotateSync {
        return false;
      }
      dirty := 0;
      var start := End();
      if faults.open {
        return false;
      }
      RotateKeeps(segments, dir.files, dir.written, lost);
      HeldMapAfterRotate(segments, dir.written, start);
      dir.files := dir.files[start := []];
      segments := segments + [Segment(start, 0)];
      file := Some(start);
      lost := 0;
      return true;
    }

    /** Takes the oldest segment out of the index and removes its file. */
    method EvictOldest(faults: Faults) returns (ok: bool)
      requires Valid() && lost == 0 && |segments| > 1
      modifies this`segments, dir
      ensures Valid() && dir.written == old(dir.written) && segments == old(segments)[1..]
      ensures ok == (old(segments)[0].start !in faults.unlink)
    {
      var oldest := segments[0];
      EvictKeeps(segments, dir.files, dir.written, oldest.start !in faults.unlink);
      segments := segments[1..];
      if oldest.start in faults.unlink {
        return false;
      }
      dir.files := dir.files - {oldest.start};
      return true;
    }

    /** Drops the oldest segments until the rest fit, but never the last one. */
    method Evict(faults: Faults) returns (ok: bool, ghost gone: nat)
      requires Valid() && lost == 0 && segments != []
      modifies this`segments, dir
      ensures Valid() && dir.written == old(dir.written)
      ensures DroppedOver(old(segments), gone, bounds.maxBytes, segments) && segments == old(segments)[gone..]
      ensures gone < |old(segments)|
      ensures ok ==> |segments| == 1 || Total(segments) <= bounds.maxBytes
      ensures !ok ==> 0 < gone && old(segments)[gone - 1].start in faults.unlink
    {
      hide Sound, Total;
      gone, ok := 0, true;
      while ok && |segments| > 1 && Total(segments) > bounds.maxBytes
        invariant Valid() && dir.written == old(dir.written)
        invariant gone < |old(segments)| && segments == old(segments)[gone..]
        invariant forall i :: 0 <= i < gone ==> Total(old(segments)[i..]) > bounds.maxBytes
        invariant !ok ==> 0 < gone && old(segments)[gone - 1].start in faults.unlink
        decreases |segments|
      {
        ok := EvictOldest(faults);
        gone := gone + 1;
      }
    }

    /** Writes to the open segment, all of `bytes` or a torn prefix of them. */
    method WriteOpen(bytes: seq<Byte>, faults: Faults) returns (ok: bool, ghost n: nat)
      requires Valid() && lost == 0 && segments != []
      modifies this`segments, this`unsynced, this`dirty, dir
      ensures ok == faults.write.None? && n <= |bytes|
      ensures Owing(if ok then 0 else |bytes|)
      ensures dir.written == old(dir.written) + Placed(old(End()), bytes[..n])
      ensures ok ==> n == |bytes| && segments == Grown(old(segments), |bytes|)
      ensures !ok ==> segments == old(segments)
    {
      hide Sound, Placed, Grown, EndOf;
      if faults.write.Some? {
        n := Min(faults.write.value, |bytes|);
        WriteTorn(bytes, Min(faults.write.value, |bytes|));
        return false, n;
      }
      WriteWhole(bytes);
      assert bytes[..|bytes|] == bytes;
      return true, |bytes|;
    }

    /** A write that fails after `n` bytes: they stay in the file, past the segment's length. */
    method WriteTorn(bytes: seq<Byte>, n: nat)
      requires Valid() && lost == 0 && segments != [] && n <= |bytes|
      modifies this`dirty, dir
      ensures Owing(|bytes|) && dir.written == old(dir.written) + Placed(End(), bytes[..n])
    {
      hide Sound, Placed, Grown, EndOf;
      EndOfOpen(segments);
      var last := segments[|segments| - 1];
      var torn := bytes[..n];
      WriteKeeps(segments, dir.files, dir.written, torn, 0, |bytes|);
      GrownByNone(segments);
      dir.files := dir.files[last.start := dir.files[last.start] + torn];
      dir.written := dir.written + Placed(last.End(), torn);
      dirty := dirty + n;
    }

    method WriteWhole(bytes: seq<Byte>)
      requires Valid() && lost == 0 && segments != []
      modifies this`segments, this`unsynced, this`dirty, dir
      ensures Valid() && dir.written == old(dir.written) + Placed(old(End()), bytes)
      ensures segments == Grown(old(segments), |bytes|)
    {
      hide Sound, Placed, Grown, EndOf;
      EndOfOpen(segments);
      var last := segments[|segments| - 1];
      WriteKeeps(segments, dir.files, dir.written, bytes, |bytes|, 0);
      GrownAtLast(segments, |bytes|);
      dir.files := dir.files[last.start := dir.files[last.start] + bytes];
      dir.written := dir.written + Placed(last.End(), bytes);
      dirty := dirty + |bytes|;
      segments := segments[|segments| - 1 := Segment(last.start, last.len + |bytes|)];
      unsynced := unsynced + |bytes|;
    }

    /** The part of an append that follows a rotation, if there was one. */
    method AppendOpen(bytes: seq<Byte>, faults: Faults) returns (ok: bool, ghost kept: bool, ghost n: nat, ghost gone: nat)
      requires Valid() && lost == 0 && segments != [] && segments[|segments| - 1].len < bounds.segmentBytes
      modifies this`segments, this`unsynced, this`dirty, dir
      ensures Owing(if ok then 0 else |bytes|) && (ok ==> kept)
      ensures ok ==> dirty < SYNC_BYTES && (faults.interval ==> dirty == 0)
      ensures End() == old(End()) + if kept then |bytes| else 0
      ensures n <= |bytes| && dir.written == old(dir.written) + Placed(old(End()), bytes[..n])
      ensures kept ==> Retained() == From(old(Retained()) + Placed(old(End()), bytes), Start())
      ensures !kept ==> Retained() == old(Retained()) && segments == old(segments)
      ensures ok ==> Total(segments) <= bounds.maxBytes
                     || (|segments| == 1 && segments[0].len < bounds.segmentBytes + |bytes|)
      // Nothing is dropped but for the bound.
      ensures kept && old(Total(segments)) + |bytes| <= bounds.maxBytes ==> Retained() == old(Retained()) + Placed(old(End()), bytes)
      ensures kept ==>
                var longer := Grown(old(segments), |bytes|);
                && gone < |longer| && segments == longer[gone..]
                && (gone > 0 ==> longer[gone - 1].len + Total(segments) > bounds.maxBytes)
    {
      hide Sound, HeldMap, From, Total, Held, DroppedOver;
      ghost var files, written, index := dir.files, dir.written, segments;
      gone := 0;
      ok, n := WriteOpen(bytes, faults);
      if !ok {
        HeldMapUnwritten(index, files, written, bytes[..n]);
        return false, false, n, 0;
      }
      ghost var files', written' := dir.files, dir.written;
      ok, gone := Evict(faults);
      HeldMapAfterAppend(index, files, written, bytes, files', written', gone);
      DroppedNoMore(index, bounds.maxBytes, files, written, bytes, gone, segments);
      NothingPlaced(written, 0, bytes);
      OwesMore(segments, dir.files, dir.written, lost, |bytes|);
      if !ok {
        return false, true, n, gone;
      }
      ok := SyncIfDue(faults);
      return ok, true, n, gone;
    }

    /** Opens a new segment if the append to come needs one. */
    method RotateIfDue(faults: Faults) returns (ok: bool)
      requires Valid()
      modifies this`segments, this`file, this`lost, this`dirty, dir
      ensures Valid() && dir.written == old(dir.written) && Retained() == old(Retained()) && End() == old(End())
      ensures Total(segments) == old(Total(segments))
      ensures !ok ==> segments == old(segments) && lost == old(lost)
      ensures ok ==> lost == 0 && segments == Opened(old(segments), old(lost), bounds.segmentBytes)
      ensures ok ==> segments[|segments| - 1].len < bounds.segmentBytes
    {
      hide Sound, HeldMap, Total, Opened;
      OpenedIs(segments, lost, bounds.segmentBytes);
      if lost > 0 || segments == [] || segments[|segments| - 1].len >= bounds.segmentBytes {
        TotalAppended(segments, Segment(End(), 0));
        ok := Rotate(faults);
      } else {
        ok := true;
      }
    }

    /** Appends to the stream. `kept` tells, for the proof, whether the bytes
        entered the index: the call can still fail after that. `n` bytes
        reached the disk, `gone` segments were dropped. */
    method Append(bytes: seq<Byte>, faults: Faults) returns (ok: bool, ghost kept: bool, ghost n: nat, ghost gone: nat)
      requires Valid()
      modifies this`segments, this`file, this`lost, this`unsynced, this`dirty, dir
      ensures Owing(if ok then 0 else |bytes|) && (ok ==> kept)
      // Little that was written is not synced.
      ensures ok && bytes != [] ==> dirty < SYNC_BYTES && (faults.interval ==> dirty == 0)
      ensures End() == old(End()) + if kept then |bytes| else 0
      // The stream only grows, past its end: no written offset is written again.
      ensures forall o :: o in old(dir.written) ==> o < old(End())
      ensures n <= |bytes| && dir.written == old(dir.written) + Placed(old(End()), bytes[..n])
      // Readable afterwards: nothing new, or everything from the new start on.
      ensures kept ==> Retained() == From(old(Retained()) + Placed(old(End()), bytes), Start())
      ensures !kept ==> Retained() == old(Retained())
      // The retention bound.
      ensures ok && bytes != [] ==> Total(segments) <= bounds.maxBytes
                                    || (|segments| == 1 && segments[0].len < bounds.segmentBytes + |bytes|)
      ensures ok && bytes != [] ==> Total(segments) < bounds.maxBytes + |bytes|
      // It is all that anything is dropped for: within it nothing is, and with the last
      // segment dropped it would be exceeded. A new segment is opened only when due.
      ensures kept && old(Total(segments)) + |bytes| <= bounds.maxBytes ==> Retained() == old(Retained()) + Placed(old(End()), bytes)
      ensures kept && bytes != [] ==>
                var longer := Grown(Opened(old(segments), old(lost), bounds.segmentBytes), |bytes|);
                && gone < |longer| && segments == longer[gone..]
                && (gone > 0 ==> longer[gone - 1].len + Total(segments) > bounds.maxBytes)
    {
      hide Sound, HeldMap, From, Total, Held, Grown, Opened;
      WrittenBelowEnd(segments, dir.files, dir.written, lost, 0);
      NothingPlaced(dir.written, End(), bytes);
      if bytes == [] {
        NothingAppended(segments, dir.files, dir.written, lost, Start());
        return true, true, 0, 0;
      }
      var rotated := RotateIfDue(faults);
      if !rotated {
        OwesMore(segments, dir.files, dir.written, lost, |bytes|);
        return false, false, 0, 0;
      }
      ok, kept, n, gone := AppendOpen(bytes, faults);
      TotalOfOne(segments);
    }

    /** The first stretch of retained bytes at or above `from`, at most `max` of them. */
    method ReadFrom(from: nat, max: nat) returns (chunk: Option<Chunk>)
      requires Valid()
      ensures chunk.None? <==> max == 0 || forall o :: o in Retained() ==> o < from
      ensures chunk.Some? ==> FirstStretch(Retained(), from, chunk.value) && |chunk.value.data| <= max
      ensures chunk.Some? ==> chunk.value.at + |chunk.value.data| <= End()
      // It ends early only where a segment does.
      ensures chunk.Some? && |chunk.value.data| < max ==> EndsOne(segments, chunk.value.at + |chunk.value.data|)
    {
      hide Sound, HeldMap;
      HeldInRange(segments, dir.files, dir.written, lost);
      var at := Max(from, Start());
      if at >= End() || max == 0 {
        return None;
      }
      var i := Find(at);
      FirstHeld(segments, dir.files, dir.written, lost, i, from);
      if i == |segments| {
        return None;
      }
      var segment := segments[i];
      at := Max(at, segment.start);
      FileOfSegment(segments, dir.files, dir.written, lost, 0, i);
      StretchOfFile(segments, dir.written, i, dir.files[segment.start], at, Min(segment.End() - at, max));
      var data := ReadFile(dir.files[segment.start], at - segment.start, Min(segment.End() - at, max));
      assert at in Retained();
      return Some(Chunk(at, data));
    }

    /** The first segment that reaches past `at`. */
    method Find(at: nat) returns (i: nat)
      ensures i <= |segments| && (i < |segments| ==> at < segments[i].End() && segments[i].len > 0)
      ensures forall j :: 0 <= j < i ==> segments[j].End() <= at || segments[j].len == 0
    {
      i := 0;
      while i < |segments| && !(at < segments[i].End() && segments[i].len > 0)
        invariant i <= |segments|
        invariant forall j :: 0 <= j < i ==> segments[j].End() <= at || segments[j].len == 0
      {
        i := i + 1;
      }
    }

    /** Fills a buffer of `want` bytes from a file that may hand over fewer at a time. */
    static method ReadFile(file: seq<Byte>, at: nat, want: nat) returns (data: seq<Byte>)
      requires at + want <= |file|
      ensures data == file[at..][..want]
    {
      data := [];
      while |data| < want
        invariant |data| <= want && data == file[at..][..|data|]
      {
        var n :| 1 <= n <= want - |data|;
        data := data + file[at..][|data|..|data| + n];
      }
    }

    /** Every retained byte, in stream order. */
    method ReadAll() returns (out: seq<Byte>)
      requires Valid()
      ensures out == Listing(Retained(), 0, End())
    {
      hide Sound, HeldMap, FirstStretch, Listing;
      HeldInRange(segments, dir.files, dir.written, lost);
      ghost var retained, end := Retained(), End();
      out := [];
      var at := Start();
      ListingGap(retained, 0, at, end);
      var chunk := ReadFrom(at, READ_ALL_CHUNK);
      assert Retained() == retained;
      while chunk.Some?
        invariant at <= end && out + Listing(retained, at, end) == Listing(retained, 0, end)
        invariant chunk.Some? ==> FirstStretch(retained, at, chunk.value) && chunk.value.at + |chunk.value.data| <= end
        invariant chunk.None? ==> forall o :: o in retained ==> o < at
        decreases end - at, chunk.Some?
      {
        ListingStretch(retained, at, chunk.value, end);
        out := out + chunk.value.data;
        at := chunk.value.at + |chunk.value.data|;
        chunk := ReadFrom(at, READ_ALL_CHUNK);
        assert Retained() == retained;
      }
      ListingGap(retained, at, end, end);
    }

    lemma RetainedBelowEnd()
      requires Valid()
      ensures forall o :: o in Retained() ==> o < End()
    {
      HeldInRange(segments, dir.files, dir.written, lost);
    }

    /** Syncs once a mebibyte is unsynced or the interval has passed. */
    method SyncIfDue(faults: Faults) returns (ok: bool)
      requires Valid() && lost == 0
      modifies this`unsynced, this`dirty
      ensures Valid() && (ok ==> dirty < SYNC_BYTES && (faults.interval ==> dirty == 0))
      ensures !ok ==> faults.sync && file.Some?
    {
      hide Sound;
      if unsynced > 0 && (unsynced >= SYNC_BYTES || faults.interval) {
        ok := Sync(faults.sync);
      } else {
        ok := true;
      }
    }

    method Sync(fails: bool) returns (ok: bool)
      requires Valid()
      modifies this`unsynced, this`dirty
      ensures Valid() && ok == (file.None? || !fails)
      ensures if ok then unsynced == dirty == 0 else unsynced == old(unsynced) && dirty == old(dirty)
    {
      hide Sound;
      if file.Some? && fails {
        return false;
      }
      unsynced, dirty := 0, 0;
      return true;
    }
  }

  /** What an append to an open segment dropped, in terms of what there was before it. */
  lemma DroppedNoMore(segments: seq<Segment>, maxBytes: nat, files: Files, written: Stream, bytes: seq<Byte>, gone: nat, left: seq<Segment>)
    requires segments != [] && Sound(segments, files, written, 0, 0) && DroppedOver(Grown(segments, |bytes|), gone, maxBytes, left)
    ensures var longer := Grown(segments, |bytes|);
            && gone < |longer| && left == longer[gone..]
            && (gone > 0 ==> longer[gone - 1].len + Total(left) > maxBytes)
    ensures var retained := HeldMap(segments, written) + Placed(EndOf(segments, 0), bytes);
            Total(segments) + |bytes| <= maxBytes ==> left != [] && From(retained, left[0].start) == retained
  {
    hide Grown, Sound, HeldMap, From, Total, EndOf;
    DroppedIffOver(Grown(segments, |bytes|), gone, maxBytes, left);
    TotalGrown(segments, |bytes|);
    NothingBelowStart(segments, files, written, EndOf(segments, 0), bytes);
  }

  /** With no segment dropped, nothing lies below where the journal starts. */
  lemma NothingBelowStart(segments: seq<Segment>, files: Files, written: Stream, end: nat, bytes: seq<Byte>)
    requires Sound(segments, files, written, 0, 0) && segments != [] && end == EndOf(segments, 0)
    ensures var retained := HeldMap(segments, written) + Placed(end, bytes);
            From(retained, Grown(segments, |bytes|)[0].start) == retained
  {
    HeldInRange(segments, files, written, 0);
    GrownAtLast(segments, |bytes|);
  }

  lemma NothingAppended(segments: seq<Segment>, files: Files, written: Stream, lost: nat, start: nat)
    requires Sound(segments, files, written, lost, 0) && start == (if segments == [] then 0 else segments[0].start)
    ensures var held := HeldMap(segments, written);
            var end := EndOf(segments, lost);
            held + Placed(end, []) == held && From(held, start) == held
  {
    hide Sound, EndOf, Held;
    SoundInOrder(segments, files, written, lost, 0);
    StartBelowHeld(segments);
    assert Placed(EndOf(segments, lost), []) == map[];
  }

  /** `chunk` is the first run of retained bytes at or above `from`: true to
      the stream, not empty, and nothing retained lies between. */
  ghost predicate FirstStretch(retained: Stream, from: nat, chunk: Chunk) {
    && chunk.data != [] && from <= chunk.at
    && Matches(retained, chunk.at, chunk.data)
    && (forall o :: o in retained && from <= o ==> chunk.at <= o)
  }

  /** Everything held lies between the first segment's start and the end. */
  lemma HeldInRange(segments: seq<Segment>, files: Files, written: Stream, lost: nat)
    requires Sound(segments, files, written, lost, 0)
    ensures forall o :: o in HeldMap(segments, written) ==> segments != [] && segments[0].start <= o < EndOf(segments, lost)
    ensures segments != [] ==> segments[0].start <= EndOf(segments, lost)
  {
    HeldIsWritten(segments, files, written, lost, 0);
    StartBelowHeld(segments);
    assert |segments| > 1 ==> segments[0].End() <= segments[|segments| - 1].start;
  }

  lemma FirstHeld(segments: seq<Segment>, files: Files, written: Stream, lost: nat, i: nat, from: nat)
    requires Sound(segments, files, written, lost, 0) && i <= |segments|
    requires forall j :: 0 <= j < i ==> segments[j].End() <= Max(from, segments[0].start) || segments[j].len == 0
    ensures forall o :: o in HeldMap(segments, written) && from <= o ==> i < |segments| && segments[i].start <= o
  {
    StartBelowHeld(segments);
    forall o: nat | Held(segments, o) && from <= o ensures i < |segments| && segments[i].start <= o {
      var j :| 0 <= j < |segments| && segments[j].start <= o < segments[j].End();
      if i < j {
        assert segments[i].start < segments[j].start;
      }
    }
  }

  lemma StretchOfFile(segments: seq<Segment>, written: Stream, i: nat, file: seq<Byte>, at: nat, want: nat)
    requires i < |segments| && segments[i].start <= at && at + want <= segments[i].End()
    requires |file| >= segments[i].len && Matches(written, segments[i].start, file)
    ensures Matches(HeldMap(segments, written), at, file[at - segments[i].start..][..want])
  {
    var k := segments[i].start;
    forall o: nat | at <= o < at + want ensures o in HeldMap(segments, written) && written[o] == file[o - k] {
      assert segments[i].start <= o < segments[i].End();
    }
  }

  lemma {:induction false} ListingGap(stream: Stream, lo: nat, mid: nat, hi: nat)
    requires lo <= mid <= hi && forall o :: o in stream ==> !(lo <= o < mid)
    ensures Listing(stream, lo, hi) == Listing(stream, mid, hi)
    ensures mid == hi ==> Listing(stream, lo, hi) == []
    decreases mid - lo
  {
    if lo < mid {
      ListingGap(stream, lo + 1, mid, hi);
    }
  }

  lemma MatchesTail(stream: Stream, at: nat, data: seq<Byte>)
    requires Matches(stream, at, data) && data != []
    ensures at in stream && stream[at] == data[0] && Matches(stream, at + 1, data[1..])
  {
  }

  lemma {:induction false} ListingRun(stream: Stream, at: nat, data: seq<Byte>, hi: nat)
    requires Matches(stream, at, data) && at + |data| <= hi
    ensures Listing(stream, at, hi) == data + Listing(stream, at + |data|, hi)
    decreases |data|
  {
    hide Matches;
    if data != [] {
      MatchesTail(stream, at, data);
      ListingRun(stream, at + 1, data[1..], hi);
      var after := Listing(stream, at + |data|, hi);
      assert [data[0]] + (data[1..] + after) == data + after;
    }
  }

  lemma ListingStretch(stream: Stream, from: nat, chunk: Chunk, hi: nat)
    requires FirstStretch(stream, from, chunk) && chunk.at + |chunk.data| <= hi
    ensures Listing(stream, from, hi) == chunk.data + Listing(stream, chunk.at + |chunk.data|, hi)
    ensures from < chunk.at + |chunk.data|
  {
    ListingGap(stream, from, chunk.at, hi);
    ListingRun(stream, chunk.at, chunk.data, hi);
  }

  lemma StartBelowHeld(segments: seq<Segment>)
    requires InOrder(segments)
    ensures forall o: nat :: Held(segments, o) ==> segments != [] && segments[0].start <= o
  {
    forall o: nat | Held(segments, o) ensures segments != [] && segments[0].start <= o {
      var i :| 0 <= i < |segments| && segments[i].start <= o < segments[i].End();
      if i > 0 {
        assert segments[0].start < segments[i].start;
      }
    }
  }
}

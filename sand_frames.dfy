/**
 * Falling-sands frame synchronisation: the cell grid as bytes, the change
 * detection between two consecutive frames, and the two binary messages the
 * server streams (keyframe and delta), together with the decoding a viewer
 * performs and the proof that a delta brings the previous frame up to date.
 */
module SandFrames {
  import opened Wire
  import opened Options

  const WIDTH: nat := 300
  const HEIGHT: nat := 450
  const TICK_HZ: nat := 30
  /** Bytes per cell: species, register a, register b, clock. */
  const CELL_BYTES: nat := 4
  const FRAME_SIZE: nat := WIDTH * HEIGHT * CELL_BYTES
  const MSG_KEYFRAME: byte := 0x01
  const MSG_DELTA: byte := 0x02
  /** Type byte plus the 32-bit entry count. */
  const DELTA_HEADER: nat := 5
  /** 32-bit offset plus the four cell bytes. */
  const DELTA_ENTRY: nat := 8

  /** Two frames that can be compared cell by cell. */
  predicate Comparable(cur: seq<byte>, prev: seq<byte>)
  {
    |cur| == |prev| && |cur| % CELL_BYTES == 0
  }

  /** A cell counts as changed when its species or either register byte differs; the clock byte is ignored. */
  predicate CellChanged(cur: seq<byte>, prev: seq<byte>, off: nat)
    requires Comparable(cur, prev)
    requires off % CELL_BYTES == 0 && off < |cur|
  {
    cur[off] != prev[off] || cur[off + 1] != prev[off + 1] || cur[off + 2] != prev[off + 2]
  }

  /** Changed cell offsets below byte `n`, in ascending order. */
  function ChangedBelow(cur: seq<byte>, prev: seq<byte>, n: nat): (r: seq<nat>)
    requires Comparable(cur, prev)
    requires n % CELL_BYTES == 0 && n <= |cur|
    decreases n
  {
    if n == 0 then []
    else ChangedBelow(cur, prev, n - CELL_BYTES)
         + (if CellChanged(cur, prev, n - CELL_BYTES) then [n - CELL_BYTES] else [])
  }

  /** The offsets of every changed cell of the frame: exactly the changed cells, once each, ascending. */
  function ChangedOffsets(cur: seq<byte>, prev: seq<byte>): (r: seq<nat>)
    requires Comparable(cur, prev)
    ensures forall k: int :: k in r <==> 0 <= k < |cur| && k % CELL_BYTES == 0 && CellChanged(cur, prev, k)
    ensures StrictlyAscending(r)
    ensures CellAligned(r, |cur|)
    ensures |r| <= |cur| / CELL_BYTES
  {
    ChangedBelowExact(cur, prev, |cur|);
    ChangedBelow(cur, prev, |cur|)
  }

  predicate StrictlyAscending(s: seq<nat>)
  {
    forall i, j :: 0 <= i < j < |s| ==> s[i] < s[j]
  }

  /** Offsets that start a whole cell inside a frame of `size` bytes. */
  predicate CellAligned(offs: seq<nat>, size: nat)
  {
    forall k :: 0 <= k < |offs| ==> offs[k] % CELL_BYTES == 0 && offs[k] + CELL_BYTES <= size
  }

  /** The change list holds exactly the changed cells, once each, in ascending order. */
  lemma ChangedBelowExact(cur: seq<byte>, prev: seq<byte>, n: nat)
    requires Comparable(cur, prev)
    requires n % CELL_BYTES == 0 && n <= |cur|
    ensures forall k: int :: k in ChangedBelow(cur, prev, n) <==>
      0 <= k < n && k % CELL_BYTES == 0 && CellChanged(cur, prev, k)
    ensures StrictlyAscending(ChangedBelow(cur, prev, n))
    ensures CellAligned(ChangedBelow(cur, prev, n), |cur|)
    ensures |ChangedBelow(cur, prev, n)| <= n / CELL_BYTES
  {
    ChangedBelowMembers(cur, prev, n);
    ChangedBelowAligned(cur, prev, n);
    ChangedBelowAscending(cur, prev, n);
    ChangedBelowLength(cur, prev, n);
  }

  lemma {:induction false} ChangedBelowMembers(cur: seq<byte>, prev: seq<byte>, n: nat)
    requires Comparable(cur, prev)
    requires n % CELL_BYTES == 0 && n <= |cur|
    ensures forall k: int :: k in ChangedBelow(cur, prev, n) <==>
      0 <= k < n && k % CELL_BYTES == 0 && CellChanged(cur, prev, k)
    decreases n
  {
    if n > 0 {
      ChangedBelowMembers(cur, prev, n - CELL_BYTES);
    }
  }

  /** Every listed offset starts a whole cell below byte `n`. */
  lemma {:induction false} ChangedBelowAligned(cur: seq<byte>, prev: seq<byte>, n: nat)
    requires Comparable(cur, prev)
    requires n % CELL_BYTES == 0 && n <= |cur|
    ensures CellAligned(ChangedBelow(cur, prev, n), n)
    ensures CellAligned(ChangedBelow(cur, prev, n), |cur|)
    decreases n
  {
    if n > 0 {
      ChangedBelowAligned(cur, prev, n - CELL_BYTES);
    }
  }

  lemma {:induction false} ChangedBelowAscending(cur: seq<byte>, prev: seq<byte>, n: nat)
    requires Comparable(cur, prev)
    requires n % CELL_BYTES == 0 && n <= |cur|
    ensures StrictlyAscending(ChangedBelow(cur, prev, n))
    decreases n
  {
    if n > 0 {
      ChangedBelowAscending(cur, prev, n - CELL_BYTES);
      ChangedBelowAligned(cur, prev, n - CELL_BYTES);
    }
  }

  lemma {:induction false} ChangedBelowLength(cur: seq<byte>, prev: seq<byte>, n: nat)
    requires Comparable(cur, prev)
    requires n % CELL_BYTES == 0 && n <= |cur|
    ensures |ChangedBelow(cur, prev, n)| <= n / CELL_BYTES
    decreases n
  {
    if n > 0 {
      ChangedBelowLength(cur, prev, n - CELL_BYTES);
    }
  }

  /** A frame compared with itself has no changed cell. */
  lemma {:induction false} NoChangesAgainstItself(f: seq<byte>, n: nat)
    requires Comparable(f, f)
    requires n % CELL_BYTES == 0 && n <= |f|
    ensures ChangedBelow(f, f, n) == []
    decreases n
  {
    if n > 0 {
      NoChangesAgainstItself(f, n - CELL_BYTES);
    }
  }

  /** The comparison loop of the tick: every fourth byte, three bytes compared. */
  method Diff(cur: seq<byte>, prev: seq<byte>) returns (changed: seq<nat>)
    requires Comparable(cur, prev)
    ensures changed == ChangedOffsets(cur, prev)
  {
    changed := [];
    var i: nat := 0;
    while i < |cur|
      invariant i % CELL_BYTES == 0 && i <= |cur|
      invariant changed == ChangedBelow(cur, prev, i)
      decreases |cur| - i
    {
      if cur[i] != prev[i] || cur[i + 1] != prev[i + 1] || cur[i + 2] != prev[i + 2] {
        changed := changed + [i];
      }
      i := i + CELL_BYTES;
    }
  }

  // ---------------------------------------------------------------------
  // Messages
  // ---------------------------------------------------------------------

  /** Keyframe: the type byte followed by the whole frame. */
  function EncodeKeyframe(frame: seq<byte>): (msg: seq<byte>)
    ensures |msg| == 1 + |frame| && msg[0] == MSG_KEYFRAME && msg[1..] == frame
  {
    [MSG_KEYFRAME] + frame
  }

  /** The delta body: for each offset its 32-bit value and then the cell's four bytes. */
  function Records(frame: seq<byte>, offs: seq<nat>): (r: seq<byte>)
    requires CellAligned(offs, |frame|) && |frame| <= U32_LIMIT
    ensures |r| == DELTA_ENTRY * |offs|
    decreases |offs|
  {
    if offs == [] then []
    else
      var last := offs[|offs| - 1];
      Records(frame, offs[..|offs| - 1]) + U32BE(last) + frame[last..last + CELL_BYTES]
  }

  /** Delta: type byte, entry count, then one eight-byte record per changed cell. */
  function EncodeDelta(frame: seq<byte>, offs: seq<nat>): (msg: seq<byte>)
    requires CellAligned(offs, |frame|) && |frame| <= U32_LIMIT && |offs| < U32_LIMIT
    ensures |msg| == DELTA_HEADER + DELTA_ENTRY * |offs| && msg[0] == MSG_DELTA
  {
    [MSG_DELTA] + U32BE(|offs|) + Records(frame, offs)
  }

  /** The delta goes out only when it is shorter than a frame. */
  predicate DeltaPays(changed: nat)
  {
    changed > 0 && DELTA_HEADER + DELTA_ENTRY * changed < FRAME_SIZE
  }

  /** `Buffer.alloc` plus the copy of the frame after the type byte. */
  method BuildKeyframe(frame: seq<byte>) returns (msg: array<byte>)
    ensures msg[..] == EncodeKeyframe(frame)
  {
    msg := new byte[1 + |frame|](_ => 0);
    msg[0] := MSG_KEYFRAME;
    var i := 0;
    while i < |frame|
      invariant 0 <= i <= |frame|
      invariant msg[0] == MSG_KEYFRAME
      invariant forall k :: 0 <= k < i ==> msg[k + 1] == frame[k]
    {
      msg[i + 1] := frame[i];
      i := i + 1;
    }
    assert msg[..] == [MSG_KEYFRAME] + frame by {
      forall k | 0 <= k < msg.Length
        ensures msg[k] == ([MSG_KEYFRAME] + frame)[k]
      {
        if k > 0 {
          assert msg[(k - 1) + 1] == frame[k - 1];
        }
      }
    }
  }

  /** One record: `writeUInt32BE(off, pos)` and the copy of the cell's four bytes after it. */
  method WriteRecord(msg: array<byte>, pos: nat, frame: seq<byte>, off: nat)
    requires off % CELL_BYTES == 0 && off + CELL_BYTES <= |frame| && off < U32_LIMIT
    requires pos + DELTA_ENTRY <= msg.Length
    modifies msg
    ensures msg[..pos + DELTA_ENTRY] == old(msg[..pos]) + U32BE(off) + frame[off..off + CELL_BYTES]
  {
    var bytes := U32BE(off);
    msg[pos] := bytes[0];
    msg[pos + 1] := bytes[1];
    msg[pos + 2] := bytes[2];
    msg[pos + 3] := bytes[3];
    msg[pos + 4] := frame[off];
    msg[pos + 5] := frame[off + 1];
    msg[pos + 6] := frame[off + 2];
    msg[pos + 7] := frame[off + 3];
    assert msg[..pos + DELTA_ENTRY] == old(msg[..pos]) + bytes + frame[off..off + CELL_BYTES];
  }

  lemma RecordsSnoc(frame: seq<byte>, offs: seq<nat>, k: nat)
    requires CellAligned(offs, |frame|) && |frame| <= U32_LIMIT && k < |offs|
    ensures CellAligned(offs[..k], |frame|) && CellAligned(offs[..k + 1], |frame|)
    ensures Records(frame, offs[..k + 1])
            == Records(frame, offs[..k]) + U32BE(offs[k]) + frame[offs[k]..offs[k] + CELL_BYTES]
  {
    var t := offs[..k + 1];
    assert t[..k] == offs[..k] && t[k] == offs[k];
    assert CellAligned(t, |frame|) by {
      forall j | 0 <= j < |t|
        ensures t[j] % CELL_BYTES == 0 && t[j] + CELL_BYTES <= |frame|
      {
        assert t[j] == offs[j];
      }
    }
    assert CellAligned(offs[..k], |frame|) by {
      forall j | 0 <= j < k
        ensures offs[..k][j] % CELL_BYTES == 0 && offs[..k][j] + CELL_BYTES <= |frame|
      {
        assert offs[..k][j] == offs[j];
      }
    }
  }

  /** The `k`-th record written after the header and the records before it. */
  method AppendRecord(msg: array<byte>, pos: nat, ghost header: seq<byte>, frame: seq<byte>, offs: seq<nat>, k: nat)
    requires CellAligned(offs, |frame|) && |frame| <= U32_LIMIT && k < |offs|
    requires pos + DELTA_ENTRY <= msg.Length
    requires msg[..pos] == header + Records(frame, offs[..k])
    modifies msg
    ensures CellAligned(offs[..k + 1], |frame|)
    ensures msg[..pos + DELTA_ENTRY] == header + Records(frame, offs[..k + 1])
  {
    RecordsSnoc(frame, offs, k);
    ghost var written := msg[..pos];
    WriteRecord(msg, pos, frame, offs[k]);
    ghost var record := U32BE(offs[k]) + frame[offs[k]..offs[k] + CELL_BYTES];
    assert msg[..pos + DELTA_ENTRY] == written + record;
  }

  /** `Buffer.alloc(5 + 8n)`, the header, then one record per offset in order. */
  method BuildDelta(frame: seq<byte>, offs: seq<nat>) returns (msg: array<byte>)
    requires CellAligned(offs, |frame|) && |frame| <= U32_LIMIT && |offs| < U32_LIMIT
    ensures msg[..] == EncodeDelta(frame, offs)
  {
    var n := |offs|;
    msg := new byte[DELTA_HEADER + DELTA_ENTRY * n](_ => 0);
    msg[0] := MSG_DELTA;
    WriteU32BE(msg, n, 1);
    ghost var header := [MSG_DELTA] + U32BE(n);
    assert msg[..DELTA_HEADER] == header;
    assert offs[..0] == [];
    var pos := DELTA_HEADER;
    var k := 0;
    while k < n
      invariant 0 <= k <= n && pos == DELTA_HEADER + DELTA_ENTRY * k
      invariant msg.Length == DELTA_HEADER + DELTA_ENTRY * n
      invariant CellAligned(offs[..k], |frame|)
      invariant msg[..pos] == header + Records(frame, offs[..k])
    {
      AppendRecord(msg, pos, header, frame, offs, k);
      pos := pos + DELTA_ENTRY;
      k := k + 1;
    }
    assert offs[..k] == offs;
    assert msg[..] == msg[..pos];
  }

  // ---------------------------------------------------------------------
  // Decoding, as a viewer reads the stream
  // ---------------------------------------------------------------------

  /** One changed cell: where it starts and its four bytes. */
  datatype Entry = Entry(offset: nat, cell: seq<byte>)

  datatype Update = FullFrame(frame: seq<byte>) | CellUpdates(entries: seq<Entry>)

  /** The entries a delta carries for these offsets of this frame. */
  function EntriesOf(frame: seq<byte>, offs: seq<nat>): (es: seq<Entry>)
    requires CellAligned(offs, |frame|)
    ensures |es| == |offs|
    ensures forall k :: 0 <= k < |es| ==>
      es[k].offset == offs[k] && es[k].cell == frame[offs[k]..offs[k] + CELL_BYTES]
    decreases |offs|
  {
    if offs == [] then []
    else
      var last := offs[|offs| - 1];
      EntriesOf(frame, offs[..|offs| - 1]) + [Entry(last, frame[last..last + CELL_BYTES])]
  }

  /** Reads `n` eight-byte records. */
  function ReadRecords(body: seq<byte>, n: nat): (es: seq<Entry>)
    requires |body| == DELTA_ENTRY * n
    ensures |es| == n
    decreases n
  {
    if n == 0 then []
    else
      var at := DELTA_ENTRY * (n - 1);
      ReadRecords(body[..at], n - 1) + [Entry(ReadU32BE(body, at), body[at + 4..at + DELTA_ENTRY])]
  }

  /** The viewer's reading of a message; None for anything else. */
  function Decode(msg: seq<byte>): (u: Option<Update>)
    ensures u.Some? ==> |msg| > 0 && msg[0] in {MSG_KEYFRAME, MSG_DELTA}
  {
    if |msg| >= 1 && msg[0] == MSG_KEYFRAME then Some(FullFrame(msg[1..]))
    else if |msg| >= DELTA_HEADER && msg[0] == MSG_DELTA
            && |msg| == DELTA_HEADER + DELTA_ENTRY * ReadU32BE(msg, 1) then
      Some(CellUpdates(ReadRecords(msg[DELTA_HEADER..], ReadU32BE(msg, 1))))
    else None
  }

  lemma U32At(s: seq<byte>, at: nat, v: nat)
    requires v < U32_LIMIT && at + 4 <= |s| && s[at..at + 4] == U32BE(v)
    ensures ReadU32BE(s, at) == v
  {
    U32RoundTrip(v);
    assert s[at] == U32BE(v)[0] && s[at + 1] == U32BE(v)[1];
    assert s[at + 2] == U32BE(v)[2] && s[at + 3] == U32BE(v)[3];
  }

  lemma Split3<T>(a: seq<T>, b: seq<T>, c: seq<T>)
    ensures (a + b + c)[..|a|] == a
    ensures (a + b + c)[|a|..|a| + |b|] == b
    ensures (a + b + c)[|a| + |b|..] == c
  {
  }

  lemma {:induction false} RecordsRoundTrip(frame: seq<byte>, offs: seq<nat>)
    requires CellAligned(offs, |frame|) && |frame| <= U32_LIMIT
    ensures ReadRecords(Records(frame, offs), |offs|) == EntriesOf(frame, offs)
    decreases |offs|
  {
    if offs != [] {
      var n := |offs|;
      var init, last := offs[..n - 1], offs[n - 1];
      var head, word, cell := Records(frame, init), U32BE(last), frame[last..last + CELL_BYTES];
      var body := head + word + cell;
      assert Records(frame, offs) == body;
      var at := DELTA_ENTRY * (n - 1);
      Split3(head, word, cell);
      assert |head| == at;
      RecordsRoundTrip(frame, init);
      U32At(body, at, last);
      assert body[at + 4..at + DELTA_ENTRY] == cell;
      assert ReadRecords(body, n) == ReadRecords(head, n - 1) + [Entry(last, cell)];
    }
  }

  /** A keyframe decodes to the frame it carries. */
  lemma KeyframeRoundTrip(frame: seq<byte>)
    ensures Decode(EncodeKeyframe(frame)) == Some(FullFrame(frame))
  {
  }

  /** A delta decodes to exactly the entries it was built from, in the same order. */
  lemma DeltaRoundTrip(frame: seq<byte>, offs: seq<nat>)
    requires CellAligned(offs, |frame|) && |frame| <= U32_LIMIT && |offs| < U32_LIMIT
    ensures Decode(EncodeDelta(frame, offs)) == Some(CellUpdates(EntriesOf(frame, offs)))
  {
    var msg := EncodeDelta(frame, offs);
    assert msg[1..5] == U32BE(|offs|);
    U32At(msg, 1, |offs|);
    assert msg[DELTA_HEADER..] == Records(frame, offs);
    RecordsRoundTrip(frame, offs);
  }

  /** The viewer writes an entry's four bytes over the cell. */
  function Patch(base: seq<byte>, e: Entry): (r: seq<byte>)
    requires e.offset + |e.cell| <= |base|
    ensures |r| == |base|
  {
    seq(|base|, i requires 0 <= i < |base| =>
      if e.offset <= i < e.offset + |e.cell| then e.cell[i - e.offset] else base[i])
  }

  predicate Fits(es: seq<Entry>, size: nat)
  {
    forall k :: 0 <= k < |es| ==> es[k].offset + |es[k].cell| <= size
  }

  /** Entries applied in order. */
  function ApplyAll(base: seq<byte>, es: seq<Entry>): (r: seq<byte>)
    requires Fits(es, |base|)
    ensures |r| == |base|
    decreases |es|
  {
    if es == [] then base
    else Patch(ApplyAll(base, es[..|es| - 1]), es[|es| - 1])
  }

  /** First byte of the cell that holds byte `i`. */
  function CellStart(i: nat): nat
  {
    i - i % CELL_BYTES
  }

  lemma {:induction false} ApplyEntriesOf(base: seq<byte>, cur: seq<byte>, offs: seq<nat>)
    requires |base| == |cur| && CellAligned(offs, |cur|)
    ensures Fits(EntriesOf(cur, offs), |base|)
    ensures forall i :: 0 <= i < |base| ==>
      ApplyAll(base, EntriesOf(cur, offs))[i] == if CellStart(i) in offs then cur[i] else base[i]
    decreases |offs|
  {
    EntriesFit(base, cur, offs);
    if offs != [] {
      var n := |offs|;
      var init, last := offs[..n - 1], offs[n - 1];
      assert CellAligned(init, |cur|);
      assert last % CELL_BYTES == 0 && last + CELL_BYTES <= |cur|;
      ApplyEntriesOf(base, cur, init);
      var e := Entry(last, cur[last..last + CELL_BYTES]);
      var prev := ApplyAll(base, EntriesOf(cur, init));
      assert EntriesOf(cur, offs) == EntriesOf(cur, init) + [e];
      var after := ApplyAll(base, EntriesOf(cur, offs));
      assert after == Patch(prev, e) by {
        assert EntriesOf(cur, offs)[..n - 1] == EntriesOf(cur, init);
      }
      forall i | 0 <= i < |base|
        ensures after[i] == if CellStart(i) in offs then cur[i] else base[i]
      {
        assert offs == init + [last];
        InSnoc(init, last, CellStart(i));
        PatchCell(prev, cur, last, i);
      }
    }
  }

  /** Patching the cell at `last` with its bytes from `cur` changes exactly the bytes of that cell. */
  lemma PatchCell(prev: seq<byte>, cur: seq<byte>, last: nat, i: nat)
    requires |prev| == |cur| && i < |prev|
    requires last % CELL_BYTES == 0 && last + CELL_BYTES <= |cur|
    ensures Patch(prev, Entry(last, cur[last..last + CELL_BYTES]))[i] == if CellStart(i) == last then cur[i] else prev[i]
  {
    SameCell(last, i);
  }

  lemma EntriesFit(base: seq<byte>, cur: seq<byte>, offs: seq<nat>)
    requires |base| == |cur| && CellAligned(offs, |cur|)
    ensures Fits(EntriesOf(cur, offs), |base|)
  {
  }

  lemma InSnoc(init: seq<nat>, last: nat, x: nat)
    ensures x in init + [last] <==> x in init || x == last
  {
  }

  /** A byte lies in the cell starting at `off` exactly when its cell starts there. */
  lemma SameCell(off: nat, i: nat)
    requires off % CELL_BYTES == 0
    ensures off <= i < off + CELL_BYTES <==> CellStart(i) == off
  {
  }

  lemma CellOf(i: nat, size: nat)
    requires i < size && size % CELL_BYTES == 0
    ensures CellStart(i) % CELL_BYTES == 0 && CellStart(i) <= i < CellStart(i) + CELL_BYTES
    ensures CellStart(i) + CELL_BYTES <= size
  {
  }

  lemma UnchangedCellAgrees(cur: seq<byte>, prev: seq<byte>, i: nat)
    requires Comparable(cur, prev) && i < |cur| && i % CELL_BYTES != 3
    requires CellStart(i) % CELL_BYTES == 0 && CellStart(i) <= i < CellStart(i) + CELL_BYTES
    requires !CellChanged(cur, prev, CellStart(i))
    ensures cur[i] == prev[i]
  {
    var c := CellStart(i);
    assert i == c || i == c + 1 || i == c + 2;
  }

  /** Agreement on every byte the change detection looks at. */
  predicate AgreeOnCompared(a: seq<byte>, b: seq<byte>)
  {
    |a| == |b| && forall i :: 0 <= i < |a| && i % CELL_BYTES != 3 ==> a[i] == b[i]
  }

  /**
   * The delta property: a viewer holding the previous frame who applies the
   * delta of the changed cells ends up with the current frame, on every byte
   * the server compares (the clock byte of unchanged cells may differ).
   */
  lemma DeltaReconstructs(prev: seq<byte>, cur: seq<byte>)
    requires Comparable(cur, prev) && |cur| <= U32_LIMIT
    ensures |ChangedOffsets(cur, prev)| < U32_LIMIT
    ensures Decode(EncodeDelta(cur, ChangedOffsets(cur, prev)))
            == Some(CellUpdates(EntriesOf(cur, ChangedOffsets(cur, prev))))
    ensures AgreeOnCompared(ApplyAll(prev, EntriesOf(cur, ChangedOffsets(cur, prev))), cur)
  {
    var offs := ChangedOffsets(cur, prev);
    DeltaRoundTrip(cur, offs);
    ApplyEntriesOf(prev, cur, offs);
    var r := ApplyAll(prev, EntriesOf(cur, offs));
    forall i | 0 <= i < |r| && i % CELL_BYTES != 3
      ensures r[i] == cur[i]
    {
      CellOf(i, |cur|);
      if CellStart(i) !in offs {
        UnchangedCellAgrees(cur, prev, i);
      }
    }
  }

  // ---------------------------------------------------------------------
  // What one tick decides to encode
  // ---------------------------------------------------------------------

  /** Skip: nothing changed and nobody waits for a keyframe; Send: the messages to build. */
  datatype Decision = Skip | Send(keyframe: Option<seq<byte>>, delta: Option<seq<byte>>)

  predicate FrameSized(prev: Option<seq<byte>>)
  {
    prev.Some? ==> |prev.value| == FRAME_SIZE
  }

  /**
   * The encoding decision of one tick, given the new frame, the previous one
   * (None after a period without clients) and whether some ready session
   * still waits for its first keyframe.
   */
  function Decide(frame: seq<byte>, prev: Option<seq<byte>>, anyNeedsKeyframe: bool): (d: Decision)
    requires |frame| == FRAME_SIZE && FrameSized(prev)
    ensures d.Skip? <==> prev.Some? && ChangedOffsets(frame, prev.value) == [] && !anyNeedsKeyframe
    ensures d.Send? && d.keyframe.Some? ==> d.keyframe.value == EncodeKeyframe(frame)
    ensures d.Send? && d.delta.Some? ==>
      prev.Some? && DeltaPays(|ChangedOffsets(frame, prev.value)|)
      && ChangedOffsets(frame, prev.value) != []
      && d.delta.value == EncodeDelta(frame, ChangedOffsets(frame, prev.value))
      && |d.delta.value| < FRAME_SIZE
    ensures d.Send? && prev.Some? && DeltaPays(|ChangedOffsets(frame, prev.value)|) ==> d.delta.Some?
    ensures d.Send? && anyNeedsKeyframe ==> d.keyframe.Some?
    ensures d.Send? && prev.Some? && ChangedOffsets(frame, prev.value) != [] ==>
      d.keyframe.Some? || d.delta.Some?
    ensures d.Send? && d.keyframe.Some? && !anyNeedsKeyframe ==> d.delta.None?
    ensures prev.None? && !anyNeedsKeyframe ==> d == Send(None, None)
  {
    if prev.None? then
      Send(if anyNeedsKeyframe then Some(EncodeKeyframe(frame)) else None, None)
    else
      var changed := ChangedOffsets(frame, prev.value);
      if changed == [] && !anyNeedsKeyframe then Skip
      else
        var delta := if DeltaPays(|changed|) then Some(EncodeDelta(frame, changed)) else None;
        var needKeyframe := anyNeedsKeyframe || (delta.None? && changed != []);
        Send(if needKeyframe then Some(EncodeKeyframe(frame)) else None, delta)
  }

  /**
   * The encoding steps of a tick: the comparison with the previous frame,
   * the early return when nothing changed and nobody waits, and the delta
   * built when it is shorter than a frame; the keyframe itself is encoded
   * later, only when there is a recipient.
   */
  method EncodeTick(frame: seq<byte>, prev: Option<seq<byte>>, anyNeedsKeyframe: bool)
    returns (skip: bool, needKeyframe: bool, delta: Option<seq<byte>>)
    requires |frame| == FRAME_SIZE && FrameSized(prev)
    ensures skip == Decide(frame, prev, anyNeedsKeyframe).Skip?
    ensures !skip ==> Decide(frame, prev, anyNeedsKeyframe) == Send(
      if needKeyframe then Some(EncodeKeyframe(frame)) else None, delta)
  {
    var changed: Option<seq<nat>> := None;
    if prev.Some? {
      var offs := Diff(frame, prev.value);
      changed := Some(offs);
    }
    skip := changed.Some? && changed.value == [] && !anyNeedsKeyframe;
    delta := None;
    needKeyframe := false;
    if skip {
      return;
    }
    if changed.Some? && |changed.value| > 0 {
      if DELTA_HEADER + DELTA_ENTRY * |changed.value| < FRAME_SIZE {
        var msg := BuildDelta(frame, changed.value);
        delta := Some(msg[..]);
      }
    }
    needKeyframe := anyNeedsKeyframe || (delta.None? && changed.Some? && |changed.value| > 0);
  }

  /** An unchanged frame with nobody waiting is not re-sent. */
  lemma IdenticalFrameSkipped(frame: seq<byte>)
    requires |frame| == FRAME_SIZE
    ensures Decide(frame, Some(frame), false) == Skip
  {
    NoChangesAgainstItself(frame, |frame|);
  }

  /** More than half the cells changed: the delta is not built and the frame goes out whole. */
  lemma LargeChangeFallsBackToKeyframe(frame: seq<byte>, prev: seq<byte>)
    requires |frame| == FRAME_SIZE && |prev| == FRAME_SIZE
    requires 2 * |ChangedOffsets(frame, prev)| > FRAME_SIZE / CELL_BYTES
    ensures Decide(frame, Some(prev), false) == Send(Some(EncodeKeyframe(frame)), None)
  {
  }
}

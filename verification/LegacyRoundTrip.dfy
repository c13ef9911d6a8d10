/** The pre-CAN form undone: what `k_line_frames` frames, `assemble_non_can` joins. */
module LegacyRoundTrip {
  import opened Wrappers
  import opened Text
  import opened Hex
  import opened IsoTp
  import opened FrameText
  import opened Assemble
  import opened Legacy

  // ---- Lines ----

  /** A printed line gives back its source and its frame, header and checksum gone. */
  lemma DecodeLegacyLine(source: Byte, frame: seq<Byte>, spaces: bool)
    requires frame != []
    ensures DecodeLegacy(LegacyLine(source, frame, true, spaces)) == Some(LegacyFrame(TwoDigits(source), frame))
  {
    var bytes := Framed(source, frame);
    UnspacedLine(bytes, source, frame, spaces);
    DecodeBytes(bytes);
    assert bytes[3..|bytes| - 1] == frame;
  }

  lemma UnspacedLine(bytes: seq<Byte>, source: Byte, frame: seq<Byte>, spaces: bool)
    requires bytes == Framed(source, frame)
    ensures Unspaced(LegacyLine(source, frame, true, spaces)) == Bytes(bytes)
  {
    hide Bytes, Framed;
    if spaces {
      UnspacedSpaced(bytes);
    } else {
      BytesPrinted(bytes);
      PrintedIsPlain(Bytes(bytes));
    }
  }

  lemma DecodeBytes(bytes: seq<Byte>)
    requires |bytes| >= 5
    ensures forall line :: Unspaced(line) == Bytes(bytes) ==> DecodeLegacy(line) == Some(LegacyFrame(TwoDigits(bytes[2]), bytes[3..|bytes| - 1]))
  {
    hide Bytes, Pairs, TwoDigits;
    PairsOfBytes(bytes);
    BytesPrinted(bytes);
    PrintedIsHex(Bytes(bytes));
  }

  lemma {:induction false} OwnTextAppend(x: seq<string>, y: seq<string>, a: string)
    ensures OwnText(x + y, a) == OwnText(x, a) + OwnText(y, a)
  {
    hide DecodeLegacy;
    if y == [] {
      assert x + y == x;
    } else {
      assert (x + y)[..|x + y| - 1] == x + y[..|y| - 1];
      OwnTextAppend(x, y[..|y| - 1], a);
    }
  }

  /** The frames of a source are what its lines decode to. */
  lemma {:induction false} FramesOfText(lines: seq<string>, a: string)
    ensures forall i :: 0 <= i < |OwnText(lines, a)| ==> DecodeLegacy(OwnText(lines, a)[i]) == Some(LegacyFrame(a, OwnFrames(lines, a)[i]))
  {
    hide DecodeLegacy;
    if lines != [] {
      FramesOfText(lines[..|lines| - 1], a);
    }
  }

  /** A module's printed lines are its own, and no other source's. */
  lemma {:induction false} OwnPrinted(reply: LegacyReply, spaces: bool, a: string, k: nat)
    requires reply.payload != [] && k <= |KLineFrames(reply.payload)|
    ensures OwnText(LegacyLines(reply, true, spaces)[..k], a) == if a == TwoDigits(reply.source) then LegacyLines(reply, true, spaces)[..k] else []
  {
    hide DecodeLegacy, LegacyLine, KLineFrames, OwnText;
    var lines, frames := LegacyLines(reply, true, spaces), KLineFrames(reply.payload);
    if k == 0 {
      assert lines[..0] == [];
      NoLines();
    } else {
      OwnPrinted(reply, spaces, a, k - 1);
      FramesNotEmpty(reply.payload, k - 1);
      DecodeLegacyLine(reply.source, frames[k - 1], spaces);
      OwnNext(lines, k - 1, a);
      assert lines[..k] == lines[..k - 1] + [lines[k - 1]];
    }
  }

  lemma FramesNotEmpty(payload: seq<Byte>, i: nat)
    requires payload != [] && i < |KLineFrames(payload)|
    ensures KLineFrames(payload)[i] != []
  {
  }

  // ---- Frames on the way ----

  /** Which frames arrived, by position, and in which order. */
  predicate Arrival(order: seq<nat>, n: nat) {
    && (forall i :: 0 <= i < |order| ==> order[i] < n)
    && (forall i, j :: 0 <= i < j < |order| ==> order[i] != order[j])
  }

  function InOrder<T>(all: seq<T>, order: seq<nat>): (r: seq<T>)
    requires forall i :: 0 <= i < |order| ==> order[i] < |all|
    ensures |r| == |order|
  {
    seq(|order|, i requires 0 <= i < |order| => all[order[i]])
  }

  /** Its frame says everything, so a repetition of it does no harm. */
  predicate Repeatable(payload: seq<Byte>)
    requires payload != []
  {
    !IsFaultList(payload[0]) && payload[0] != 0x49
  }

  /** Some frames of a reply, any of them missing, none twice unless that does no harm. A reply of more
      than 255 numbered frames is held to one loss less: its 256th frame, the first with a number that
      wrapped, is there. */
  predicate Comes(payload: seq<Byte>, order: seq<nat>)
    requires payload != []
  {
    var n := |KLineFrames(payload)|;
    && order != [] && (forall i :: 0 <= i < |order| ==> order[i] < n)
    && (Repeatable(payload) || Arrival(order, n))
    && (IsNumbered(payload) && n > 255 ==> 255 in order)
  }

  function Arriving(payload: seq<Byte>, order: seq<nat>): (frames: seq<seq<Byte>>)
    requires payload != [] && Comes(payload, order)
    ensures |frames| == |order| && forall i :: 0 <= i < |frames| ==> frames[i] != []
  {
    InOrder(KLineFrames(payload), order)
  }

  // ---- Fault lists ----

  /** The codes filled up with zeros to whole frames, at least one. */
  function PaddedCodes(codes: seq<Byte>): (p: seq<Byte>)
  {
    codes + Zeros(if codes == [] then 6 else (|codes| + 5) / 6 * 6 - |codes|)
  }

  lemma FaultSlice(codes: seq<Byte>, i: nat)
    requires i < if codes == [] then 1 else (|codes| + 5) / 6
    ensures 6 * i + 6 <= |PaddedCodes(codes)|
    ensures Resize([0 as Byte] + Slice(codes, 6 * i, 6 * i + 6), 7)[1..] == PaddedCodes(codes)[6 * i..6 * i + 6]
  {
  }

  lemma FaultFrameTail(service: Byte, codes: seq<Byte>, i: nat)
    requires i < |FaultFrames(service, codes)|
    ensures 6 * i + 6 <= |PaddedCodes(codes)|
    ensures |FaultFrames(service, codes)[i]| == 7 && FaultFrames(service, codes)[i][0] == service
    ensures FaultFrames(service, codes)[i][1..] == PaddedCodes(codes)[6 * i..6 * i + 6]
  {
    FaultSlice(codes, i);
  }

  function CodesOf(payload: seq<Byte>): seq<Byte>
    requires payload != []
  {
    if |payload| > 2 then payload[2..] else []
  }

  /** Six bytes for each position, in the order given. */
  function Blocks(padded: seq<Byte>, order: seq<nat>): seq<Byte> {
    if order == [] then []
    else
      var k := order[|order| - 1];
      Blocks(padded, order[..|order| - 1]) + Slice(padded, 6 * k, 6 * k + 6)
  }

  lemma SliceInside(s: seq<Byte>, lo: nat, hi: nat)
    requires lo <= hi <= |s|
    ensures Slice(s, lo, hi) == s[lo..hi]
  {
  }

  lemma {:induction false} BlocksInOrder(padded: seq<Byte>, order: seq<nat>)
    requires 6 * |order| <= |padded| && forall i :: 0 <= i < |order| ==> order[i] == i
    ensures Blocks(padded, order) == padded[..6 * |order|]
  {
    hide Slice;
    if order == [] {
      assert padded[..0] == [];
    } else {
      var k := |order| - 1;
      BlocksInOrder(padded, order[..k]);
      SliceInside(padded, 6 * k, 6 * k + 6);
      assert padded[..6 * k + 6] == padded[..6 * k] + padded[6 * k..6 * k + 6];
    }
  }

  lemma {:induction false} FaultTails(service: Byte, codes: seq<Byte>, order: seq<nat>)
    requires forall i :: 0 <= i < |order| ==> order[i] < |FaultFrames(service, codes)|
    ensures Tails(InOrder(FaultFrames(service, codes), order), 1) == Blocks(PaddedCodes(codes), order)
  {
    hide PaddedCodes, FaultFrames;
    var frames := InOrder(FaultFrames(service, codes), order);
    if order != [] {
      var k := |order| - 1;
      FaultTails(service, codes, order[..k]);
      assert frames[..k] == InOrder(FaultFrames(service, codes), order[..k]);
      FaultFrameTail(service, codes, order[k]);
    }
  }

  /** Fault frames in any order, with any missing and at least one there: the service byte once, and
      the codes of each. */
  lemma FaultJoined(payload: seq<Byte>, order: seq<nat>)
    requires payload != [] && IsFaultList(payload[0]) && Comes(payload, order)
    ensures Joined(Arriving(payload, order)) == [payload[0]] + Blocks(PaddedCodes(CodesOf(payload)), order)
  {
    hide PaddedCodes, FaultFrames, Tails, Blocks;
    var service, codes, frames := payload[0], CodesOf(payload), Arriving(payload, order);
    assert Slice(payload, 2, 2 + |payload|) == codes;
    FaultTails(service, codes, order);
    FaultFrameTail(service, codes, order[0]);
    if |frames| == 1 {
      OneTail(frames[0]);
      assert frames == [frames[0]];
    }
  }

  lemma FrameTotal(service: Byte, codes: seq<Byte>)
    ensures 6 * |FaultFrames(service, codes)| == |PaddedCodes(codes)|
  {
  }

  lemma OneTail(f: seq<Byte>)
    requires f != []
    ensures [f[0]] + Tails([f], 1) == f
  {
    assert [f][..0] == [];
    assert Tails([f], 1) == [] + f[1..];
  }

  // ---- Numbered frames ----

  function Arrived(pid: Byte, data: seq<Byte>, order: seq<nat>): (frames: seq<seq<Byte>>)
    ensures |frames| == |order|
  {
    seq(|order|, i requires 0 <= i < |order| => InfoFrame(pid, data, order[i]))
  }

  predicate Numbered(frames: seq<seq<Byte>>) {
    forall i :: 0 <= i < |frames| ==> |frames[i]| >= 3
  }

  predicate Ascending(frames: seq<seq<Byte>>)
    requires Numbered(frames)
  {
    forall i, j :: 0 <= i < j < |frames| ==> frames[i][2] <= frames[j][2]
  }

  predicate Unique(frames: seq<seq<Byte>>)
    requires Numbered(frames)
  {
    forall i, j :: 0 <= i < j < |frames| ==> frames[i][2] != frames[j][2]
  }

  lemma {:induction false} InsertMembers(sorted: seq<seq<Byte>>, f: seq<Byte>)
    requires Numbered(sorted) && |f| >= 3
    ensures forall x :: x in Insert(sorted, f) <==> x in sorted || x == f
  {
    if !(sorted == [] || sorted[|sorted| - 1][2] <= f[2]) {
      InsertMembers(sorted[..|sorted| - 1], f);
      assert sorted == sorted[..|sorted| - 1] + [sorted[|sorted| - 1]];
    }
  }

  lemma {:induction false} InsertAscending(sorted: seq<seq<Byte>>, f: seq<Byte>)
    requires Numbered(sorted) && Ascending(sorted) && |f| >= 3
    ensures Ascending(Insert(sorted, f))
  {
    if !(sorted == [] || sorted[|sorted| - 1][2] <= f[2]) {
      var init, last := sorted[..|sorted| - 1], sorted[|sorted| - 1];
      InsertAscending(init, f);
      InsertMembers(init, f);
      var r := Insert(init, f);
      forall i | 0 <= i < |r|
        ensures r[i][2] <= last[2]
      {
        assert r[i] in r;
      }
    }
  }

  lemma {:induction false} InsertUnique(sorted: seq<seq<Byte>>, f: seq<Byte>)
    requires Numbered(sorted) && Unique(sorted) && |f| >= 3 && forall i :: 0 <= i < |sorted| ==> sorted[i][2] != f[2]
    ensures Unique(Insert(sorted, f))
  {
    if !(sorted == [] || sorted[|sorted| - 1][2] <= f[2]) {
      var init, last := sorted[..|sorted| - 1], sorted[|sorted| - 1];
      InsertUnique(init, f);
      InsertMembers(init, f);
      var r := Insert(init, f);
      forall i | 0 <= i < |r|
        ensures r[i][2] != last[2]
      {
        assert r[i] in r;
      }
    }
  }

  lemma {:induction false} SortAscending(frames: seq<seq<Byte>>)
    requires Numbered(frames)
    ensures Ascending(SortNumbered(frames))
    ensures forall x :: x in SortNumbered(frames) <==> x in frames
    ensures Unique(frames) ==> Unique(SortNumbered(frames))
  {
    if frames != [] {
      var init, f := frames[..|frames| - 1], frames[|frames| - 1];
      SortAscending(init);
      var rest := SortNumbered(init);
      InsertAscending(rest, f);
      InsertMembers(rest, f);
      assert frames == init + [f];
      if Unique(frames) {
        forall i | 0 <= i < |rest|
          ensures rest[i][2] != f[2]
        {
          assert rest[i] in init;
          var j :| 0 <= j < |init| && init[j] == rest[i];
          assert frames[j] == init[j];
        }
        InsertUnique(rest, f);
      }
    }
  }

  function PaddedInfo(data: seq<Byte>): (p: seq<Byte>)
    ensures |p| == (|data| + 3) / 4 * 4
  {
    data + Zeros((|data| + 3) / 4 * 4 - |data|)
  }

  lemma InfoFrameParts(pid: Byte, data: seq<Byte>, i: nat)
    requires i < (|data| + 3) / 4 && i < 255
    ensures var f := InfoFrame(pid, data, i);
            && f[..2] == [0x49, pid] && f[2] as nat == i + 1 && f[3..] == PaddedInfo(data)[4 * i..4 * i + 4]
  {
  }

  lemma ArrivedParts(pid: Byte, data: seq<Byte>, order: seq<nat>)
    requires (|data| + 3) / 4 <= 255 && Arrival(order, (|data| + 3) / 4)
    ensures Numbered(Arrived(pid, data, order)) && Unique(Arrived(pid, data, order))
    ensures forall i :: 0 <= i < |order| ==> Arrived(pid, data, order)[i][2] as nat == order[i] + 1
    ensures forall i :: 0 <= i < |order| ==> Arrived(pid, data, order)[i][0] == 0x49
  {
    hide InfoFrame, PaddedInfo;
    var frames := Arrived(pid, data, order);
    forall i | 0 <= i < |order|
      ensures |frames[i]| >= 3 && frames[i][2] as nat == order[i] + 1 && frames[i][0] == 0x49
    {
      InfoFrameParts(pid, data, order[i]);
      assert InfoFrame(pid, data, order[i])[..2][0] == 0x49;
    }
    forall i, j | 0 <= i < j < |order|
      ensures frames[i][2] != frames[j][2]
    {
      assert order[i] != order[j];
    }
  }

  /** Whichever frames arrived, in whatever order, the run at the head of the sorted list is the
      frames before the first gap. */
  lemma RunIsPrefix(pid: Byte, data: seq<Byte>, order: seq<nat>)
    requires (|data| + 3) / 4 <= 255 && Arrival(order, (|data| + 3) / 4)
    ensures var sorted := SortNumbered(Arrived(pid, data, order));
            var r := RunLength(sorted, 0);
            && r !in order && (forall k :: 0 <= k < r ==> k in order)
            && (forall k :: 0 <= k < r ==> sorted[k] == InfoFrame(pid, data, k))
  {
    hide InfoFrame;
    var frames := Arrived(pid, data, order);
    ArrivedParts(pid, data, order);
    SortAscending(frames);
    var sorted := SortNumbered(frames);
    var r := RunLength(sorted, 0);
    forall k | 0 <= k < r
      ensures k in order && sorted[k] == InfoFrame(pid, data, k)
    {
      assert sorted[k] in frames;
      var i :| 0 <= i < |frames| && frames[i] == sorted[k];
      assert order[i] == k;
    }
    if r in order {
      var i :| 0 <= i < |order| && order[i] == r;
      assert frames[i] in sorted;
      var q :| 0 <= q < |sorted| && sorted[q] == frames[i];
      forall j | 0 <= j < |sorted|
        ensures sorted[j][2] >= 1
      {
        assert sorted[j] in frames;
      }
      StrictGap(sorted, r, q);
      assert false;
    }
  }

  /** Past the run, every number is past the one the run stopped at. */
  lemma StrictGap(sorted: seq<seq<Byte>>, r: nat, q: nat)
    requires Numbered(sorted) && Ascending(sorted) && Unique(sorted) && q < |sorted|
    requires r == RunLength(sorted, 0)
    requires forall i :: 0 <= i < |sorted| ==> sorted[i][2] >= 1
    ensures sorted[q][2] as nat != r + 1
  {
    if q >= r {
      assert r > 0 ==> sorted[r - 1][2] < sorted[r][2];
    }
  }

  lemma {:induction false} InfoTails(pid: Byte, data: seq<Byte>, frames: seq<seq<Byte>>)
    requires |frames| <= (|data| + 3) / 4 <= 255
    requires forall k :: 0 <= k < |frames| ==> frames[k] == InfoFrame(pid, data, k)
    ensures Tails(frames, 3) == PaddedInfo(data)[..4 * |frames|]
  {
    hide InfoFrame, PaddedInfo;
    if frames != [] {
      var k := |frames| - 1;
      InfoTails(pid, data, frames[..k]);
      InfoFrameParts(pid, data, k);
      var padded := PaddedInfo(data);
      assert padded[..4 * k + 4] == padded[..4 * k] + padded[4 * k..4 * k + 4];
    }
  }

  /** Vehicle information sent in up to 255 numbered frames. If at least two arrive, in any order and
      with any missing, the reply is service, item and exactly the data of the frames before the first
      gap: all of it, zero-filled to whole frames, when none is missing, and nothing when frame one is. */
  lemma NumberedFrames(pid: Byte, data: seq<Byte>, order: seq<nat>, gap: nat)
    requires (|data| + 3) / 4 <= 255 && Arrival(order, (|data| + 3) / 4) && |order| >= 2
    requires gap !in order && forall k :: 0 <= k < gap ==> k in order
    ensures gap <= (|data| + 3) / 4
    ensures (forall i :: 0 <= i < |order| ==> Arrived(pid, data, order)[i] != [])
    ensures Joined(Arrived(pid, data, order)) == if gap == 0 then [] else [0x49, pid] + PaddedInfo(data)[..4 * gap]
  {
    hide InfoFrame, PaddedInfo, Tails, SortNumbered;
    var frames := Arrived(pid, data, order);
    ArrivedParts(pid, data, order);
    RunIsPrefix(pid, data, order);
    var sorted := SortNumbered(frames);
    var r := RunLength(sorted, 0);
    assert r == gap;
    if r > 0 {
      assert r - 1 in order;
      InfoFrameParts(pid, data, 0);
      InfoTails(pid, data, sorted[..r]);
    }
  }

  /** A frame that wrapped to number zero sorts first, and nothing is read. */
  lemma WrappedNumber(pid: Byte, data: seq<Byte>, order: seq<nat>)
    requires 255 in order && |order| >= 2
    ensures (forall i :: 0 <= i < |order| ==> Arrived(pid, data, order)[i] != [])
    ensures Joined(Arrived(pid, data, order)) == []
  {
    hide SortNumbered, Tails, InfoFrame;
    var frames := Arrived(pid, data, order);
    InfoFrameNumber(pid, data, order[0]);
    InfoFrameNumber(pid, data, 255);
    var i :| 0 <= i < |order| && order[i] == 255;
    ZeroFirst(frames, i);
  }

  lemma InfoFrameNumber(pid: Byte, data: seq<Byte>, k: nat)
    ensures InfoFrame(pid, data, k)[0] == 0x49 && InfoFrame(pid, data, k)[2] as nat == (k + 1) % 0x100
  {
  }

  lemma ZeroFirst(frames: seq<seq<Byte>>, i: nat)
    requires Numbered(frames) && i < |frames| && frames[i][2] == 0
    ensures RunLength(SortNumbered(frames), 0) == 0
  {
    hide SortNumbered;
    SortAscending(frames);
    var sorted := SortNumbered(frames);
    assert frames[i] in sorted;
    var q :| 0 <= q < |sorted| && sorted[q] == frames[i];
    assert sorted[0][2] <= sorted[q][2];
  }

  // ---- What a source's frames come to ----

  /** The first position from `k` on that did not arrive. */
  function FirstGap(order: seq<nat>, k: nat, n: nat): (gap: nat)
    requires k <= n
    ensures k <= gap <= n && (forall j :: k <= j < gap ==> j in order)
    ensures gap < n ==> gap !in order
    decreases n - k
  {
    if k < n && k in order then FirstGap(order, k + 1, n) else k
  }

  /** What is read from the frames that arrived: a fault list's codes in the order they came; of numbered
      frames the data before the first gap, or a lone frame as it stands, or nothing once a number has
      wrapped; any other reply as it was sent. */
  function Returned(payload: seq<Byte>, order: seq<nat>): seq<Byte>
    requires payload != [] && Comes(payload, order)
  {
    if IsFaultList(payload[0]) then [payload[0]] + Blocks(PaddedCodes(CodesOf(payload)), order)
    else if IsNumbered(payload) then
      var pid, data := payload[1], InfoData(payload);
      var n := (|data| + 3) / 4;
      var gap := FirstGap(order, 0, n);
      if |order| == 1 then InfoFrame(pid, data, order[0])
      else if n > 255 || gap == 0 then []
      else [0x49, pid] + PaddedInfo(data)[..4 * gap]
    else payload
  }

  /** Joining whichever frames arrived, in whatever order, gives exactly that. */
  lemma JoinedIsReturned(payload: seq<Byte>, order: seq<nat>)
    requires payload != [] && Comes(payload, order)
    ensures Joined(Arriving(payload, order)) == Returned(payload, order)
  {
    hide PaddedInfo, PaddedCodes, Blocks, InfoFrame, InfoData, Joined;
    if IsFaultList(payload[0]) {
      FaultJoined(payload, order);
    } else if IsNumbered(payload) {
      NumberedJoined(payload, order);
    } else {
      PlainJoined(payload, order);
    }
  }

  lemma NumberedJoined(payload: seq<Byte>, order: seq<nat>)
    requires IsNumbered(payload) && Comes(payload, order)
    ensures Joined(Arriving(payload, order)) == Returned(payload, order)
  {
    hide PaddedInfo, InfoFrame, InfoData, SortNumbered, Tails, RunLength;
    var pid, data := payload[1], InfoData(payload);
    var n := (|data| + 3) / 4;
    assert Arriving(payload, order) == Arrived(pid, data, order);
    if |order| > 1 {
      if n > 255 {
        WrappedNumber(pid, data, order);
      } else {
        NumberedFrames(pid, data, order, FirstGap(order, 0, n));
      }
    }
  }

  lemma OnceOnly(order: seq<nat>)
    requires order != [] && Arrival(order, 1)
    ensures |order| == 1
  {
    assert order[|order| - 1] == order[0];
  }

  /** One frame, perhaps several times. */
  lemma PlainJoined(payload: seq<Byte>, order: seq<nat>)
    requires payload != [] && Comes(payload, order) && !IsFaultList(payload[0]) && !IsNumbered(payload)
    ensures Joined(Arriving(payload, order)) == payload
  {
    assert order[0] == 0;
    if !Repeatable(payload) {
      OnceOnly(order);
    }
  }

  /** The reply in the form this bus has for it: codes zero-filled to threes without their count, items
      zero-filled to frames without theirs, anything else unchanged. */
  function Whole(payload: seq<Byte>): seq<Byte>
    requires payload != []
  {
    if IsFaultList(payload[0]) then [payload[0]] + PaddedCodes(CodesOf(payload))
    else if IsNumbered(payload) then [0x49, payload[1]] + PaddedInfo(InfoData(payload))
    else payload
  }

  predicate Complete(payload: seq<Byte>, order: seq<nat>)
    requires payload != []
  {
    Comes(payload, order) && forall k :: 0 <= k < |KLineFrames(payload)| ==> k in order
  }

  predicate Rising(order: seq<nat>) {
    forall i :: 0 <= i < |order| ==> order[i] == i
  }

  /** With every frame there, numbered replies come back whole in whatever order if and only if they
      have two frames at least, or the frame's number stays in the data, and 255 at most, or its number
      wraps. Fault lists come back whole in the order they were sent, other replies always. */
  lemma WholeExactly(payload: seq<Byte>, order: seq<nat>)
    requires payload != [] && Complete(payload, order)
    ensures IsNumbered(payload) ==> (Returned(payload, order) == Whole(payload) <==> 2 <= |KLineFrames(payload)| <= 255)
    ensures IsFaultList(payload[0]) && Rising(order) ==> Returned(payload, order) == Whole(payload)
    ensures !IsNumbered(payload) && !IsFaultList(payload[0]) ==> Returned(payload, order) == Whole(payload)
  {
    hide PaddedInfo, PaddedCodes, Blocks, InfoFrame, InfoData;
    if IsNumbered(payload) {
      NumberedWhole(payload, order);
    } else if IsFaultList(payload[0]) && Rising(order) {
      FaultWhole(payload, order);
    }
  }

  lemma NumberedWhole(payload: seq<Byte>, order: seq<nat>)
    requires IsNumbered(payload) && Complete(payload, order)
    ensures Returned(payload, order) == Whole(payload) <==> 2 <= |KLineFrames(payload)| <= 255
  {
    hide PaddedInfo, InfoFrame, InfoData;
    var data := InfoData(payload);
    var n := |KLineFrames(payload)|;
    assert n == (|data| + 3) / 4 && |PaddedInfo(data)| == 4 * n;
    InfoDataNotEmpty(payload);
    assert FirstGap(order, 0, n) == n;
    if n == 1 {
      OnceOnly(order);
    } else {
      assert 0 in order && 1 in order;
      assert |order| >= 2;
      assert PaddedInfo(data)[..4 * n] == PaddedInfo(data);
    }
  }

  lemma FaultWhole(payload: seq<Byte>, order: seq<nat>)
    requires payload != [] && IsFaultList(payload[0]) && Complete(payload, order) && Rising(order)
    ensures Returned(payload, order) == Whole(payload)
  {
    hide PaddedCodes, Blocks, FaultFrames;
    var n, padded := |KLineFrames(payload)|, PaddedCodes(CodesOf(payload));
    assert Slice(payload, 2, 2 + |payload|) == CodesOf(payload);
    FrameTotal(payload[0], CodesOf(payload));
    assert |order| <= n by {
      assert order[|order| - 1] < n;
    }
    assert |order| >= n by {
      assert n - 1 in order;
    }
    BlocksInOrder(padded, order);
    assert padded[..6 * n] == padded;
  }

  lemma InfoDataNotEmpty(payload: seq<Byte>)
    requires IsNumbered(payload)
    ensures InfoData(payload) != []
  {
  }

  // ---- Whole replies ----

  predicate DistinctSources(replies: seq<LegacyReply>) {
    forall i, j :: 0 <= i < j < |replies| ==> replies[i].source != replies[j].source
  }

  /** Some reply's source, printed. */
  predicate Among(a: string, replies: seq<LegacyReply>) {
    exists k :: 0 <= k < |replies| && a == TwoDigits(replies[k].source)
  }

  predicate AllCome(replies: seq<LegacyReply>, orders: seq<seq<nat>>) {
    |orders| == |replies| && forall k :: 0 <= k < |replies| ==> replies[k].payload != [] && Comes(replies[k].payload, orders[k])
  }

  /** What one source sent, of all its reply's printed lines. */
  ghost predicate Sent(lines: seq<string>, reply: LegacyReply, spaces: bool, order: seq<nat>) {
    && reply.payload != [] && Comes(reply.payload, order)
    && OwnText(lines, TwoDigits(reply.source)) == InOrder(LegacyLines(reply, true, spaces), order)
  }

  /** Lines in which each of these sources sent some of its reply, in its own order, and no other sent
      anything. How the sources are interleaved, and what noise stands between, does not matter. */
  ghost predicate AllSent(lines: seq<string>, replies: seq<LegacyReply>, spaces: bool, orders: seq<seq<nat>>) {
    && AllCome(replies, orders) && DistinctSources(replies)
    && (forall k :: 0 <= k < |replies| ==> Sent(lines, replies[k], spaces, orders[k]))
    && (forall a: string :: OwnText(lines, a) != [] ==> Among(a, replies))
  }

  lemma FramesSent(lines: seq<string>, reply: LegacyReply, spaces: bool, order: seq<nat>)
    requires Sent(lines, reply, spaces, order)
    ensures OwnFrames(lines, TwoDigits(reply.source)) == Arriving(reply.payload, order)
  {
    hide DecodeLegacy, LegacyLine, KLineFrames, OwnText, OwnFrames, TwoDigits;
    var a := TwoDigits(reply.source);
    FramesOfText(lines, a);
    var frames, text := KLineFrames(reply.payload), OwnText(lines, a);
    forall i | 0 <= i < |order|
      ensures OwnFrames(lines, a)[i] == frames[order[i]]
    {
      FramesNotEmpty(reply.payload, order[i]);
      assert text[i] == LegacyLine(reply.source, frames[order[i]], true, spaces);
      DecodeLegacyLine(reply.source, frames[order[i]], spaces);
    }
  }

  /** A source's message. */
  function JoinedMessage(reply: LegacyReply, spaces: bool, order: seq<nat>): EcuMessage
    requires reply.payload != [] && Comes(reply.payload, order)
  {
    EcuMessage(TwoDigits(reply.source), Returned(reply.payload, order), InOrder(LegacyLines(reply, true, spaces), order), None)
  }

  lemma MessageSent(out: seq<EcuMessage>, lines: seq<string>, reply: LegacyReply, spaces: bool, order: seq<nat>) returns (i: nat)
    requires IsLegacyListing(out, lines) && Sent(lines, reply, spaces, order)
    ensures i < |out| && out[i] == JoinedMessage(reply, spaces, order)
  {
    hide OwnText, OwnFrames, TwoDigits, Returned, Less, LegacyLines, Joined, Comes;
    FramesSent(lines, reply, spaces, order);
    JoinedIsReturned(reply.payload, order);
    SomethingSent(reply.payload, order);
    i :| 0 <= i < |out| && out[i].address == TwoDigits(reply.source);
  }

  lemma SomethingSent(payload: seq<Byte>, order: seq<nat>)
    requires payload != [] && Comes(payload, order)
    ensures |Arriving(payload, order)| > 0
  {
  }

  lemma SourcesDiffer(a: Byte, b: Byte)
    requires a != b
    ensures TwoDigits(a) != TwoDigits(b)
  {
    ByteOfTwoDigits(a);
    ByteOfTwoDigits(b);
  }

  function MessageAt(replies: seq<LegacyReply>, spaces: bool, orders: seq<seq<nat>>, k: nat): EcuMessage
    requires AllCome(replies, orders) && k < |replies|
  {
    JoinedMessage(replies[k], spaces, orders[k])
  }

  /** The K-line round trip, whatever arrives: exactly one message for each source that sent anything,
      in address order, holding what its frames come to and its lines. */
  lemma PrintedLegacyAssembles(out: seq<EcuMessage>, lines: seq<string>, replies: seq<LegacyReply>, spaces: bool, orders: seq<seq<nat>>)
    requires IsLegacyListing(out, lines) && AllSent(lines, replies, spaces, orders)
    ensures forall k :: 0 <= k < |replies| ==> MessageAt(replies, spaces, orders, k) in out
    ensures forall i :: 0 <= i < |out| ==> exists k :: 0 <= k < |replies| && out[i] == MessageAt(replies, spaces, orders, k)
    ensures forall k, l :: 0 <= k < l < |replies| ==> MessageAt(replies, spaces, orders, k).address != MessageAt(replies, spaces, orders, l).address
  {
    hide IsLegacyListing, Sent, JoinedMessage, TwoDigits, Comes;
    forall k | 0 <= k < |replies|
      ensures MessageAt(replies, spaces, orders, k) in out
    {
      var i := MessageSent(out, lines, replies[k], spaces, orders[k]);
    }
    forall i | 0 <= i < |out|
      ensures exists k :: 0 <= k < |replies| && out[i] == MessageAt(replies, spaces, orders, k)
    {
      var k := SenderOf(out, lines, replies, spaces, orders, i);
    }
    forall k, l | 0 <= k < l < |replies|
      ensures MessageAt(replies, spaces, orders, k).address != MessageAt(replies, spaces, orders, l).address
    {
      AddressesDiffer(replies, spaces, orders, k, l);
    }
  }

  lemma AddressesDiffer(replies: seq<LegacyReply>, spaces: bool, orders: seq<seq<nat>>, k: nat, l: nat)
    requires AllCome(replies, orders) && DistinctSources(replies) && k < l < |replies|
    ensures MessageAt(replies, spaces, orders, k).address != MessageAt(replies, spaces, orders, l).address
  {
    hide Comes, TwoDigits, Returned, LegacyLines;
    SourcesDiffer(replies[k].source, replies[l].source);
  }

  lemma SenderOf(out: seq<EcuMessage>, lines: seq<string>, replies: seq<LegacyReply>, spaces: bool, orders: seq<seq<nat>>, i: nat) returns (k: nat)
    requires IsLegacyListing(out, lines) && AllSent(lines, replies, spaces, orders) && i < |out|
    ensures k < |replies| && out[i] == MessageAt(replies, spaces, orders, k)
  {
    hide OwnText, OwnFrames, TwoDigits, Returned, Less, Joined, Comes, JoinedMessage, Sent;
    assert OwnText(lines, out[i].address) != [];
    k :| 0 <= k < |replies| && out[i].address == TwoDigits(replies[k].source);
    var j := MessageSent(out, lines, replies[k], spaces, orders[k]);
    AddressOf(replies[k], spaces, orders[k]);
    SameAddress(out, lines, i, j);
  }

  lemma AddressOf(reply: LegacyReply, spaces: bool, order: seq<nat>)
    requires reply.payload != [] && Comes(reply.payload, order)
    ensures JoinedMessage(reply, spaces, order).address == TwoDigits(reply.source)
  {
  }

  lemma SameAddress(out: seq<EcuMessage>, lines: seq<string>, i: nat, j: nat)
    requires IsLegacyListing(out, lines) && i < |out| && j < |out| && out[i].address == out[j].address
    ensures out[i] == out[j]
  {
  }
}

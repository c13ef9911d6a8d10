/** What is kept of a segmented message that lost frames (`assemble_can_keeping_partial`,
    core/adapter/src/elm327.rs). */
module Partial {
  import opened Wrappers
  import opened Hex
  import opened EcuReplies
  import opened Can
  import opened IsoTp
  import opened Assemble
  import opened Interleaving
  import opened WireRoundTrip

  /** A message that takes more than one frame. */
  predicate Segmented(reply: EcuReply) {
    8 <= |reply.payload| <= MAX_CLASSIC_LENGTH
  }

  /** The message's frames without the `j` from the `k`th on; the first frame arrived. */
  function Surviving(reply: EcuReply, spaces: bool, k: nat, j: nat): seq<Piece>
    requires k + j <= FrameCount(reply.payload)
  {
    ReplyPieces(reply, spaces)[..k] + ReplyPieces(reply, spaces)[k + j..]
  }

  /** A run lost at the end, or one whose length the four-bit sequence number can tell. */
  predicate Noticed(reply: EcuReply, k: nat, j: nat) {
    k + j == FrameCount(reply.payload) || j % 16 != 0
  }

  lemma SurvivingAt(reply: EcuReply, spaces: bool, k: nat, j: nat, m: nat)
    requires k + j <= FrameCount(reply.payload) && k <= m < FrameCount(reply.payload) - j
    ensures |Surviving(reply, spaces, k, j)| == FrameCount(reply.payload) - j
    ensures Surviving(reply, spaces, k, j)[m].data == FrameData(reply, m + j)
  {
    hide FrameData, FrameLine;
    assert Surviving(reply, spaces, k, j)[m] == ReplyPieces(reply, spaces)[m + j];
  }

  lemma SurvivingPrefix(reply: EcuReply, spaces: bool, k: nat, j: nat)
    requires Segmented(reply) && 1 <= k && k + j <= FrameCount(reply.payload) && k < FrameCount(reply.payload)
    ensures FoldPieces(Surviving(reply, spaces, k, j)[..k], true) == Success(Underway(reply, ReplyLines(reply, true, spaces)[..k], k))
  {
    hide FoldPieces, Underway, ReplyPieces, ReplyLines;
    assert Surviving(reply, spaces, k, j)[..k] == ReplyPieces(reply, spaces)[..k];
    FoldUnderway(reply, spaces, true, k);
  }

  // ---- A gap the sequence number shows ----

  lemma StepGap(reply: EcuReply, lines: seq<string>, line: string, k: nat, i: nat)
    requires Segmented(reply) && 1 <= k < i < FrameCount(reply.payload) && k % 16 != i % 16
    ensures var st := StepStream(Underway(reply, lines, k), line, FrameData(reply, i), true);
            st.Success? && st.value.cut == Some(CutAt(After(reply.payload, k))) && !st.value.rx.active
  {
    hide ParseFrame, Encode;
    var n := NextWire(reply.payload, i);
  }

  lemma {:induction false} BrokenStays(pieces: seq<Piece>, k: nat, i: nat, st: Stream)
    requires k <= i <= |pieces| && FoldPieces(pieces[..k], true) == Success(st) && st.cut.Some?
    ensures FoldPieces(pieces[..i], true) == Success(st)
  {
    if k < i {
      BrokenStays(pieces, k, i - 1, st);
      FoldTake(pieces, i - 1, true);
    }
  }

  lemma RunsDiffer(k: nat, j: nat)
    requires j % 16 != 0
    ensures k % 16 != (k + j) % 16
  {
  }

  lemma LostNoticed(reply: EcuReply, spaces: bool, k: nat, j: nat) returns (st: Stream)
    requires Segmented(reply) && 1 <= k && 1 <= j && k + j <= FrameCount(reply.payload) && Noticed(reply, k, j)
    ensures FoldPieces(Surviving(reply, spaces, k, j), true) == Success(st)
    ensures WasCut(st, true) && Settle(st, true) == Some(CutAt(After(reply.payload, k)))
  {
    if k + j == FrameCount(reply.payload) {
      st := LostTail(reply, spaces, k, j);
    } else {
      st := LostMiddle(reply, spaces, k, j);
    }
  }

  lemma LostTail(reply: EcuReply, spaces: bool, k: nat, j: nat) returns (st: Stream)
    requires Segmented(reply) && 1 <= k && 1 <= j && k + j == FrameCount(reply.payload)
    ensures FoldPieces(Surviving(reply, spaces, k, j), true) == Success(st)
    ensures WasCut(st, true) && Settle(st, true) == Some(CutAt(After(reply.payload, k)))
  {
    hide StepStream, FrameData, After, ReplyLines, FoldPieces;
    var pieces, lines := Surviving(reply, spaces, k, j), ReplyLines(reply, true, spaces);
    SurvivingPrefix(reply, spaces, k, j);
    assert pieces[..k] == pieces;
    st := Underway(reply, lines[..k], k);
    ActiveAfter(reply.payload, k);
  }

  lemma LostMiddle(reply: EcuReply, spaces: bool, k: nat, j: nat) returns (st: Stream)
    requires Segmented(reply) && 1 <= k && 1 <= j && k + j < FrameCount(reply.payload) && j % 16 != 0
    ensures FoldPieces(Surviving(reply, spaces, k, j), true) == Success(st)
    ensures WasCut(st, true) && Settle(st, true) == Some(CutAt(After(reply.payload, k)))
  {
    hide StepStream, FrameData, After, ReplyLines, FoldPieces, Underway;
    var pieces, lines := Surviving(reply, spaces, k, j), ReplyLines(reply, true, spaces);
    SurvivingPrefix(reply, spaces, k, j);
    RunsDiffer(k, j);
    SurvivingAt(reply, spaces, k, j, k);
    StepGap(reply, lines[..k], pieces[k].line, k, k + j);
    FoldTake(pieces, k, true);
    st := FoldPieces(pieces[..k + 1], true).value;
    BrokenStays(pieces, k + 1, |pieces|, st);
    assert pieces[..|pieces|] == pieces;
  }

  lemma ActiveAfter(payload: seq<Byte>, k: nat)
    requires k >= 1
    ensures After(payload, k).active
  {
  }

  // ---- A gap of sixteen, which it does not ----

  /** The receiver after frames `k + j` up to `i` have been taken for frames `k` and on. */
  function Spliced(payload: seq<Byte>, k: nat, j: nat, i: nat): Receiver
    requires 1 <= k && k + j <= i
  {
    FRESH.(buffer := payload[..Carried(payload, k)] + Between(payload, k + j, i), expectedLength := |payload|,
           nextSequence := i % 16, active := true, framesSinceFc := ((i - j - 1) % 0x100) as Byte)
  }

  /** The bytes frames `from` to `to` carry. */
  function Between(payload: seq<Byte>, from: nat, to: nat): (b: seq<Byte>) {
    if Carried(payload, from) <= Carried(payload, to) then payload[Carried(payload, from)..Carried(payload, to)] else []
  }

  lemma SplicedStart(payload: seq<Byte>, k: nat, j: nat)
    requires 1 <= k && j % 16 == 0
    ensures Spliced(payload, k, j, k + j) == After(payload, k)
  {
    assert (k + j) % 16 == k % 16;
    assert Between(payload, k + j, k + j) == [];
    assert payload[..Carried(payload, k)] + [] == payload[..Carried(payload, k)];
  }

  lemma FeedSpliced(payload: seq<Byte>, k: nat, j: nat, i: nat)
    requires |payload| >= 8 && 1 <= k && 1 <= j && k + j <= i && i + 1 < FrameCount(payload)
    ensures Feed(Spliced(payload, k, j, i), Padded(FrameAt(payload, i), 0)) == (Spliced(payload, k, j, i + 1), NeedMore)
  {
    var rx, data := Spliced(payload, k, j, i), payload[Carried(payload, i)..Carried(payload, i + 1)];
    SplicedBuffer(payload, k, j, i);
    hide Feed;
    assert data + Zeros(0) == data;
    FeedData(rx, i % 16, data);
    CountersMove(i);
    CountersMove(i - j);
  }

  /** The frame's bytes go on the end, and bytes are still missing. */
  lemma SplicedBuffer(payload: seq<Byte>, k: nat, j: nat, i: nat)
    requires |payload| >= 8 && 1 <= k && 1 <= j && k + j <= i && i + 1 < FrameCount(payload)
    ensures Carried(payload, i) <= Carried(payload, i + 1)
    ensures var data := payload[Carried(payload, i)..Carried(payload, i + 1)];
            && FrameAt(payload, i) == Consecutive(i % 16, data)
            && Spliced(payload, k, j, i).buffer + data == Spliced(payload, k, j, i + 1).buffer
            && |Spliced(payload, k, j, i).buffer| + |data| < |payload|
  {
    FrameSizes(payload, i);
    FrameSizes(payload, k);
    FrameSizes(payload, k + j);
    var data := payload[Carried(payload, i)..Carried(payload, i + 1)];
    SplicedLength(payload, k, j, i);
    assert Between(payload, k + j, i) + data == Between(payload, k + j, i + 1);
    assert payload[..Carried(payload, k)] + (Between(payload, k + j, i) + data) == (payload[..Carried(payload, k)] + Between(payload, k + j, i)) + data;
  }

  lemma SplicedLength(payload: seq<Byte>, k: nat, j: nat, i: nat)
    requires |payload| >= 8 && 1 <= k && 1 <= j && k + j <= i <= FrameCount(payload) && k < FrameCount(payload)
    ensures |Spliced(payload, k, j, i).buffer| == Carried(payload, i) - 7 * j || (k + j == FrameCount(payload) == i)
    ensures |Spliced(payload, k, j, i).buffer| >= Carried(payload, k)
  {
    FrameSizes(payload, k);
    if i < FrameCount(payload) {
      FrameSizes(payload, i);
    }
    if k + j < FrameCount(payload) {
      FrameSizes(payload, k + j);
    }
  }

  lemma LastRoom(payload: seq<Byte>, k: nat, j: nat)
    requires 8 <= |payload| && 1 <= k && 1 <= j && k + j < FrameCount(payload)
    ensures var i := FrameCount(payload) - 1;
            && Carried(payload, k) <= |Spliced(payload, k, j, i).buffer| < |payload| - 7
            && Carried(payload, k) < Carried(payload, k + j) <= Carried(payload, i) < Carried(payload, i + 1) == |payload|
            && Carried(payload, i + 1) <= Carried(payload, i) + 7
  {
    var i := FrameCount(payload) - 1;
    FrameSizes(payload, i);
    FrameSizes(payload, k);
    FrameSizes(payload, k + j);
    SplicedLength(payload, k, j, i);
  }

  /** The last frame is taken with its padding: the message is still short. */
  lemma FeedSplicedLast(payload: seq<Byte>, k: nat, j: nat, n: nat)
    requires 8 <= |payload| && 1 <= k && 1 <= j && k + j < FrameCount(payload) && n <= 7
    requires var i := FrameCount(payload) - 1; n == 7 - (|payload| - Carried(payload, i))
    ensures var (rx, outcome) := Feed(Spliced(payload, k, j, FrameCount(payload) - 1), Padded(FrameAt(payload, FrameCount(payload) - 1), n));
            && outcome == NeedMore && rx.active && rx.expectedLength == |payload|
            && rx.buffer == payload[..Carried(payload, k)] + payload[Carried(payload, k + j)..] + Zeros(n)
            && Carried(payload, k) < |rx.buffer| < |payload|
  {
    hide Feed, Carried;
    var i := FrameCount(payload) - 1;
    var rx := Spliced(payload, k, j, i);
    LastRoom(payload, k, j);
    var data := payload[Carried(payload, i)..Carried(payload, i + 1)] + Zeros(n);
    FeedData(rx, i % 16, data);
    assert Between(payload, k + j, i) + payload[Carried(payload, i)..Carried(payload, i + 1)] == payload[Carried(payload, k + j)..];
    assert rx.buffer + data == payload[..Carried(payload, k)] + payload[Carried(payload, k + j)..] + Zeros(n);
  }

  /** How far into the surviving frames a message spliced over a gap of sixteens has come. */
  lemma {:induction false} FoldSpliced(reply: EcuReply, spaces: bool, k: nat, j: nat, i: nat)
    requires Segmented(reply) && 1 <= k && 1 <= j && j % 16 == 0 && k + j <= i < FrameCount(reply.payload)
    ensures var st := FoldPieces(Surviving(reply, spaces, k, j)[..i - j], true);
            st.Success? && st.value.rx == Spliced(reply.payload, k, j, i) && st.value.cut.None?
  {
    hide StepStream, FrameData, Spliced, ReplyLines, FoldPieces, Surviving;
    var pieces := Surviving(reply, spaces, k, j);
    if i == k + j {
      SurvivingPrefix(reply, spaces, k, j);
      SplicedStart(reply.payload, k, j);
      assert i - j == k;
    } else {
      var m := i - 1 - j;
      SurvivingAt(reply, spaces, k, j, m);
      FoldSpliced(reply, spaces, k, j, i - 1);
      FoldTake(pieces, m, true);
      StepSpliced(reply, FoldPieces(pieces[..m], true).value, pieces[m].line, k, j, i - 1);
    }
  }

  lemma StepSpliced(reply: EcuReply, st: Stream, line: string, k: nat, j: nat, i: nat)
    requires Segmented(reply) && 1 <= k && 1 <= j && k + j <= i && i + 1 < FrameCount(reply.payload)
    requires st.rx == Spliced(reply.payload, k, j, i) && st.cut.None?
    ensures var next := StepStream(st, line, FrameData(reply, i), true);
            next.Success? && next.value.rx == Spliced(reply.payload, k, j, i + 1) && next.value.cut.None?
  {
    hide ParseFrame, Encode, Feed, Spliced, FrameAt;
    var n := NextWire(reply.payload, i);
    FeedSpliced(reply.payload, k, j, i);
  }

  lemma LastWire(payload: seq<Byte>) returns (n: nat)
    requires 8 <= |payload| <= MAX_CLASSIC_LENGTH
    ensures n <= 7 && n == 7 - (|payload| - Carried(payload, FrameCount(payload) - 1))
    ensures ParseFrame(Encode(FrameAt(payload, FrameCount(payload) - 1), 8)) == Success(Padded(FrameAt(payload, FrameCount(payload) - 1), n))
  {
    var i := FrameCount(payload) - 1;
    var frame := FrameAt(payload, i);
    FrameSizes(payload, i);
    n := 7 - |frame.data|;
    assert Encode(frame, 8)[1..] == frame.data + Zeros(n);
  }

  lemma LostUnnoticed(reply: EcuReply, spaces: bool, k: nat, j: nat) returns (st: Stream)
    requires Segmented(reply) && 1 <= k && 1 <= j && k + j < FrameCount(reply.payload) && j % 16 == 0
    ensures FoldPieces(Surviving(reply, spaces, k, j), true) == Success(st)
    ensures st.rx.active && st.rx.expectedLength == |reply.payload| && Carried(reply.payload, k) < |st.rx.buffer| < |reply.payload|
    ensures reply.payload[..Carried(reply.payload, k)] + reply.payload[Carried(reply.payload, k + j)..] <= st.rx.buffer
  {
    hide StepStream, FrameData, Spliced, ReplyLines, FoldPieces, Surviving;
    var pieces, last := Surviving(reply, spaces, k, j), FrameCount(reply.payload) - 1;
    var m := last - j;
    SurvivingAt(reply, spaces, k, j, m);
    FoldSpliced(reply, spaces, k, j, last);
    FoldTake(pieces, m, true);
    assert pieces[..m + 1] == pieces;
    StepSplicedLast(reply, FoldPieces(pieces[..m], true).value, pieces[m].line, k, j);
    st := FoldPieces(pieces, true).value;
  }

  lemma StepSplicedLast(reply: EcuReply, st: Stream, line: string, k: nat, j: nat)
    requires Segmented(reply) && 1 <= k && 1 <= j && k + j < FrameCount(reply.payload)
    requires st.rx == Spliced(reply.payload, k, j, FrameCount(reply.payload) - 1) && st.cut.None?
    ensures var next := StepStream(st, line, FrameData(reply, FrameCount(reply.payload) - 1), true);
            && next.Success? && next.value.rx.active && next.value.rx.expectedLength == |reply.payload|
            && Carried(reply.payload, k) < |next.value.rx.buffer| < |reply.payload|
            && reply.payload[..Carried(reply.payload, k)] + reply.payload[Carried(reply.payload, k + j)..] <= next.value.rx.buffer
  {
    hide ParseFrame, Encode, Feed, Spliced, FrameAt;
    var n := LastWire(reply.payload);
    FeedSplicedLast(reply.payload, k, j, n);
  }

  // ---- The theorem ----

  /** Any run of frames after the first can be lost, in the middle or at the end. The form that keeps
      partial messages never fails on it and never passes the message off as whole: it is marked cut
      off, with the announced length and a smaller received one. What it holds is exactly the bytes
      before the loss if and only if the run reaches the end or its length is not a multiple of
      sixteen; otherwise the frames after the gap are joined on as if nothing were missing. */
  lemma LostFrames(reply: EcuReply, spaces: bool, k: nat, j: nat)
    requires Segmented(reply) && 1 <= k && 1 <= j && k + j <= FrameCount(reply.payload)
    ensures var st := FoldPieces(Surviving(reply, spaces, k, j), true);
            && st.Success? && Settle(st.value, true).Some? && WasCut(st.value, true)
            && var kept := Settle(st.value, true).value;
            && kept.cutOff == CutOff(|reply.payload|, |kept.payload|)
            && |kept.payload| < |reply.payload|
            && (kept.payload == reply.payload[..Carried(reply.payload, k)] <==> Noticed(reply, k, j))
  {
    hide FoldPieces, Surviving;
    FrameSizes(reply.payload, k);
    if Noticed(reply, k, j) {
      var st := LostNoticed(reply, spaces, k, j);
    } else {
      var st := LostUnnoticed(reply, spaces, k, j);
    }
  }

  /** The same in a whole reply, beside whatever the other modules sent and however interleaved. */
  lemma LostFramesInReply(lines: seq<string>, how: Reading, reply: EcuReply, spaces: bool, k: nat, j: nat)
    requires Segmented(reply) && 1 <= k && 1 <= j && k + j <= FrameCount(reply.payload)
    requires OwnPieces(lines, reply.Address(), how) == Surviving(reply, spaces, k, j)
    requires Assembly(lines, how, true).Success?
    ensures var all := Assembly(lines, how, true).value;
            && reply.Address() in all
            && var m := all[reply.Address()];
            && m.cutOff == Some(CutOff(|reply.payload|, |m.payload|)) && |m.payload| < |reply.payload|
            && (m.payload == reply.payload[..Carried(reply.payload, k)] <==> Noticed(reply, k, j))
  {
    hide FoldPieces, FoldLines, OwnPieces, EcuReply.Id;
    LostFrames(reply, spaces, k, j);
    Projection(lines, how, true, reply.Address());
    assert |Surviving(reply, spaces, k, j)| >= k;
  }

  lemma FirstIsOrphan(reply: EcuReply, spaces: bool, j: nat, keepPartial: bool)
    requires Segmented(reply) && 1 <= j < FrameCount(reply.payload)
    ensures |Surviving(reply, spaces, 0, j)| >= 1 && FoldPieces(Surviving(reply, spaces, 0, j)[..1], keepPartial) == Failure(IsoTpError)
  {
    hide StepStream, FrameData, Surviving;
    var pieces := Surviving(reply, spaces, 0, j);
    SurvivingAt(reply, spaces, 0, j, 0);
    FoldTake(pieces, 0, keepPartial);
    assert pieces[..0] == [];
    OrphanFrame(reply, pieces[0].line, j, keepPartial);
  }

  lemma {:induction false} StaysFailed(pieces: seq<Piece>, i: nat, keepPartial: bool)
    requires i <= |pieces| && FoldPieces(pieces[..i], keepPartial).Failure?
    ensures FoldPieces(pieces, keepPartial).Failure?
    decreases |pieces| - i
  {
    hide StepStream, FoldPieces;
    if i == |pieces| {
      assert pieces[..i] == pieces;
    } else {
      FoldTake(pieces, i, keepPartial);
      StaysFailed(pieces, i + 1, keepPartial);
    }
  }

  /** With the first frame lost what follows belongs to no message: a reply that holds such a module is
      refused whole, in both forms, whatever the other modules sent and however interleaved. */
  lemma LostFirstFrame(lines: seq<string>, how: Reading, reply: EcuReply, spaces: bool, j: nat, keepPartial: bool)
    requires Segmented(reply) && 1 <= j < FrameCount(reply.payload)
    requires OwnPieces(lines, reply.Address(), how) == Surviving(reply, spaces, 0, j)
    ensures Assembly(lines, how, keepPartial).Failure?
  {
    hide FoldPieces, FoldLines, OwnPieces, Surviving, EcuReply.Id;
    FirstIsOrphan(reply, spaces, j, keepPartial);
    StaysFailed(OwnPieces(lines, reply.Address(), how), 1, keepPartial);
    if Fold(lines, how, keepPartial).Success? {
      Projection(lines, how, keepPartial, reply.Address());
      assert false;
    }
  }

  lemma OrphanFrame(reply: EcuReply, line: string, j: nat, keepPartial: bool)
    requires Segmented(reply) && 1 <= j < FrameCount(reply.payload)
    ensures StepStream(NOTHING, line, FrameData(reply, j), keepPartial) == Failure(IsoTpError)
  {
    hide ParseFrame, Encode;
    WireFrame(reply.payload, j);
  }

  // ---- The frame counter ----

  /** Whether some frame finds the receiver's eight-bit frame count at its largest and adds to it. */
  predicate CounterOverflows(payload: seq<Byte>) {
    exists i :: 1 <= i < FrameCount(payload) - 1 && After(payload, i).framesSinceFc == 0xFF
  }

  /** The count overflows exactly for messages over 1798 bytes. Wrapping does no harm, but a build
      that checks arithmetic stops there. */
  lemma CounterOverflowsExactly(payload: seq<Byte>)
    requires |payload| >= 8
    ensures CounterOverflows(payload) <==> |payload| > 1798
  {
    if |payload| > 1798 {
      assert FrameCount(payload) >= 258;
      assert After(payload, 256).framesSinceFc == 0xFF;
    }
  }
}

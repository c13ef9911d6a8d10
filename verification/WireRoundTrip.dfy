/** From module replies to adapter text and back: what the emulator prints (simulator/src/elm.rs)
    the adapter reassembles. */
module WireRoundTrip {
  import opened Wrappers
  import opened Hex
  import opened EcuReplies
  import opened Can
  import opened IsoTp
  import opened Protocols
  import opened FrameText
  import opened Assemble
  import opened Interleaving

  function FrameData(reply: EcuReply, i: nat): seq<Byte> {
    Encode(FrameAt(reply.payload, i), 8)
  }

  function FrameLine(reply: EcuReply, headers: bool, spaces: bool, i: nat): string {
    LineText(reply.Id(), FrameData(reply, i), headers, spaces)
  }

  /** One line a frame. */
  function ReplyLines(reply: EcuReply, headers: bool, spaces: bool): (lines: seq<string>)
    ensures |lines| == FrameCount(reply.payload)
  {
    seq(FrameCount(reply.payload), i requires 0 <= i < FrameCount(reply.payload) => FrameLine(reply, headers, spaces, i))
  }

  /** The replies one after another. */
  function AllLines(replies: seq<EcuReply>, headers: bool, spaces: bool): seq<string> {
    if replies == [] then []
    else AllLines(replies[..|replies| - 1], headers, spaces) + ReplyLines(replies[|replies| - 1], headers, spaces)
  }

  /** The printing loops at the end of `handle_obd`. */
  method PrintReplies(replies: seq<EcuReply>, headers: bool, spaces: bool) returns (lines: seq<string>)
    ensures lines == AllLines(replies, headers, spaces)
  {
    lines := [];
    for i := 0 to |replies|
      invariant lines == AllLines(replies[..i], headers, spaces)
    {
      assert replies[..i + 1][..i] == replies[..i];
      var own := PrintReply(replies[i], headers, spaces);
      lines := lines + own;
    }
    assert replies[..|replies|] == replies;
  }

  method PrintReply(reply: EcuReply, headers: bool, spaces: bool) returns (lines: seq<string>)
    ensures lines == ReplyLines(reply, headers, spaces)
  {
    hide LineText, Encode, FrameAt;
    var frames := Segment(reply.payload);
    lines := [];
    for i := 0 to |frames|
      invariant |lines| == i
      invariant forall k :: 0 <= k < i ==> lines[k] == FrameLine(reply, headers, spaces, k)
    {
      var line := FormatFrame(reply.Id(), Encode(frames[i], 8), headers, spaces);
      lines := lines + [line];
    }
  }

  // ---- One module ----

  /** Bytes a twelve-bit length can announce, an identifier its width holds, and the protocol's width. */
  predicate Deliverable(reply: EcuReply, protocol: ObdProtocol) {
    && 1 <= |reply.payload| <= MAX_CLASSIC_LENGTH
    && Addressed(reply, protocol)
  }

  predicate Addressed(reply: EcuReply, protocol: ObdProtocol) {
    reply.responseId < 0x1_0000_0000 && WidthMatches(reply.Id(), protocol)
  }

  function ReplyPieces(reply: EcuReply, spaces: bool): (pieces: seq<Piece>)
    ensures |pieces| == FrameCount(reply.payload)
  {
    seq(FrameCount(reply.payload), i requires 0 <= i < FrameCount(reply.payload) =>
      Piece(FrameLine(reply, true, spaces, i), FrameData(reply, i)))
  }

  lemma DecodeFrameLine(reply: EcuReply, spaces: bool, how: Reading, i: nat)
    requires Deliverable(reply, how.protocol) && i < FrameCount(reply.payload)
    ensures Decode(FrameLine(reply, true, spaces, i), how.spaces, how.protocol) == Success(Decoded(reply.Address(), FrameData(reply, i)))
  {
    hide LineText, Decode, Encode;
    WireFrame(reply.payload, i);
    DecodeLine(reply.Id(), FrameData(reply, i), spaces, how.spaces, how.protocol);
  }

  /** A module's printed lines are its own and nobody else's. */
  lemma {:induction false} OwnReply(reply: EcuReply, spaces: bool, how: Reading, a: string, k: nat)
    requires Deliverable(reply, how.protocol) && k <= FrameCount(reply.payload)
    ensures OwnPieces(ReplyLines(reply, true, spaces)[..k], a, how) == if a == reply.Address() then ReplyPieces(reply, spaces)[..k] else []
  {
    hide Decode, FrameLine, FrameData;
    if k > 0 {
      var lines := ReplyLines(reply, true, spaces);
      assert lines[..k][..k - 1] == lines[..k - 1];
      OwnReply(reply, spaces, how, a, k - 1);
      DecodeFrameLine(reply, spaces, how, k - 1);
      assert ReplyPieces(reply, spaces)[..k] == ReplyPieces(reply, spaces)[..k - 1] + [ReplyPieces(reply, spaces)[k - 1]];
    }
  }

  /** A segmented message on the way: the first `k` frames have arrived. */
  function Underway(reply: EcuReply, lines: seq<string>, k: nat): Stream
    requires k >= 1
  {
    Stream(After(reply.payload, k), lines, None, None)
  }

  lemma {:induction false} FoldUnderway(reply: EcuReply, spaces: bool, keepPartial: bool, k: nat)
    requires 8 <= |reply.payload| <= MAX_CLASSIC_LENGTH && 1 <= k < FrameCount(reply.payload)
    ensures FoldPieces(ReplyPieces(reply, spaces)[..k], keepPartial) == Success(Underway(reply, ReplyLines(reply, true, spaces)[..k], k))
  {
    hide FrameLine, StepStream, After, Encode, FrameAt;
    var pieces, lines := ReplyPieces(reply, spaces), ReplyLines(reply, true, spaces);
    FoldTake(pieces, k - 1, keepPartial);
    assert lines[..k] == lines[..k - 1] + [lines[k - 1]];
    if k == 1 {
      assert pieces[..0] == [];
      StepFirst(NOTHING, lines[0], reply.payload, keepPartial);
    } else {
      FoldUnderway(reply, spaces, keepPartial, k - 1);
      StepNext(reply, lines[..k - 1], lines[k - 1], keepPartial, k - 1);
    }
  }

  /** A first frame starts a message on a stream at rest. */
  lemma StepFirst(st: Stream, line: string, payload: seq<Byte>, keepPartial: bool)
    requires 8 <= |payload| <= MAX_CLASSIC_LENGTH && st.cut.None? && st.rx.Reset() == FRESH
    ensures StepStream(st, line, Encode(FrameAt(payload, 0), 8), keepPartial)
         == Success(st.(rx := After(payload, 1), raw := st.raw + [line]))
  {
    hide Feed, ParseFrame, Encode;
    FirstWire(payload);
    FeedFirst(st.rx, payload, 0);
  }

  lemma FirstWire(payload: seq<Byte>)
    requires 8 <= |payload| <= MAX_CLASSIC_LENGTH
    ensures ParseFrame(Encode(FrameAt(payload, 0), 8)) == Success(Padded(FrameAt(payload, 0), 0))
  {
    var frame := FrameAt(payload, 0);
    assert Encode(frame, 8)[2..] == frame.data + Zeros(0);
  }

  /** How a consecutive frame reads: padded only if it is the last. */
  lemma NextWire(payload: seq<Byte>, i: nat) returns (n: nat)
    requires 8 <= |payload| <= MAX_CLASSIC_LENGTH && 1 <= i < FrameCount(payload)
    ensures ParseFrame(Encode(FrameAt(payload, i), 8)) == Success(Padded(FrameAt(payload, i), n))
    ensures i + 1 < FrameCount(payload) ==> n == 0
  {
    var frame := FrameAt(payload, i);
    FrameSizes(payload, i);
    n := 7 - |frame.data|;
    assert Encode(frame, 8)[1..] == frame.data + Zeros(n);
  }

  lemma StepNext(reply: EcuReply, before: seq<string>, line: string, keepPartial: bool, i: nat)
    requires 8 <= |reply.payload| <= MAX_CLASSIC_LENGTH && 1 <= i < FrameCount(reply.payload)
    ensures StepStream(Underway(reply, before, i), line, FrameData(reply, i), keepPartial) == Success(
              if i + 1 < FrameCount(reply.payload) then Underway(reply, before + [line], i + 1)
              else Stream(FRESH, before + [line], Some(reply.payload), None))
  {
    hide Feed, ParseFrame, Encode, FrameAt, After;
    var n := NextWire(reply.payload, i);
    FeedNext(reply.payload, i, n);
  }

  /** All of a module's frames: its payload, complete. */
  lemma FoldReply(reply: EcuReply, spaces: bool, keepPartial: bool)
    requires 1 <= |reply.payload| <= MAX_CLASSIC_LENGTH
    ensures FoldPieces(ReplyPieces(reply, spaces), keepPartial)
         == Success(Stream(FRESH, ReplyLines(reply, true, spaces), Some(reply.payload), None))
  {
    hide FrameLine;
    var pieces, lines, n := ReplyPieces(reply, spaces), ReplyLines(reply, true, spaces), FrameCount(reply.payload);
    assert lines == lines[..n - 1] + [lines[n - 1]];
    if |reply.payload| < 8 {
      assert pieces[..0] == [];
      StepSingle(lines[0], reply.payload, keepPartial);
    } else {
      FoldUnderway(reply, spaces, keepPartial, n - 1);
      StepNext(reply, lines[..n - 1], lines[n - 1], keepPartial, n - 1);
    }
  }

  lemma StepSingle(line: string, payload: seq<Byte>, keepPartial: bool)
    requires 1 <= |payload| < 8
    ensures StepStream(NOTHING, line, Encode(FrameAt(payload, 0), 8), keepPartial)
         == Success(Stream(FRESH, [line], Some(payload), None))
  {
    hide ParseFrame, Encode;
    SingleWire(payload);
    assert NOTHING.raw + [line] == [line];
  }

  lemma SingleWire(payload: seq<Byte>)
    requires 1 <= |payload| < 8
    ensures ParseFrame(Encode(FrameAt(payload, 0), 8)) == Success(Single(payload))
  {
    assert Encode(FrameAt(payload, 0), 8)[1..1 + |payload|] == payload;
  }

  // ---- All modules ----

  predicate Distinct(replies: seq<EcuReply>) {
    forall i, j :: 0 <= i < j < |replies| ==> replies[i].responseId != replies[j].responseId
  }

  predicate AllDeliverable(replies: seq<EcuReply>, protocol: ObdProtocol) {
    forall i :: 0 <= i < |replies| ==> Deliverable(replies[i], protocol)
  }

  lemma AddressInjective(a: EcuReply, b: EcuReply)
    requires a.responseId < 0x1_0000_0000 && b.responseId < 0x1_0000_0000 && a.Address() == b.Address()
    ensures a.responseId == b.responseId
  {
    Powers();
    ToHexInjective(a.Id(), b.Id());
  }

  /** In a whole reply each module's lines are its own. */
  lemma {:induction false} OwnInAll(replies: seq<EcuReply>, spaces: bool, how: Reading, k: nat)
    requires Distinct(replies) && AllDeliverable(replies, how.protocol) && k < |replies|
    ensures OwnPieces(AllLines(replies, true, spaces), replies[k].Address(), how) == ReplyPieces(replies[k], spaces)
  {
    hide OwnPieces, ReplyLines, ReplyPieces, WidthMatches, EcuReply.Id;
    var n := |replies| - 1;
    var init, last, a := replies[..n], replies[n], replies[k].Address();
    OwnPiecesAppend(AllLines(init, true, spaces), ReplyLines(last, true, spaces), a, how);
    OwnReplyWhole(last, spaces, how, a);
    if k == n {
      forall i | 0 <= i < |init|
        ensures init[i].Address() != a
      {
        if init[i].Address() == a {
          AddressInjective(init[i], last);
          assert false;
        }
      }
      NotInAll(init, spaces, how, a);
    } else {
      OwnInAll(init, spaces, how, k);
      if last.Address() == a {
        AddressInjective(last, replies[k]);
        assert false;
      }
    }
  }

  lemma OwnReplyWhole(reply: EcuReply, spaces: bool, how: Reading, a: string)
    requires Deliverable(reply, how.protocol)
    ensures OwnPieces(ReplyLines(reply, true, spaces), a, how) == if a == reply.Address() then ReplyPieces(reply, spaces) else []
  {
    hide OwnPieces, ReplyPieces, ReplyLines;
    var n := FrameCount(reply.payload);
    OwnReply(reply, spaces, how, a, n);
    assert ReplyLines(reply, true, spaces)[..n] == ReplyLines(reply, true, spaces);
    assert ReplyPieces(reply, spaces)[..n] == ReplyPieces(reply, spaces);
  }

  lemma {:induction false} NotInAll(replies: seq<EcuReply>, spaces: bool, how: Reading, a: string)
    requires AllDeliverable(replies, how.protocol)
    requires forall i :: 0 <= i < |replies| ==> replies[i].Address() != a
    ensures OwnPieces(AllLines(replies, true, spaces), a, how) == []
  {
    hide OwnPiece, ReplyLines, ReplyPieces;
    if replies != [] {
      var n := |replies| - 1;
      NotInAll(replies[..n], spaces, how, a);
      OwnPiecesAppend(AllLines(replies[..n], true, spaces), ReplyLines(replies[n], true, spaces), a, how);
      OwnReplyWhole(replies[n], spaces, how, a);
    }
  }

  lemma {:induction false} AllLinesDecode(replies: seq<EcuReply>, spaces: bool, how: Reading)
    requires AllDeliverable(replies, how.protocol)
    ensures AllDecode(AllLines(replies, true, spaces), how)
  {
    hide Decode, FrameLine;
    if replies != [] {
      var n := |replies| - 1;
      AllLinesDecode(replies[..n], spaces, how);
      forall i | 0 <= i < FrameCount(replies[n].payload)
        ensures Decode(ReplyLines(replies[n], true, spaces)[i], how.spaces, how.protocol).Success?
      {
        DecodeFrameLine(replies[n], spaces, how, i);
      }
    }
  }

  function Delivered(reply: EcuReply, spaces: bool): EcuMessage {
    EcuMessage(reply.Address(), reply.payload, ReplyLines(reply, true, spaces), None)
  }

  /** Exactly these replies, each whole, under their own addresses. */
  ghost predicate Carries(m: map<string, EcuMessage>, replies: seq<EcuReply>, spaces: bool) {
    && (forall k :: 0 <= k < |replies| ==> replies[k].Address() in m && m[replies[k].Address()] == Delivered(replies[k], spaces))
    && (forall a :: a in m ==> exists k :: 0 <= k < |replies| && replies[k].Address() == a)
  }

  /** Whatever lines in which every module says what it printed carry exactly the printed replies:
      each payload, one message per address, none cut off - in the order printed or interleaved in
      any other, in the strict form and in the one that keeps partial messages. */
  lemma PrintedRepliesAssemble(replies: seq<EcuReply>, lines: seq<string>, spaces: bool, how: Reading, keepPartial: bool)
    requires Distinct(replies) && AllDeliverable(replies, how.protocol)
    requires SameStreams(AllLines(replies, true, spaces), lines, how) && AllDecode(lines, how)
    ensures Assembly(lines, how, keepPartial).Success?
    ensures Carries(Assembly(lines, how, keepPartial).value, replies, spaces)
  {
    hide OwnPieces, FoldPieces, FoldLines, AllLines, ReplyLines, ReplyPieces, Distinct, Deliverable;
    forall a: string
      ensures FoldPieces(OwnPieces(lines, a, how), keepPartial).Success?
    {
      OwnStream(replies, spaces, how, keepPartial, a);
      assert OwnPieces(AllLines(replies, true, spaces), a, how) == OwnPieces(lines, a, how);
    }
    Composition(lines, how, keepPartial);
    var m := Fold(lines, how, keepPartial).value;
    forall a: string
      ensures a in m <==> exists k :: 0 <= k < |replies| && replies[k].Address() == a
      ensures forall k :: 0 <= k < |replies| && replies[k].Address() == a ==> At(m, a) == Whole(replies[k], spaces)
    {
      OwnStream(replies, spaces, how, keepPartial, a);
      Projection(lines, how, keepPartial, a);
      assert OwnPieces(AllLines(replies, true, spaces), a, how) == OwnPieces(lines, a, how);
    }
    AllWhole(m, replies, spaces, keepPartial);
  }

  function Whole(reply: EcuReply, spaces: bool): Stream {
    Stream(FRESH, ReplyLines(reply, true, spaces), Some(reply.payload), None)
  }

  lemma OwnStream(replies: seq<EcuReply>, spaces: bool, how: Reading, keepPartial: bool, a: string)
    requires Distinct(replies) && AllDeliverable(replies, how.protocol)
    ensures var own := OwnPieces(AllLines(replies, true, spaces), a, how);
            && FoldPieces(own, keepPartial).Success?
            && (own != [] <==> exists k :: 0 <= k < |replies| && replies[k].Address() == a)
            && (forall k :: 0 <= k < |replies| && replies[k].Address() == a ==> FoldPieces(own, keepPartial).value == Whole(replies[k], spaces))
  {
    hide OwnPieces, FoldPieces, AllLines, ReplyLines;
    if k :| 0 <= k < |replies| && replies[k].Address() == a {
      OwnInAll(replies, spaces, how, k);
      FoldReply(replies[k], spaces, keepPartial);
      forall j | 0 <= j < |replies| && replies[j].Address() == a
        ensures j == k
      {
        AddressInjective(replies[j], replies[k]);
      }
    } else {
      NotInAll(replies, spaces, how, a);
      NoPieces(keepPartial);
    }
  }

  lemma AllWhole(m: Streams, replies: seq<EcuReply>, spaces: bool, keepPartial: bool)
    requires forall a: string :: a in m <==> exists k :: 0 <= k < |replies| && replies[k].Address() == a
    requires forall a: string, k :: 0 <= k < |replies| && replies[k].Address() == a ==> At(m, a) == Whole(replies[k], spaces)
    ensures forall a :: a in m ==> !Unfinished(m[a])
    ensures Carries(Messages(m, keepPartial), replies, spaces)
  {
    hide Whole, Delivered, EcuReply.Address, Unfinished, Settle, MessageOf;
    forall a | a in m
      ensures !Unfinished(m[a])
    {
      var k :| 0 <= k < |replies| && replies[k].Address() == a;
      assert At(m, a) == Whole(replies[k], spaces);
      WholeSettles(replies[k], spaces, keepPartial);
    }
    forall k | 0 <= k < |replies|
      ensures var a := replies[k].Address(); a in Messages(m, keepPartial) && Messages(m, keepPartial)[a] == Delivered(replies[k], spaces)
    {
      assert replies[k].Address() in m && At(m, replies[k].Address()) == Whole(replies[k], spaces);
      WholeSettles(replies[k], spaces, keepPartial);
    }
  }

  lemma WholeSettles(reply: EcuReply, spaces: bool, keepPartial: bool)
    ensures var st := Whole(reply, spaces);
            && !Unfinished(st) && Settle(st, keepPartial).Some?
            && MessageOf(reply.Address(), st, keepPartial) == Delivered(reply, spaces)
  {
    hide ReplyLines, EcuReply.Address;
  }
}

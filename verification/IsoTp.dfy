/** ISO 15765-2 segmentation and reassembly (core/protocols/src/isotp.rs). */
module IsoTp {
  import opened Wrappers
  import opened Hex
  import opened Can

  const MAX_CLASSIC_LENGTH := 0xFFF
  const MAX_MESSAGE_LENGTH := 8 * 1024

  datatype FlowStatus = ContinueToSend | Wait | Overflow

  datatype Frame =
    | Single(data: seq<Byte>)
    | First(totalLength: nat, data: seq<Byte>)
    | Consecutive(sequence: nat, data: seq<Byte>)
    | FlowControl(status: FlowStatus, blockSize: Byte, stMin: Byte)

  function BigEndian(b: seq<Byte>): nat {
    if b == [] then 0 else 0x100 * BigEndian(b[..|b| - 1]) + b[|b| - 1] as nat
  }

  /** Decode one CAN payload. */
  function ParseFrame(payload: seq<Byte>): Result<Frame, ErrorCode> {
    if payload == [] then Failure(IsoTpError)
    else
      var kind, low := payload[0] as nat / 16, payload[0] as nat % 16;
      if kind == 0 then
        if low == 0 || |payload| < 1 + low then Failure(IsoTpError)
        else Success(Single(payload[1..1 + low]))
      else if kind == 1 then
        var short := low * 0x100 + if |payload| > 1 then payload[1] as nat else 0;
        if short == 0 then
          if |payload| < 6 || BigEndian(payload[2..6]) == 0 then Failure(IsoTpError)
          else Success(First(BigEndian(payload[2..6]), payload[6..]))
        else if |payload| < 2 then Failure(IsoTpError)
        else Success(First(short, payload[2..]))
      else if kind == 2 then Success(Consecutive(low, payload[1..]))
      else if kind == 3 then
        if |payload| < 3 || low > 2 then Failure(IsoTpError)
        else Success(FlowControl(if low == 0 then ContinueToSend else if low == 1 then Wait else Overflow, payload[1], payload[2]))
      else Failure(IsoTpError)
  }

  function ToBigEndian(v: nat, width: nat): (b: seq<Byte>)
    ensures |b| == width
  {
    if width == 0 then [] else ToBigEndian(v / 0x100, width - 1) + [(v % 0x100) as Byte]
  }

  function Zeros(n: nat): (z: seq<Byte>)
    ensures |z| == n && forall i :: 0 <= i < n ==> z[i] == 0
  {
    seq(n, i => 0 as Byte)
  }

  /** Encode into a CAN payload, padded with zeros to `length`. */
  function Encode(frame: Frame, length: nat): (out: seq<Byte>) {
    var bare := match frame
      case Single(data) => [(|data| % 16) as Byte] + data
      case First(total, data) =>
        (if total > MAX_CLASSIC_LENGTH then [0x10, 0x00] + ToBigEndian(total, 4)
         else [(0x10 + total / 0x100 % 16) as Byte, (total % 0x100) as Byte]) + data
      case Consecutive(sequence, data) => [(0x20 + sequence % 16) as Byte] + data
      case FlowControl(status, blockSize, stMin) =>
        [0x30 + (match status case ContinueToSend => 0 case Wait => 1 case Overflow => 2), blockSize, stMin];
    bare + Zeros(if |bare| < length then length - |bare| else 0)
  }

  datatype Outcome = Complete(payload: seq<Byte>) | NeedMore | SendFlowControl(frame: Frame) | Failed(code: ErrorCode)

  /** The receiver's fields as one value. */
  datatype Receiver = Receiver(
    buffer: seq<Byte>, expectedLength: nat, nextSequence: nat, active: bool,
    blockSize: Byte, stMin: Byte, framesSinceFc: Byte, maxMessageLength: nat)
  {
    function Reset(): Receiver {
      this.(buffer := [], expectedLength := 0, nextSequence := 1, active := false, framesSinceFc := 0)
    }
  }

  /** A receiver as the adapter makes one: flow control is the adapter's own business. */
  const FRESH := Receiver([], 0, 1, false, 0, 0, 0, MAX_MESSAGE_LENGTH)

  function Min(a: int, b: int): int { if a < b then a else b }

  /** What feeding one frame does. */
  function Feed(rx: Receiver, frame: Frame): (Receiver, Outcome) {
    match frame
    case Single(data) => (rx.Reset(), Complete(data))
    case First(total, data) =>
      if total > rx.maxMessageLength then (rx.Reset(), SendFlowControl(FlowControl(Overflow, 0, 0)))
      else
        var kept := data[..Min(total, |data|)];
        if |kept| >= total then (rx.Reset(), Complete(kept))
        else (rx.Reset().(active := true, expectedLength := total, buffer := kept),
              SendFlowControl(FlowControl(ContinueToSend, rx.blockSize, rx.stMin)))
    case Consecutive(sequence, data) =>
      if !rx.active then (rx, Failed(IsoTpError))
      else if sequence != rx.nextSequence then (rx.Reset(), Failed(IsoTpError))
      else
        var remaining := if |rx.buffer| < rx.expectedLength then rx.expectedLength - |rx.buffer| else 0;
        var buffer := rx.buffer + data[..Min(remaining, |data|)];
        if |buffer| >= rx.expectedLength then (rx.Reset(), Complete(buffer))
        else
          // An eight-bit count, wrapping as it does where overflow is not checked.
          var since := if rx.framesSinceFc == 0xFF then 0 else rx.framesSinceFc + 1;
          var next := rx.(buffer := buffer, nextSequence := (sequence + 1) % 16);
          if rx.blockSize != 0 && since >= rx.blockSize then
            (next.(framesSinceFc := 0), SendFlowControl(FlowControl(ContinueToSend, rx.blockSize, rx.stMin)))
          else (next.(framesSinceFc := since), NeedMore)
    case FlowControl(_, _, _) => (rx, Failed(IsoTpError))
  }

  class IsoTpReceiver {
    var buffer: seq<Byte>
    var expectedLength: nat
    var nextSequence: nat
    var active: bool
    const blockSize: Byte
    const stMin: Byte
    var framesSinceFc: Byte
    var maxMessageLength: nat

    function State(): Receiver
      reads this
    {
      Receiver(buffer, expectedLength, nextSequence, active, blockSize, stMin, framesSinceFc, maxMessageLength)
    }

    constructor (blockSize: Byte, stMin: Byte)
      ensures State() == FRESH.(blockSize := blockSize, stMin := stMin)
    {
      this.buffer := [];
      this.expectedLength := 0;
      this.nextSequence := 1;
      this.active := false;
      this.blockSize := blockSize;
      this.stMin := stMin;
      this.framesSinceFc := 0;
      this.maxMessageLength := MAX_MESSAGE_LENGTH;
    }

    method Reset()
      modifies this
      ensures State() == old(State()).Reset()
    {
      buffer := [];
      expectedLength := 0;
      nextSequence := 1;
      active := false;
      framesSinceFc := 0;
    }

    method FeedFrame(frame: Frame) returns (outcome: Outcome)
      modifies this
      ensures (State(), outcome) == Feed(old(State()), frame)
    {
      match frame
      case Single(data) =>
        Reset();
        outcome := Complete(data);
      case First(total, data) =>
        Reset();
        if total > maxMessageLength {
          return SendFlowControl(FlowControl(Overflow, 0, 0));
        }
        active := true;
        expectedLength := total;
        buffer := data[..Min(total, |data|)];
        if |buffer| >= total {
          var out := buffer;
          Reset();
          return Complete(out);
        }
        outcome := SendFlowControl(FlowControl(ContinueToSend, blockSize, stMin));
      case Consecutive(sequence, data) =>
        if !active {
          return Failed(IsoTpError);
        }
        if sequence != nextSequence {
          Reset();
          return Failed(IsoTpError);
        }
        nextSequence := (nextSequence + 1) % 16;
        var remaining := if |buffer| < expectedLength then expectedLength - |buffer| else 0;
        buffer := buffer + data[..Min(remaining, |data|)];
        if |buffer| >= expectedLength {
          var out := buffer;
          Reset();
          return Complete(out);
        }
        framesSinceFc := if framesSinceFc == 0xFF then 0 else framesSinceFc + 1;
        if blockSize != 0 && framesSinceFc >= blockSize {
          framesSinceFc := 0;
          return SendFlowControl(FlowControl(ContinueToSend, blockSize, stMin));
        }
        outcome := NeedMore;
      case FlowControl(_, _, _) =>
        outcome := Failed(IsoTpError);
    }
  }

  // ---- The sender ----

  /** How many bytes of the payload the first `i` frames of a segmented message carry. */
  function Carried(payload: seq<Byte>, i: nat): (n: nat)
    ensures n <= |payload|
  {
    if i == 0 then 0 else Min(6 + 7 * (i - 1), |payload|)
  }

  function FrameCount(payload: seq<Byte>): nat {
    if payload == [] then 0 else if |payload| < 8 then 1 else 1 + (|payload| - 6 + 6) / 7
  }

  function FrameAt(payload: seq<Byte>, i: nat): Frame {
    if |payload| < 8 then Single(payload)
    else if i == 0 then First(|payload|, payload[..6])
    else if Carried(payload, i) <= Carried(payload, i + 1) then
      Consecutive(i % 16, payload[Carried(payload, i)..Carried(payload, i + 1)])
    else Consecutive(i % 16, [])
  }

  /** The frames of a message: one single frame, or a first frame and numbered others. */
  function Frames(payload: seq<Byte>): (frames: seq<Frame>)
    ensures |frames| == FrameCount(payload)
  {
    seq(FrameCount(payload), i requires 0 <= i < FrameCount(payload) => FrameAt(payload, i))
  }

  class IsoTpSender {
    const payload: seq<Byte>
    const frameLength: nat
    var offset: nat
    var nextSequence: nat
    var started: bool
    var credit: Option<Byte>

    ghost predicate Valid()
      reads this
    {
      payload != [] && 3 <= frameLength <= 64 && offset <= |payload|
    }

    constructor (payload: seq<Byte>, frameLength: nat)
      requires payload != [] && 3 <= frameLength <= 64
      ensures Valid() && this.payload == payload && this.frameLength == frameLength
      ensures offset == 0 && nextSequence == 1 && !started && credit == None
    {
      this.payload := payload;
      this.frameLength := frameLength;
      offset := 0;
      nextSequence := 1;
      started := false;
      credit := None;
    }

    predicate IsComplete()
      reads this
    {
      started && offset >= |payload|
    }

    /** Permission to continue; `Wait` holds the sender, `Overflow` ends it. */
    method ApplyFlowControl(frame: Frame) returns (r: Result<bool, ErrorCode>)
      requires Valid()
      modifies this`credit
      ensures Valid()
      ensures match frame
              case FlowControl(ContinueToSend, b, _) => r == Success(true) && credit == (if b == 0 then None else Some(b))
              case FlowControl(Wait, _, _) => r == Success(false) && credit == Some(0)
              case _ => r == Failure(IsoTpError) && credit == old(credit)
    {
      match frame
      case FlowControl(ContinueToSend, b, _) =>
        credit := if b == 0 then None else Some(b);
        r := Success(true);
      case FlowControl(Wait, _, _) =>
        credit := Some(0);
        r := Success(false);
      case _ =>
        r := Failure(IsoTpError);
    }

    /** The next frame, or `None` when finished or out of credit. */
    method NextFrame() returns (frame: Option<Frame>)
      requires Valid()
      modifies this
      ensures Valid() && started
      ensures !old(started) && |payload| < frameLength ==>
                frame == Some(Single(payload)) && offset == |payload|
      ensures !old(started) && |payload| >= frameLength ==>
                offset == frameLength - 2 && frame == Some(First(|payload|, payload[..offset]))
      ensures !old(started) ==> nextSequence == old(nextSequence) && credit == old(credit)
      ensures old(started) && (old(offset) == |payload| || old(credit) == Some(0)) ==>
                frame == None && offset == old(offset) && nextSequence == old(nextSequence) && credit == old(credit)
      ensures old(started) && old(offset) < |payload| && old(credit) != Some(0) ==>
                && offset == Min(old(offset) + frameLength - 1, |payload|)
                && frame == Some(Consecutive(old(nextSequence), payload[old(offset)..offset]))
                && nextSequence == (old(nextSequence) + 1) % 16
                && credit == (if old(credit).None? then None else Some(old(credit).value - 1))
    {
      if !started {
        started := true;
        if |payload| < frameLength {
          offset := |payload|;
          return Some(Single(payload));
        }
        offset := Min(frameLength - 2, |payload|);
        return Some(First(|payload|, payload[..offset]));
      }
      if offset >= |payload| {
        return None;
      }
      if credit == Some(0) {
        return None;
      }
      if credit.Some? {
        credit := Some(credit.value - 1);
      }
      var end := Min(offset + frameLength - 1, |payload|);
      frame := Some(Consecutive(nextSequence, payload[offset..end]));
      offset := end;
      nextSequence := (nextSequence + 1) % 16;
    }
  }

  /** The emulator's sender: it grants itself unlimited flow control (simulator/src/elm.rs). */
  method Segment(payload: seq<Byte>) returns (frames: seq<Frame>)
    ensures frames == Frames(payload)
  {
    if payload == [] {
      return [];
    }
    var sender := new IsoTpSender(payload, 8);
    var first := sender.NextFrame();
    frames := [first.value];
    if !sender.IsComplete() {
      var granted := sender.ApplyFlowControl(FlowControl(ContinueToSend, 0, 0));
      assert frames == [FrameAt(payload, 0)];
      SenderStep(payload, 1);
      var next := sender.NextFrame();
      while next.Some?
        invariant sender.Valid() && sender.started && sender.credit == None && sender.payload == payload && sender.frameLength == 8
        invariant |payload| >= 8 && 1 <= |frames| <= FrameCount(payload)
        invariant forall i :: 0 <= i < |frames| ==> frames[i] == FrameAt(payload, i)
        invariant next.Some? ==>
                    && |frames| < FrameCount(payload)
                    && next.value == FrameAt(payload, |frames|)
                    && sender.offset == Carried(payload, |frames| + 1)
                    && sender.nextSequence == (|frames| + 1) % 16
        invariant next.None? ==> |frames| == FrameCount(payload)
        decreases FrameCount(payload) - |frames|
      {
        frames := frames + [next.value];
        SenderStep(payload, |frames|);
        next := sender.NextFrame();
      }
    }
  }

  /** Where the sender stands once `i` frames are out. */
  lemma SenderStep(payload: seq<Byte>, i: nat)
    requires |payload| >= 8 && 1 <= i <= FrameCount(payload)
    ensures (Carried(payload, i) < |payload|) == (i < FrameCount(payload))
    ensures i < FrameCount(payload) ==>
              && Carried(payload, i + 1) == Min(Carried(payload, i) + 7, |payload|)
              && FrameAt(payload, i) == Consecutive(i % 16, payload[Carried(payload, i)..Carried(payload, i + 1)])
    ensures (i % 16 + 1) % 16 == (i + 1) % 16
  {
  }

  // ---- Every frame goes over the wire and comes back ----

  /** The receiver after the first `i` frames of a segmented message. */
  function After(payload: seq<Byte>, i: nat): Receiver
    requires i >= 1
  {
    FRESH.(buffer := payload[..Carried(payload, i)], expectedLength := |payload|,
           nextSequence := i % 16, active := true, framesSinceFc := ((i - 1) % 0x100) as Byte)
  }

  /** A frame with its trailing padding, as the other end reads it. */
  function Padded(frame: Frame, n: nat): Frame {
    match frame
    case Single(_) => frame
    case First(t, data) => First(t, data + Zeros(n))
    case Consecutive(s, data) => Consecutive(s, data + Zeros(n))
    case FlowControl(_, _, _) => frame
  }

  lemma FrameSizes(payload: seq<Byte>, i: nat)
    requires |payload| >= 8 && 1 <= i < FrameCount(payload)
    ensures Carried(payload, i) == 6 + 7 * (i - 1) < |payload|
    ensures Carried(payload, i + 1) == |payload| <==> i + 1 == FrameCount(payload)
    ensures Carried(payload, i) < Carried(payload, i + 1) <= Carried(payload, i) + 7
  {
  }

  /** Encoding a frame of a message gives eight bytes exactly when its length fits the
      twelve-bit field, and decoding them gives it back. */
  lemma WireFrame(payload: seq<Byte>, i: nat)
    requires i < FrameCount(payload) && |payload| <= MAX_CLASSIC_LENGTH
    ensures |Encode(FrameAt(payload, i), 8)| == 8
    ensures exists n: nat :: ParseFrame(Encode(FrameAt(payload, i), 8)) == Success(Padded(FrameAt(payload, i), n))
  {
    hide ParseFrame, Encode;
    if |payload| < 8 {
      WireSingle(payload);
      assert Padded(Single(payload), 0) == Single(payload);
    } else if i == 0 {
      WireFirst(|payload|, payload[..6]);
      assert payload[..6] + Zeros(0) == payload[..6];
      assert ParseFrame(Encode(FrameAt(payload, i), 8)) == Success(Padded(FrameAt(payload, i), 0));
    } else {
      FrameSizes(payload, i);
      var data := payload[Carried(payload, i)..Carried(payload, i + 1)];
      WireConsecutive(i % 16, data);
      assert ParseFrame(Encode(FrameAt(payload, i), 8)) == Success(Padded(FrameAt(payload, i), 7 - |data|));
    }
  }

  lemma WireSingle(data: seq<Byte>)
    requires |data| < 8
    ensures |Encode(Single(data), 8)| == 8 && (data != [] ==> ParseFrame(Encode(Single(data), 8)) == Success(Single(data)))
  {
    var wire := Encode(Single(data), 8);
    assert wire[1..1 + |data|] == data;
  }

  lemma WireFirst(total: nat, data: seq<Byte>)
    requires 8 <= total <= MAX_CLASSIC_LENGTH && |data| == 6
    ensures |Encode(First(total, data), 8)| == 8 && ParseFrame(Encode(First(total, data), 8)) == Success(First(total, data))
  {
    var wire := Encode(First(total, data), 8);
    assert wire[2..] == data;
  }

  lemma WireConsecutive(sequence: nat, data: seq<Byte>)
    requires sequence < 16 && 1 <= |data| <= 7
    ensures |Encode(Consecutive(sequence, data), 8)| == 8
    ensures ParseFrame(Encode(Consecutive(sequence, data), 8)) == Success(Consecutive(sequence, data + Zeros(7 - |data|)))
  {
    var wire := Encode(Consecutive(sequence, data), 8);
    assert wire[1..] == data + Zeros(7 - |data|);
  }

  /** A payload the twelve-bit field cannot express makes a first frame no CAN frame holds. */
  lemma OversizeFirstFrame(payload: seq<Byte>)
    requires |payload| > MAX_CLASSIC_LENGTH
    ensures |Encode(FrameAt(payload, 0), 8)| == 12
  {
  }

  /** A first frame starts the message whatever the receiver held. */
  lemma FeedFirst(rx: Receiver, payload: seq<Byte>, n: nat)
    requires 8 <= |payload| <= MAX_CLASSIC_LENGTH && rx.Reset() == FRESH
    requires n == 0
    ensures Feed(rx, Padded(FrameAt(payload, 0), n)).0 == After(payload, 1)
    ensures Feed(rx, Padded(FrameAt(payload, 0), n)).1.SendFlowControl?
  {
    assert payload[..6] + Zeros(0) == payload[..6];
    assert payload[..6][..6] == payload[..6];
  }

  /** Each consecutive frame in turn moves the message on, and the last completes it. */
  lemma FeedNext(payload: seq<Byte>, i: nat, n: nat)
    requires 8 <= |payload| && 1 <= i < FrameCount(payload)
    ensures i + 1 < FrameCount(payload) && n == 0 ==>
              Feed(After(payload, i), Padded(FrameAt(payload, i), n)) == (After(payload, i + 1), NeedMore)
    ensures i + 1 == FrameCount(payload) ==>
              Feed(After(payload, i), Padded(FrameAt(payload, i), n)) == (FRESH, Complete(payload))
  {
    if i + 1 == FrameCount(payload) {
      FeedLast(payload, i, n);
    } else if n == 0 {
      FeedMiddle(payload, i);
    }
  }

  lemma FeedMiddle(payload: seq<Byte>, i: nat)
    requires 8 <= |payload| && 1 <= i && i + 1 < FrameCount(payload)
    ensures Feed(After(payload, i), Padded(FrameAt(payload, i), 0)) == (After(payload, i + 1), NeedMore)
  {
    hide Feed, Carried;
    FrameSizes(payload, i);
    var from, to := Carried(payload, i), Carried(payload, i + 1);
    var data := payload[from..to];
    assert data + Zeros(0) == data;
    assert payload[..from] + data == payload[..to];
    FeedData(After(payload, i), i % 16, data);
    CountersMove(i);
  }

  lemma FeedData(rx: Receiver, sequence: nat, data: seq<Byte>)
    requires rx.active && sequence == rx.nextSequence && |rx.buffer| + |data| < rx.expectedLength && rx.blockSize == 0
    ensures Feed(rx, Consecutive(sequence, data))
         == (rx.(buffer := rx.buffer + data, nextSequence := (sequence + 1) % 16,
                 framesSinceFc := if rx.framesSinceFc == 0xFF then 0 else rx.framesSinceFc + 1), NeedMore)
  {
    assert data[..|data|] == data;
  }

  lemma CountersMove(i: nat)
    requires 1 <= i
    ensures (i % 16 + 1) % 16 == (i + 1) % 16
    ensures i % 0x100 == if (i - 1) % 0x100 == 0xFF then 0 else (i - 1) % 0x100 + 1
  {
  }

  lemma FeedLast(payload: seq<Byte>, i: nat, n: nat)
    requires 8 <= |payload| && 1 <= i && i + 1 == FrameCount(payload)
    ensures Feed(After(payload, i), Padded(FrameAt(payload, i), n)) == (FRESH, Complete(payload))
  {
    FrameSizes(payload, i);
    var from := Carried(payload, i);
    var data := payload[from..|payload|] + Zeros(n);
    assert data[..Min(|payload| - from, |data|)] == payload[from..];
    assert payload[..from] + payload[from..] == payload;
  }
}

/** Two peers sending one message to each other (core/protocols/src/isotp.rs, `round_trip` in its tests):
    every frame and every flow control goes over the wire. */
module Peers {
  import opened Wrappers
  import opened Hex
  import opened Can
  import opened IsoTp

  /** The receiver once `i` frames of a segmented message have arrived, `since` of them since it last gave
      permission to continue. */
  function Received(payload: seq<Byte>, i: nat, blockSize: Byte, stMin: Byte, since: Byte): Receiver {
    FRESH.(buffer := payload[..Carried(payload, i)], expectedLength := |payload|, nextSequence := i % 16,
           active := true, framesSinceFc := since, blockSize := blockSize, stMin := stMin)
  }

  function Permission(blockSize: Byte, stMin: Byte): Frame {
    FlowControl(ContinueToSend, blockSize, stMin)
  }

  lemma PermissionOverWire(blockSize: Byte, stMin: Byte)
    ensures ParseFrame(Encode(Permission(blockSize, stMin), 8)) == Success(Permission(blockSize, stMin))
  {
  }

  lemma FirstReceived(payload: seq<Byte>, blockSize: Byte, stMin: Byte)
    requires 8 <= |payload| <= MAX_CLASSIC_LENGTH
    ensures Feed(FRESH.(blockSize := blockSize, stMin := stMin), FrameAt(payload, 0))
         == (Received(payload, 1, blockSize, stMin, 0), SendFlowControl(Permission(blockSize, stMin)))
  {
    assert payload[..6][..6] == payload[..6];
  }

  /** The eight-bit count of frames since the last permission, wrapping as it does where overflow is not
      checked. */
  function Counted(since: Byte): Byte {
    if since == 0xFF then 0 else since + 1
  }

  /** A consecutive frame that does not end the message, as it comes over the wire. */
  lemma MoreReceived(payload: seq<Byte>, i: nat, blockSize: Byte, stMin: Byte, since: Byte)
    requires 8 <= |payload| && 1 <= i && i + 1 < FrameCount(payload)
    ensures ParseFrame(Encode(FrameAt(payload, i), 8)) == Success(FrameAt(payload, i))
    ensures Feed(Received(payload, i, blockSize, stMin, since), FrameAt(payload, i))
         == if blockSize != 0 && Counted(since) >= blockSize then
              (Received(payload, i + 1, blockSize, stMin, 0), SendFlowControl(Permission(blockSize, stMin)))
            else (Received(payload, i + 1, blockSize, stMin, Counted(since)), NeedMore)
  {
    hide ParseFrame, Encode;
    FrameSizes(payload, i);
    var from, to := Carried(payload, i), Carried(payload, i + 1);
    var data := payload[from..to];
    WireConsecutive(i % 16, data);
    assert data + Zeros(0) == data && data[..to - from] == data;
    assert payload[..from] + data == payload[..to];
    CountersMove(i);
  }

  /** The one that ends it, with its padding. */
  lemma LastReceived(payload: seq<Byte>, i: nat, blockSize: Byte, stMin: Byte, since: Byte)
    requires 8 <= |payload| && 1 <= i && i + 1 == FrameCount(payload)
    ensures var wire := ParseFrame(Encode(FrameAt(payload, i), 8));
            wire.Success? && Feed(Received(payload, i, blockSize, stMin, since), wire.value).1 == Complete(payload)
  {
    hide ParseFrame, Encode;
    FrameSizes(payload, i);
    var from := Carried(payload, i);
    var data := payload[from..|payload|];
    WireConsecutive(i % 16, data);
    assert (data + Zeros(7 - |data|))[..|payload| - from] == data;
    assert payload[..from] + data == payload;
  }

  /** The sender with `i` frames sent. */
  ghost predicate SenderAt(sender: IsoTpSender, payload: seq<Byte>, i: nat)
    reads sender
  {
    && sender.Valid() && sender.payload == payload && sender.frameLength == 8
    && (if i == 0 then !sender.started && sender.nextSequence == 1
        else sender.started && (i < FrameCount(payload) ==> sender.offset == Carried(payload, i) && sender.nextSequence == i % 16))
  }

  /** The receiver with `i` frames in, `since` of them since the last permission. */
  ghost predicate ReceiverAt(rx: Receiver, payload: seq<Byte>, i: nat, blockSize: Byte, stMin: Byte, since: Byte) {
    if i == 0 then rx == FRESH.(blockSize := blockSize, stMin := stMin)
    else 8 <= |payload| && i < FrameCount(payload) && rx == Received(payload, i, blockSize, stMin, since)
  }

  /** The permissions given and the one still in hand. */
  ghost predicate Granted(credit: Option<Byte>, blockSize: Byte, i: nat, since: Byte, flows: nat) {
    if i == 0 then flows == 0
    else if blockSize == 0 then credit == None && flows == 1
    else flows >= 1 && since < blockSize && credit == Some(blockSize - since) && i - 1 == (flows - 1) * blockSize as nat + since as nat
  }

  function OnWire(payload: seq<Byte>, i: nat): Result<Frame, ErrorCode> {
    ParseFrame(Encode(FrameAt(payload, i), 8))
  }

  method SendNext(sender: IsoTpSender, payload: seq<Byte>, ghost i: nat) returns (frame: Option<Frame>)
    requires 1 <= |payload| && SenderAt(sender, payload, i) && i < FrameCount(payload) && (i > 0 ==> sender.credit != Some(0))
    modifies sender
    ensures frame == Some(FrameAt(payload, i)) && SenderAt(sender, payload, i + 1)
    ensures sender.credit == if i > 0 && old(sender.credit).Some? then Some(old(sender.credit).value - 1) else old(sender.credit)
  {
    hide FrameAt;
    SenderIs(payload, i);
    frame := sender.NextFrame();
  }

  /** What the receiver makes of the next frame. */
  lemma NextReceived(rx: Receiver, payload: seq<Byte>, i: nat, blockSize: Byte, stMin: Byte, since: Byte)
    requires 1 <= |payload| <= MAX_CLASSIC_LENGTH && i < FrameCount(payload) && ReceiverAt(rx, payload, i, blockSize, stMin, since)
    ensures OnWire(payload, i).Success?
    ensures var (next, outcome) := Feed(rx, OnWire(payload, i).value);
            if i + 1 == FrameCount(payload) then outcome == Complete(payload)
            else if i == 0 || (blockSize != 0 && Counted(since) >= blockSize) then
              ReceiverAt(next, payload, i + 1, blockSize, stMin, 0) && outcome == SendFlowControl(Permission(blockSize, stMin))
            else ReceiverAt(next, payload, i + 1, blockSize, stMin, Counted(since)) && outcome == NeedMore
  {
    hide ParseFrame, Encode, Received, Carried;
    SenderIs(payload, i);
    if |payload| < 8 {
      WireSingle(payload);
    } else if i == 0 {
      WireFirst(|payload|, payload[..6]);
      FirstReceived(payload, blockSize, stMin);
    } else if i + 1 < FrameCount(payload) {
      MoreReceived(payload, i, blockSize, stMin, since);
    } else {
      LastReceived(payload, i, blockSize, stMin, since);
    }
  }

  /** Whatever the message and however often the receiver wants to be asked, the message arrives whole, the
      sender is never left waiting, and permission is given once for the first frame and once more for
      each full block of consecutive frames before the last. */
  method Exchange(payload: seq<Byte>, blockSize: Byte, stMin: Byte) returns (message: seq<Byte>, flowControls: nat)
    requires 1 <= |payload| <= MAX_CLASSIC_LENGTH
    ensures message == payload
    ensures |payload| < 8 ==> flowControls == 0
    ensures |payload| >= 8 && blockSize == 0 ==> flowControls == 1
    ensures |payload| >= 8 && blockSize > 0 ==>
              (flowControls - 1) * blockSize as int <= FrameCount(payload) - 2 < flowControls * blockSize as int
  {
    hide ParseFrame, Encode, Feed, FrameAt, OnWire, ReceiverAt, SenderAt, Permission;
    var sender := new IsoTpSender(payload, 8);
    var receiver := new IsoTpReceiver(blockSize, stMin);
    flowControls := 0;
    ghost var i: nat, since: Byte := 0, 0;
    AtStart(sender, receiver, payload);
    while true
      invariant fresh(sender) && fresh(receiver)
      invariant i < FrameCount(payload) && (i > 0 ==> |payload| >= 8)
      invariant SenderAt(sender, payload, i) && ReceiverAt(receiver.State(), payload, i, blockSize, stMin, since)
      invariant Granted(sender.credit, blockSize, i, since, flowControls)
      decreases FrameCount(payload) - i
    {
      NextReceived(receiver.State(), payload, i, blockSize, stMin, since);
      var frame := SendNext(sender, payload, i);
      SameWire(payload, i);
      var decoded := ParseFrame(Encode(frame.value, 8));
      var outcome := receiver.FeedFrame(decoded.value);
      if outcome.Complete? {
        BlocksCounted(flowControls, blockSize, since);
        return outcome.payload, flowControls;
      }
      if outcome.SendFlowControl? {
        PermissionOverWire(blockSize, stMin);
        flowControls := flowControls + 1;
        var granted := ParseFrame(Encode(outcome.frame, 8));
        Allow(sender, granted.value, payload, blockSize, stMin, i + 1);
        BlockDone(flowControls, blockSize);
        since := 0;
      } else {
        since := Counted(since);
      }
      i := i + 1;
    }
  }

  method Allow(sender: IsoTpSender, permission: Frame, ghost payload: seq<Byte>, ghost blockSize: Byte, ghost stMin: Byte, ghost i: nat)
    requires SenderAt(sender, payload, i) && permission == Permission(blockSize, stMin)
    modifies sender
    ensures SenderAt(sender, payload, i) && sender.credit == if blockSize == 0 then None else Some(blockSize)
  {
    var ok := sender.ApplyFlowControl(permission);
  }

  lemma AtStart(sender: IsoTpSender, receiver: IsoTpReceiver, payload: seq<Byte>)
    requires sender.Valid() && sender.payload == payload && sender.frameLength == 8 && !sender.started && sender.nextSequence == 1
    requires receiver.State() == FRESH.(blockSize := receiver.blockSize, stMin := receiver.stMin)
    ensures SenderAt(sender, payload, 0) && ReceiverAt(receiver.State(), payload, 0, receiver.blockSize, receiver.stMin, 0)
  {
  }

  lemma SameWire(payload: seq<Byte>, i: nat)
    ensures OnWire(payload, i) == ParseFrame(Encode(FrameAt(payload, i), 8))
  {
  }

  lemma BlocksCounted(flows: nat, blockSize: Byte, since: Byte)
    ensures flows >= 1 && since < blockSize ==> (flows - 1) * blockSize as nat + since as nat < flows * blockSize as nat
  {
  }

  lemma BlockDone(flows: nat, blockSize: Byte)
    ensures flows >= 2 ==> (flows - 1) * blockSize as nat == (flows - 2) * blockSize as nat + blockSize as nat
  {
  }

  /** What the sender's next frame is, by its position. */
  lemma SenderIs(payload: seq<Byte>, i: nat)
    requires 1 <= |payload|
    ensures |payload| < 8 ==> FrameAt(payload, 0) == Single(payload) && FrameCount(payload) == 1
    ensures |payload| >= 8 ==> FrameAt(payload, 0) == First(|payload|, payload[..6]) && Carried(payload, 1) == 6 && FrameCount(payload) >= 2
    ensures |payload| >= 8 && 1 <= i < FrameCount(payload) ==>
              && Carried(payload, i) < |payload| && Carried(payload, i + 1) == Min(Carried(payload, i) + 7, |payload|)
              && FrameAt(payload, i) == Consecutive(i % 16, payload[Carried(payload, i)..Carried(payload, i + 1)])
              && (i % 16 + 1) % 16 == (i + 1) % 16
  {
    if |payload| >= 8 && 1 <= i < FrameCount(payload) {
      SenderStep(payload, i);
    }
  }
}

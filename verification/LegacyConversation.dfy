/** A whole K-line reply as text and back: printed (simulator/src/elm.rs), parsed and joined
    (core/adapter/src/response.rs, elm327.rs). */
module LegacyConversation {
  import opened Wrappers
  import opened Hex
  import opened FrameText
  import opened Response
  import opened Assemble
  import opened Conversation
  import opened Legacy
  import opened LegacyRoundTrip

  // ---- What is printed ----

  lemma LegacyLinePlain(source: Byte, frame: seq<Byte>, spaces: bool)
    ensures PlainLine(LegacyLine(source, frame, true, spaces))
  {
    var bytes := Framed(source, frame);
    if spaces {
      SpacedPlain(bytes);
    } else {
      BytesPrinted(bytes);
      PrintedPlain(Bytes(bytes));
    }
  }

  lemma {:induction false} AllLegacyPlain(replies: seq<LegacyReply>, spaces: bool)
    ensures forall i :: 0 <= i < |AllLegacy(replies, true, spaces)| ==> PlainLine(AllLegacy(replies, true, spaces)[i])
  {
    hide PlainLine, LegacyLine, KLineFrames;
    if replies != [] {
      var n := |replies| - 1;
      AllLegacyPlain(replies[..n], spaces);
      if replies[n].payload != [] {
        var frames := KLineFrames(replies[n].payload);
        forall i | 0 <= i < |frames|
          ensures PlainLine(LegacyLines(replies[n], true, spaces)[i])
        {
          LegacyLinePlain(replies[n].source, frames[i], spaces);
        }
      }
    }
  }

  predicate Answered(replies: seq<LegacyReply>) {
    DistinctSources(replies) && forall k :: 0 <= k < |replies| ==> replies[k].payload != []
  }

  lemma NotBefore(replies: seq<LegacyReply>, n: nat, a: string)
    requires DistinctSources(replies) && n < |replies| && a == TwoDigits(replies[n].source)
    ensures !Among(a, replies[..n]) && forall k :: 0 <= k < |replies| && a == TwoDigits(replies[k].source) ==> k == n
  {
    hide TwoDigits;
    forall k | 0 <= k < |replies| && k != n
      ensures a != TwoDigits(replies[k].source)
    {
      SourcesDiffer(replies[k].source, replies[n].source);
    }
  }

  lemma StillAmong(init: seq<LegacyReply>, replies: seq<LegacyReply>, a: string)
    requires init <= replies && Among(a, init)
    ensures Among(a, replies)
  {
    hide TwoDigits;
    var k :| 0 <= k < |init| && a == TwoDigits(init[k].source);
    assert replies[k] == init[k];
  }

  /** In the printed text a source's lines are its own reply's. */
  lemma {:induction false} OwnAll(replies: seq<LegacyReply>, spaces: bool, a: string)
    requires Answered(replies)
    ensures Among(a, replies) || OwnText(AllLegacy(replies, true, spaces), a) == []
    ensures forall k :: 0 <= k < |replies| && a == TwoDigits(replies[k].source) ==>
              OwnText(AllLegacy(replies, true, spaces), a) == LegacyLines(replies[k], true, spaces)
  {
    hide LegacyLines, OwnText, TwoDigits, KLineFrames;
    if replies == [] {
      NoLines();
    } else {
      var n := |replies| - 1;
      var init, own := replies[..n], LegacyLines(replies[n], true, spaces);
      OwnAll(init, spaces, a);
      OwnWhole(replies[n], spaces, a);
      OwnTextAppend(AllLegacy(init, true, spaces), own, a);
      assert AllLegacy(replies, true, spaces) == AllLegacy(init, true, spaces) + own;
      if a == TwoDigits(replies[n].source) {
        NotBefore(replies, n, a);
        assert [] + own == own;
      } else {
        if Among(a, init) {
          StillAmong(init, replies, a);
        }
        assert OwnText(AllLegacy(init, true, spaces), a) + [] == OwnText(AllLegacy(init, true, spaces), a);
      }
    }
  }

  lemma OwnWhole(reply: LegacyReply, spaces: bool, a: string)
    requires reply.payload != []
    ensures OwnText(LegacyLines(reply, true, spaces), a) == if a == TwoDigits(reply.source) then LegacyLines(reply, true, spaces) else []
  {
    hide LegacyLine, KLineFrames, OwnText, TwoDigits;
    var lines := LegacyLines(reply, true, spaces);
    OwnPrinted(reply, spaces, a, |lines|);
    assert lines[..|lines|] == lines;
  }

  /** Every frame of a reply, in order. */
  function Sequence(payload: seq<Byte>): (order: seq<nat>)
    requires payload != []
    ensures |order| == |KLineFrames(payload)| && Rising(order)
  {
    seq(|KLineFrames(payload)|, i requires 0 <= i < |KLineFrames(payload)| => i as nat)
  }

  lemma AllThere(payload: seq<Byte>)
    requires payload != []
    ensures Complete(payload, Sequence(payload))
  {
    var order := Sequence(payload);
    SomeFrame(payload);
    forall k | 0 <= k < |order|
      ensures k in order
    {
      assert order[k] == k;
    }
  }

  lemma SomeFrame(payload: seq<Byte>)
    requires payload != []
    ensures |KLineFrames(payload)| >= 1
  {
    if IsNumbered(payload) {
      InfoDataNotEmpty(payload);
    }
  }

  function Orders(replies: seq<LegacyReply>): (orders: seq<seq<nat>>)
    requires forall k :: 0 <= k < |replies| ==> replies[k].payload != []
    ensures |orders| == |replies|
  {
    seq(|replies|, k requires 0 <= k < |replies| => Sequence(replies[k].payload))
  }

  lemma PrintedIsSent(replies: seq<LegacyReply>, spaces: bool)
    requires Answered(replies)
    ensures AllSent(AllLegacy(replies, true, spaces), replies, spaces, Orders(replies))
  {
    hide LegacyLines, OwnText, TwoDigits, AllLegacy, Comes, KLineFrames;
    var lines := AllLegacy(replies, true, spaces);
    forall k | 0 <= k < |replies|
      ensures Comes(replies[k].payload, Orders(replies)[k]) && Sent(lines, replies[k], spaces, Orders(replies)[k])
    {
      AllThere(replies[k].payload);
      OwnAll(replies, spaces, TwoDigits(replies[k].source));
      InTurn(replies[k], spaces);
    }
    forall a: string | OwnText(lines, a) != []
      ensures Among(a, replies)
    {
      OwnAll(replies, spaces, a);
    }
  }

  lemma InTurn(reply: LegacyReply, spaces: bool)
    requires reply.payload != []
    ensures |LegacyLines(reply, true, spaces)| == |KLineFrames(reply.payload)|
    ensures InOrder(LegacyLines(reply, true, spaces), Sequence(reply.payload)) == LegacyLines(reply, true, spaces)
  {
    hide LegacyLine, KLineFrames;
  }

  // ---- The round trip ----

  /** The reply's message is there; it holds the reply whole unless the numbering fails it. */
  ghost predicate CameBack(out: seq<EcuMessage>, reply: LegacyReply, spaces: bool)
    requires reply.payload != []
  {
    exists i :: 0 <= i < |out|
      && out[i].address == TwoDigits(reply.source) && out[i].rawLines == LegacyLines(reply, true, spaces) && out[i].cutOff.None?
      && (out[i].payload == Whole(reply.payload) <==> (IsNumbered(reply.payload) ==> 2 <= |KLineFrames(reply.payload)| <= 255))
  }

  lemma WholeMessage(reply: LegacyReply, spaces: bool)
    requires reply.payload != []
    ensures Comes(reply.payload, Sequence(reply.payload))
    ensures var m := JoinedMessage(reply, spaces, Sequence(reply.payload));
            && m.address == TwoDigits(reply.source) && m.rawLines == LegacyLines(reply, true, spaces) && m.cutOff.None?
            && (m.payload == Whole(reply.payload) <==> (IsNumbered(reply.payload) ==> 2 <= |KLineFrames(reply.payload)| <= 255))
  {
    hide KLineFrames, Returned, Whole, TwoDigits, Comes;
    AllThere(reply.payload);
    WholeExactly(reply.payload, Sequence(reply.payload));
    InTurn(reply, spaces);
  }

  lemma AllCameBack(out: seq<EcuMessage>, replies: seq<LegacyReply>, spaces: bool)
    requires Answered(replies) && IsLegacyListing(out, AllLegacy(replies, true, spaces))
    ensures forall k :: 0 <= k < |replies| ==> CameBack(out, replies[k], spaces)
    ensures forall i :: 0 <= i < |out| ==> Among(out[i].address, replies)
  {
    hide IsLegacyListing, KLineFrames, Whole, TwoDigits, AllLegacy, LegacyLines, Comes;
    PrintedIsSent(replies, spaces);
    PrintedLegacyAssembles(out, AllLegacy(replies, true, spaces), replies, spaces, Orders(replies));
    forall k | 0 <= k < |replies|
      ensures CameBack(out, replies[k], spaces)
    {
      WholeMessage(replies[k], spaces);
      var m := MessageAt(replies, spaces, Orders(replies), k);
      var i :| 0 <= i < |out| && out[i] == m;
    }
    forall i | 0 <= i < |out|
      ensures Among(out[i].address, replies)
    {
      var k :| 0 <= k < |replies| && out[i] == MessageAt(replies, spaces, Orders(replies), k);
      WholeMessage(replies[k], spaces);
    }
  }

  /** A K-line reply of any modules, printed with headers, comes back from the text as data. What is then
      joined is one message for each module, and the module's message is its reply in the form of this
      bus if and only if a numbered reply has 2 to 255 frames. */
  lemma LegacyReplyRoundTrip(command: string, echo: bool, linefeeds: bool, searching: bool, replies: seq<LegacyReply>, spaces: bool)
    requires IsCommand(command) && replies != [] && Answered(replies)
    requires NoLineIsCommand(command, AllLegacy(replies, true, spaces))
    ensures var r := ParseReply(command, ReplyText(command, echo, linefeeds, Banner(searching) + AllLegacy(replies, true, spaces)), true);
            && r.classified == Data
            && forall out: seq<EcuMessage> :: IsLegacyListing(out, r.lines) ==>
                 && (forall k :: 0 <= k < |replies| ==> CameBack(out, replies[k], spaces))
                 && (forall i :: 0 <= i < |out| ==> Among(out[i].address, replies))
  {
    hide AllLegacy, PlainLine, CameBack, IsLegacyListing, ParseReply, ReplyText, Banner, NoLineIsCommand, TwoDigits;
    var lines := AllLegacy(replies, true, spaces);
    AllLegacyPlain(replies, spaces);
    SomeLegacy(replies, spaces);
    ParseFrames(command, echo, linefeeds, searching, lines);
    forall out: seq<EcuMessage> | IsLegacyListing(out, lines)
      ensures forall k :: 0 <= k < |replies| ==> CameBack(out, replies[k], spaces)
      ensures forall i :: 0 <= i < |out| ==> Among(out[i].address, replies)
    {
      AllCameBack(out, replies, spaces);
    }
  }

  lemma SomeLegacy(replies: seq<LegacyReply>, spaces: bool)
    requires replies != [] && Answered(replies)
    ensures AllLegacy(replies, true, spaces) != []
  {
    hide KLineFrames, LegacyLine;
    var last := replies[|replies| - 1];
    SomeFrame(last.payload);
    assert |LegacyLines(last, true, spaces)| >= 1;
  }
}

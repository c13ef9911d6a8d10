/** Assembly treats each module's lines on their own: how the modules' frames are interleaved
    does not matter. */
module Interleaving {
  import opened Wrappers
  import opened Hex
  import opened Can
  import opened IsoTp
  import opened Protocols
  import opened FrameText
  import opened Assemble

  /** How the adapter reads lines: what it believes about spacing, and the protocol. */
  datatype Reading = Reading(spaces: bool, protocol: ObdProtocol)

  datatype Piece = Piece(line: string, data: seq<Byte>)

  /** The lines one address sent, in order, decoded. */
  function OwnPieces(lines: seq<string>, a: string, how: Reading): seq<Piece> {
    if lines == [] then []
    else OwnPieces(lines[..|lines| - 1], a, how) + OwnPiece(lines[|lines| - 1], a, how)
  }

  function OwnPiece(line: string, a: string, how: Reading): seq<Piece> {
    var d := Decode(line, how.spaces, how.protocol);
    if d.Success? && d.value.address == a then [Piece(line, d.value.data)] else []
  }

  /** One module's pieces on their own. */
  function FoldPieces(pieces: seq<Piece>, keepPartial: bool): Result<Stream, ErrorCode> {
    if pieces == [] then Success(NOTHING)
    else Then(FoldPieces(pieces[..|pieces| - 1], keepPartial), pieces[|pieces| - 1], keepPartial)
  }

  /** One more piece, unless an error ended it already. */
  function Then(r: Result<Stream, ErrorCode>, p: Piece, keepPartial: bool): Result<Stream, ErrorCode> {
    if r.Failure? then r else StepStream(r.value, p.line, p.data, keepPartial)
  }

  lemma FoldTake(pieces: seq<Piece>, i: nat, keepPartial: bool)
    requires i < |pieces|
    ensures FoldPieces(pieces[..i + 1], keepPartial) == Then(FoldPieces(pieces[..i], keepPartial), pieces[i], keepPartial)
  {
    hide StepStream;
    assert pieces[..i + 1] == pieces[..i] + [pieces[i]];
    FoldPiecesSnoc(pieces[..i], pieces[i], keepPartial);
  }

  predicate AllDecode(lines: seq<string>, how: Reading) {
    forall i :: 0 <= i < |lines| ==> Decode(lines[i], how.spaces, how.protocol).Success?
  }

  function Fold(lines: seq<string>, how: Reading, keepPartial: bool): Result<Streams, ErrorCode> {
    FoldLines(lines, how.spaces, how.protocol, keepPartial)
  }

  function Assembly(lines: seq<string>, how: Reading, keepPartial: bool): Result<map<string, EcuMessage>, ErrorCode> {
    Assembled(lines, how.spaces, how.protocol, keepPartial)
  }

  lemma {:induction false} OwnPiecesAppend(x: seq<string>, y: seq<string>, a: string, how: Reading)
    ensures OwnPieces(x + y, a, how) == OwnPieces(x, a, how) + OwnPieces(y, a, how)
  {
    hide OwnPiece;
    if y == [] {
      assert x + y == x;
    } else {
      assert (x + y)[..|x + y| - 1] == x + y[..|y| - 1];
      OwnPiecesAppend(x, y[..|y| - 1], a, how);
    }
  }

  lemma FoldPiecesSnoc(pieces: seq<Piece>, p: Piece, keepPartial: bool)
    ensures FoldPieces(pieces + [p], keepPartial) == Then(FoldPieces(pieces, keepPartial), p, keepPartial)
  {
    assert (pieces + [p])[..|pieces|] == pieces;
  }

  /** What the whole procedure holds for a module is what that module's lines alone give. */
  lemma {:induction false} Projection(lines: seq<string>, how: Reading, keepPartial: bool, a: string)
    requires Fold(lines, how, keepPartial).Success?
    ensures FoldPieces(OwnPieces(lines, a, how), keepPartial) == Success(At(Fold(lines, how, keepPartial).value, a))
    ensures a in Fold(lines, how, keepPartial).value <==> OwnPieces(lines, a, how) != []
  {
    hide StepLine, OwnPiece, StepStream;
    if lines != [] {
      var init, last := lines[..|lines| - 1], lines[|lines| - 1];
      Projection(init, how, keepPartial, a);
      var before := OwnPieces(init, a, how);
      StepProjection(Fold(init, how, keepPartial).value, last, how, keepPartial, a);
      if OwnPiece(last, a, how) == [] {
        assert before + [] == before;
      } else {
        FoldPiecesSnoc(before, OwnPiece(last, a, how)[0], keepPartial);
      }
    }
  }

  /** A line moves its own module's stream on and leaves every other alone. */
  lemma StepProjection(m: Streams, line: string, how: Reading, keepPartial: bool, a: string)
    requires StepLine(m, line, how.spaces, how.protocol, keepPartial).Success?
    ensures var n, own := StepLine(m, line, how.spaces, how.protocol, keepPartial).value, OwnPiece(line, a, how);
            && |own| <= 1
            && (own == [] ==> At(n, a) == At(m, a) && (a in n <==> a in m))
            && (own != [] ==> own == [own[0]] && a in n && StepStream(At(m, a), own[0].line, own[0].data, keepPartial) == Success(n[a]))
    ensures keepPartial || Decode(line, how.spaces, how.protocol).Success?
  {
    hide Decode, StepStream;
  }

  /** Success of the whole is success of every part. */
  lemma {:induction false} Composition(lines: seq<string>, how: Reading, keepPartial: bool)
    requires keepPartial || AllDecode(lines, how)
    requires forall a: string :: FoldPieces(OwnPieces(lines, a, how), keepPartial).Success?
    ensures Fold(lines, how, keepPartial).Success?
  {
    hide Decode, StepStream, FoldPieces, OwnPiece, StepLine;
    if lines != [] {
      var init, last := lines[..|lines| - 1], lines[|lines| - 1];
      forall a: string
        ensures FoldPieces(OwnPieces(init, a, how), keepPartial).Success?
      {
        OneMorePiece(lines, a, how);
        FoldPrefix(OwnPieces(init, a, how), OwnPiece(last, a, how), keepPartial);
      }
      Composition(init, how, keepPartial);
      var d := Decode(last, how.spaces, how.protocol);
      if d.Success? {
        Projection(init, how, keepPartial, d.value.address);
        OneMorePiece(lines, d.value.address, how);
        FoldPiecesSnoc(OwnPieces(init, d.value.address, how), Piece(last, d.value.data), keepPartial);
      }
      StepGoes(Fold(init, how, keepPartial).value, last, how, keepPartial);
    }
  }

  lemma OneMorePiece(lines: seq<string>, a: string, how: Reading)
    requires lines != []
    ensures OwnPieces(lines, a, how) == OwnPieces(lines[..|lines| - 1], a, how) + OwnPiece(lines[|lines| - 1], a, how)
    ensures var last := lines[|lines| - 1];
            var d := Decode(last, how.spaces, how.protocol);
            |OwnPiece(last, a, how)| <= 1 && (d.Success? && d.value.address == a ==> OwnPiece(last, a, how) == [Piece(last, d.value.data)])
  {
    hide Decode;
  }

  /** A line that decodes takes one step of its module's stream. */
  lemma StepGoes(m: Streams, line: string, how: Reading, keepPartial: bool)
    ensures var d := Decode(line, how.spaces, how.protocol);
            (if d.Success? then StepStream(At(m, d.value.address), line, d.value.data, keepPartial).Success? else keepPartial)
              ==> StepLine(m, line, how.spaces, how.protocol, keepPartial).Success?
  {
    hide Decode, StepStream, At;
  }

  lemma FoldPrefix(p: seq<Piece>, q: seq<Piece>, keepPartial: bool)
    requires FoldPieces(p + q, keepPartial).Success? && |q| <= 1
    ensures FoldPieces(p, keepPartial).Success?
  {
    if q == [] {
      assert p + q == p;
    } else {
      assert q == [q[0]];
      FoldPiecesSnoc(p, q[0], keepPartial);
    }
  }

  ghost predicate SameStreams(x: seq<string>, y: seq<string>, how: Reading) {
    forall a: string :: OwnPieces(x, a, how) == OwnPieces(y, a, how)
  }

  /** Two lists of lines in which every module says the same thing hold the same streams. */
  lemma FoldInterleaved(x: seq<string>, y: seq<string>, how: Reading, keepPartial: bool)
    requires SameStreams(x, y, how) && (keepPartial || AllDecode(y, how))
    requires Fold(x, how, keepPartial).Success?
    ensures Fold(y, how, keepPartial) == Fold(x, how, keepPartial)
  {
    hide FoldLines, OwnPieces, FoldPieces;
    forall a: string
      ensures FoldPieces(OwnPieces(y, a, how), keepPartial).Success?
    {
      Projection(x, how, keepPartial, a);
      assert OwnPieces(x, a, how) == OwnPieces(y, a, how);
    }
    Composition(y, how, keepPartial);
    var m, n := Fold(x, how, keepPartial).value, Fold(y, how, keepPartial).value;
    forall a: string
      ensures a in m <==> a in n
      ensures a in m ==> m[a] == n[a]
    {
      Projection(x, how, keepPartial, a);
      Projection(y, how, keepPartial, a);
      assert OwnPieces(x, a, how) == OwnPieces(y, a, how);
    }
    assert m == n;
  }

  /** Interleaving independence, in both forms: the order between modules changes nothing. */
  lemma InterleavingIndependence(x: seq<string>, y: seq<string>, how: Reading, keepPartial: bool)
    requires SameStreams(x, y, how) && (keepPartial || AllDecode(y, how))
    requires Assembly(x, how, keepPartial).Success?
    ensures Assembly(y, how, keepPartial) == Assembly(x, how, keepPartial)
  {
    FoldInterleaved(x, y, how, keepPartial);
  }

  /** The lines an address sent. */
  function OwnLines(lines: seq<string>, a: string, how: Reading): seq<string> {
    if lines == [] then []
    else OwnLines(lines[..|lines| - 1], a, how)
         + (if OwnPiece(lines[|lines| - 1], a, how) != [] then [lines[|lines| - 1]] else [])
  }

  lemma {:induction false} OwnOfOwn(lines: seq<string>, a: string, how: Reading, b: string)
    ensures OwnPieces(OwnLines(lines, a, how), b, how) == if b == a then OwnPieces(lines, a, how) else []
    ensures AllDecode(OwnLines(lines, a, how), how)
  {
    hide Decode;
    if lines != [] {
      var init, last := lines[..|lines| - 1], lines[|lines| - 1];
      OwnOfOwn(init, a, how, b);
      var before := OwnLines(init, a, how);
      if OwnPiece(last, a, how) == [] {
        assert before + [] == before;
        assert OwnPieces(init, a, how) + [] == OwnPieces(init, a, how);
      } else {
        OwnPiecesAppend(before, [last], b, how);
        OwnPiecesOne(last, b, how);
      }
    }
  }

  lemma OwnPiecesOne(line: string, a: string, how: Reading)
    ensures OwnPieces([line], a, how) == OwnPiece(line, a, how)
  {
    hide OwnPiece;
    assert [line][..0] == [];
    assert OwnPieces([line], a, how) == [] + OwnPiece(line, a, how);
  }

  /** Assembling one module's lines alone gives that module's message of the whole, and nothing else. */
  lemma AssembledAlone(lines: seq<string>, how: Reading, keepPartial: bool, a: string)
    requires Assembly(lines, how, keepPartial).Success?
    ensures var all, alone := Assembly(lines, how, keepPartial).value, Assembly(OwnLines(lines, a, how), how, keepPartial);
            alone == Success(map b | b in all && b == a :: all[b])
  {
    hide FoldLines, OwnPieces, FoldPieces, Settle, MessageOf, OwnLines;
    var own := OwnLines(lines, a, how);
    forall b: string
      ensures FoldPieces(OwnPieces(own, b, how), keepPartial).Success?
    {
      OwnOfOwn(lines, a, how, b);
      Projection(lines, how, keepPartial, b);
      NoPieces(keepPartial);
    }
    OwnOfOwn(lines, a, how, a);
    Composition(own, how, keepPartial);
    var m, n := Fold(lines, how, keepPartial).value, Fold(own, how, keepPartial).value;
    forall b: string
      ensures b in n <==> b == a && b in m
      ensures b in n ==> n[b] == m[b]
    {
      OwnOfOwn(lines, a, how, b);
      Projection(lines, how, keepPartial, b);
      Projection(own, how, keepPartial, b);
    }
    assert forall b :: b in n && Unfinished(n[b]) ==> b in m && Unfinished(m[b]);
    assert Messages(n, keepPartial) == map b | b in Messages(m, keepPartial) && b == a :: Messages(m, keepPartial)[b];
  }

  lemma NoPieces(keepPartial: bool)
    ensures FoldPieces([], keepPartial).Success?
  {
  }

  // ---- The strict form and the form that keeps what arrived ----

  /** Where the strict form goes through, the other form goes through the same states. */
  lemma {:induction false} StrictIsPartial(lines: seq<string>, how: Reading)
    requires Fold(lines, how, false).Success?
    ensures Fold(lines, how, true) == Fold(lines, how, false)
    ensures forall a :: a in Fold(lines, how, false).value ==> Fold(lines, how, false).value[a].cut.None?
  {
    hide Decode, Feed, ParseFrame;
    if lines != [] {
      StrictIsPartial(lines[..|lines| - 1], how);
    }
  }

  predicate NoneOpen(m: Streams) {
    forall a :: a in m ==> !m[a].rx.active
  }

  /** When the strict form succeeds, the two forms agree exactly when no module left a message open. */
  lemma FormsAgree(lines: seq<string>, how: Reading)
    requires Assembly(lines, how, false).Success?
    ensures Assembly(lines, how, true).Success?
    ensures Assembly(lines, how, true) == Assembly(lines, how, false) <==> NoneOpen(Fold(lines, how, false).value)
  {
    hide FoldLines;
    StrictIsPartial(lines, how);
    var m := Fold(lines, how, false).value;
    if a :| a in m && m[a].rx.active {
      assert Messages(m, true)[a].cutOff.Some?;
      assert a in Messages(m, false) ==> Messages(m, false)[a].cutOff.None?;
    } else {
      assert Messages(m, true) == Messages(m, false);
    }
  }

}

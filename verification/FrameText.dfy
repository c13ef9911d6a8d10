/** One CAN frame as a line of text: printed by the emulator (simulator/src/elm.rs), split and
    decoded by the adapter (core/adapter/src/elm327.rs). */
module FrameText {
  import opened Wrappers
  import opened Text
  import opened Hex
  import opened Can
  import opened IsoTp
  import opened Protocols

  /** Bytes with a space between each two. */
  function Spaced(data: seq<Byte>): string {
    if data == [] then "" else if |data| == 1 then TwoDigits(data[0]) else TwoDigits(data[0]) + " " + Spaced(data[1..])
  }

  function DataText(data: seq<Byte>, spaces: bool): string {
    if spaces then Spaced(data) else Bytes(data)
  }

  /** A 29-bit header printed with spaces is split into its bytes. */
  function HeaderText(id: CanId, spaces: bool): string {
    if spaces && id.Extended? then Spaced(ToBigEndian(id.value, 4)) + " "
    else id.ToHex() + if spaces then " " else ""
  }

  function LineText(id: CanId, data: seq<Byte>, headers: bool, spaces: bool): string {
    (if headers then HeaderText(id, spaces) else "") + DataText(data, spaces)
  }

  /** `format_frame` */
  method FormatFrame(id: CanId, data: seq<Byte>, headers: bool, spaces: bool) returns (s: string)
    ensures s == LineText(id, data, headers, spaces)
  {
    s := "";
    if headers {
      if spaces && id.Extended? {
        s := PrintEach(ToBigEndian(id.value, 4));
      } else {
        s := id.ToHex();
        if spaces {
          s := s + " ";
        }
      }
    }
    s := PrintData(s, data, spaces);
  }

  /** The data bytes after what is printed already. */
  method PrintData(printed: string, data: seq<Byte>, spaces: bool) returns (s: string)
    ensures s == printed + DataText(data, spaces)
  {
    hide DataRest, DataText, TwoDigits;
    s := printed;
    DataEnds(data, spaces);
    for i := 0 to |data|
      invariant s + DataRest(data, spaces, i) == printed + DataText(data, spaces)
    {
      DataNext(s, data, spaces, i);
      if spaces && i > 0 {
        s := s + " ";
      }
      s := s + TwoDigits(data[i]);
    }
    assert s + "" == s;
  }

  /** The four bytes of a 29-bit header, a space after each. */
  method PrintEach(bytes: seq<Byte>) returns (s: string)
    requires bytes != []
    ensures s == Spaced(bytes) + " "
  {
    s := "";
    for i := 0 to |bytes|
      invariant i < |bytes| ==> s + Spaced(bytes[i..]) == Spaced(bytes)
      invariant i == |bytes| ==> s == Spaced(bytes) + " "
    {
      assert bytes[i..][1..] == bytes[i + 1..];
      s := s + TwoDigits(bytes[i]) + " ";
    }
  }

  /** What is still to print once `i` bytes are. */
  ghost function DataRest(data: seq<Byte>, spaces: bool, i: nat): string
    requires i <= |data|
  {
    (if spaces && 0 < i < |data| then " " else "") + DataText(data[i..], spaces)
  }

  lemma DataEnds(data: seq<Byte>, spaces: bool)
    ensures DataRest(data, spaces, 0) == DataText(data, spaces) && DataRest(data, spaces, |data|) == ""
  {
    hide TwoDigits;
    assert data[0..] == data && data[|data|..] == [];
  }

  lemma DataNext(s: string, data: seq<Byte>, spaces: bool, i: nat)
    requires i < |data|
    ensures s + DataRest(data, spaces, i) ==
            s + (if spaces && i > 0 then " " else "") + TwoDigits(data[i]) + DataRest(data, spaces, i + 1)
  {
    hide TwoDigits;
    var d := TwoDigits(data[i]);
    assert data[i..][0] == data[i] && data[i..][1..] == data[i + 1..];
    if spaces {
      assert Spaced(data[i..]) == d + (if i + 1 < |data| then " " else "") + Spaced(data[i + 1..]);
    }
  }

  // ---- Splitting ----

  /** Two-digit tokens as bytes; `None` if any is not one. */
  function TokenBytes(tokens: seq<string>): (r: Option<seq<Byte>>)
    ensures r.Some? ==> |r.value| == |tokens|
  {
    if tokens == [] then Some([])
    else if |tokens[0]| != 2 || ByteOf(tokens[0]).None? || TokenBytes(tokens[1..]).None? then None
    else Some([ByteOf(tokens[0]).value] + TokenBytes(tokens[1..]).value)
  }

  function HeaderTokens(parts: seq<string>, protocol: ObdProtocol): (n: nat) {
    if protocol.IsCan() then if protocol.Is29Bit() then 4 else 1
    else if parts != [] && |parts[0]| == 3 then 1 else 4
  }

  function HeaderWidth(hex: string, protocol: ObdProtocol): nat {
    if (if protocol.IsCan() then !protocol.Is29Bit() else |hex| % 2 == 1) then 3 else 8
  }

  datatype HeaderLine = HeaderLine(header: string, data: seq<Byte>)

  /** `split_header_line` */
  function SplitHeaderLine(line: string, spaces: bool, protocol: ObdProtocol): Result<HeaderLine, ErrorCode> {
    var trimmed := Trim(line);
    if spaces && ' ' in trimmed then
      SplitTokens(Tokens(trimmed), protocol)
    else
      SplitDigits(Unspaced(trimmed), protocol)
  }

  function SplitTokens(parts: seq<string>, protocol: ObdProtocol): Result<HeaderLine, ErrorCode> {
    var n := HeaderTokens(parts, protocol);
    if |parts| <= n || TokenBytes(parts[n..]).None? then Failure(ProtocolMalformedResponse)
    else Success(HeaderLine(Join(parts[..n]), TokenBytes(parts[n..]).value))
  }

  function SplitDigits(hex: string, protocol: ObdProtocol): Result<HeaderLine, ErrorCode> {
    var width := HeaderWidth(hex, protocol);
    if !AllHex(hex) || |hex| <= width || (|hex| - width) % 2 != 0 then Failure(ProtocolMalformedResponse)
    else Success(HeaderLine(hex[..width], Pairs(hex[width..])))
  }

  /** The token loop of the spaced form. */
  method ReadTokens(parts: seq<string>, protocol: ObdProtocol) returns (r: Result<HeaderLine, ErrorCode>)
    ensures r == SplitTokens(parts, protocol)
  {
    var n := HeaderTokens(parts, protocol);
    if |parts| <= n {
      return Failure(ProtocolMalformedResponse);
    }
    var header := Join(parts[..n]);
    var data: seq<Byte> := [];
    ghost var all := TokenBytes(parts[n..]);
    for i := n to |parts|
      invariant all.None? <==> TokenBytes(parts[i..]).None?
      invariant all.Some? ==> all.value == data + TokenBytes(parts[i..]).value
    {
      var p := parts[i];
      assert parts[i..][0] == p && parts[i..][1..] == parts[i + 1..];
      if |p| != 2 {
        return Failure(ProtocolMalformedResponse);
      }
      var b := ByteOf(p);
      if b.None? {
        return Failure(ProtocolMalformedResponse);
      }
      data := data + [b.value];
    }
    assert parts[|parts|..] == [] && data + [] == data;
    r := Success(HeaderLine(header, data));
  }

  datatype Decoded = Decoded(address: string, data: seq<Byte>)

  /** A line as an addressed CAN payload: the header must be an identifier, the payload fit a frame. */
  function Decode(line: string, spaces: bool, protocol: ObdProtocol): Result<Decoded, ErrorCode> {
    match SplitHeaderLine(line, spaces, protocol)
    case Failure(e) => Failure(e)
    case Success(split) =>
      match ParseHex(split.header)
      case Failure(e) => Failure(e)
      case Success(id) =>
        if |split.data| > 8 then Failure(ProtocolMalformedResponse)
        else Success(Decoded(id.ToHex(), split.data))
  }

  // ---- Printing then decoding ----

  /** An identifier that its width holds. */
  predicate InRange(id: CanId) {
    match id case Standard(v) => v <= 0x7FF case Extended(v) => v < 0x1_0000_0000
  }

  /** A negotiated CAN protocol fixes the width; with none known either width is told by the text. */
  predicate WidthMatches(id: CanId, protocol: ObdProtocol) {
    protocol.IsCan() ==> (protocol.Is29Bit() <==> id.Extended?)
  }

  lemma Powers()
    ensures Pow16(3) == 0x1000 && Pow16(8) == 0x1_0000_0000
  {
    assert Pow16(1) == 0x10 && Pow16(2) == 0x100;
    assert Pow16(4) == 0x1_0000 && Pow16(5) == 0x10_0000;
    assert Pow16(6) == 0x100_0000 && Pow16(7) == 0x1000_0000;
  }

  lemma IdText(id: CanId)
    requires InRange(id)
    ensures |id.ToHex()| == if id.Standard? then 3 else 8
    ensures ParseHex(id.ToHex()) == Success(id)
    ensures Printed(id.ToHex())
  {
    Powers();
    var width := if id.Standard? then 3 else 8;
    PrintWidth(id.value, width);
    PrintPrinted(id.value, width);
    ParseHexToHex(id);
  }

  /** Printing in hex digits and printing byte by byte are the same text. */
  lemma {:induction false} PrintBytes(v: nat, n: nat)
    requires n >= 1 && v < Pow16(2 * n)
    ensures Print(v, 2 * n) == Bytes(ToBigEndian(v, n))
  {
    hide TwoDigits, Digit, Print;
    var b := (v % 0x100) as Byte;
    LastByte(v, b);
    PrintTwice(v, 2 * n);
    BytesAppend(ToBigEndian(v / 0x100, n - 1), [b]);
    assert Bytes([b]) == TwoDigits(b) + Bytes([b][1..]);
    PowerOfTwoDigits(n);
    if n == 1 {
      assert ToBigEndian(v, 1) == [b];
    } else {
      hide Pow16;
      PrintBytes(v / 0x100, n - 1);
    }
  }

  lemma PowerOfTwoDigits(n: nat)
    requires n >= 1
    ensures Pow16(2 * n) == 0x100 * Pow16(2 * (n - 1))
  {
    assert Pow16(2 * n) == 16 * Pow16(2 * n - 1);
  }

  lemma PrintTwice(v: nat, width: nat)
    requires width >= 2
    ensures width > 2 ==> Print(v, width) == Print(v / 0x100, width - 2) + [Digit(v / 16 % 16)] + [Digit(v % 16)]
    ensures width == 2 && v < 0x100 ==> Print(v, width) == [Digit(v / 16 % 16)] + [Digit(v % 16)]
  {
    assert v / 16 / 16 == v / 0x100;
    var next := Print(v / 16, width - 1);
    assert Print(v, width) == next + [Digit(v % 16)];
    if width > 2 {
      assert next == Print(v / 16 / 16, width - 2) + [Digit(v / 16 % 16)];
    }
  }

  lemma LastByte(v: nat, b: Byte)
    requires b as nat == v % 0x100
    ensures TwoDigits(b) == [Digit(v / 16 % 16)] + [Digit(v % 16)]
  {
    var w := b as nat;
    assert w % 16 == v % 16 && w / 16 == v / 16 % 16;
  }

  /** A 29-bit header means the same printed whole and printed in bytes. */
  lemma ExtendedHeader(id: CanId)
    requires InRange(id) && id.Extended?
    ensures id.ToHex() == Bytes(ToBigEndian(id.value, 4))
  {
    Powers();
    PrintBytes(id.value, 4);
  }

  /** Spaces carry no information in the unspaced reading. */
  lemma {:induction false} UnspacedSpaced(data: seq<Byte>)
    ensures Unspaced(Spaced(data)) == Bytes(data)
  {
    if data != [] {
      var d := TwoDigits(data[0]);
      PrintedIsPlain(d);
      assert data[1..] == [] ==> d + Bytes(data[1..]) == d;
      if |data| > 1 {
        UnspacedSpaced(data[1..]);
        UnspacedAppend(d + " ", Spaced(data[1..]));
        UnspacedAppend(d, " ");
        UnspacedBlank();
      }
    }
  }

  lemma UnspacedBlank()
    ensures Unspaced(" ") == ""
  {
    assert Unspaced(" ") == Unspaced(" "[1..]);
  }

  lemma UnspacedHeader(id: CanId, spaces: bool)
    requires InRange(id)
    ensures Unspaced(HeaderText(id, spaces)) == id.ToHex()
  {
    IdText(id);
    PrintedIsPlain(id.ToHex());
    UnspacedBlank();
    if spaces && id.Extended? {
      ExtendedHeader(id);
      UnspacedSpaced(ToBigEndian(id.value, 4));
      UnspacedAppend(Spaced(ToBigEndian(id.value, 4)), " ");
    } else if spaces {
      UnspacedAppend(id.ToHex(), " ");
    } else {
      assert id.ToHex() + "" == id.ToHex();
    }
  }

  lemma UnspacedLine(id: CanId, data: seq<Byte>, spaces: bool)
    requires InRange(id)
    ensures Unspaced(LineText(id, data, true, spaces)) == id.ToHex() + Bytes(data)
  {
    UnspacedHeader(id, spaces);
    UnspacedSpaced(data);
    BytesPrinted(data);
    PrintedIsPlain(Bytes(data));
    UnspacedAppend(HeaderText(id, spaces), DataText(data, spaces));
  }

  /** The two-digit tokens of some bytes. */
  function ByteTokens(data: seq<Byte>): (tokens: seq<string>)
    ensures |tokens| == |data|
  {
    if data == [] then [] else [TwoDigits(data[0])] + ByteTokens(data[1..])
  }

  lemma {:induction false} TokensOfSpaced(data: seq<Byte>)
    ensures Tokens(Spaced(data)) == ByteTokens(data)
  {
    if data != [] {
      PrintedIsPlain(TwoDigits(data[0]));
      if |data| == 1 {
        TokenAlone(TwoDigits(data[0]));
      } else {
        TokenPiece(TwoDigits(data[0]), Spaced(data[1..]));
        TokensOfSpaced(data[1..]);
      }
    }
  }

  /** Header tokens are followed by the data's tokens. */
  lemma {:induction false} TokensOfHeader(bytes: seq<Byte>, rest: string)
    requires bytes != []
    ensures Tokens(Spaced(bytes) + " " + rest) == ByteTokens(bytes) + Tokens(rest)
  {
    var d := TwoDigits(bytes[0]);
    PrintedIsPlain(d);
    if |bytes| == 1 {
      TokenPiece(d, rest);
      assert ByteTokens(bytes) == [d] + ByteTokens(bytes[1..]);
    } else {
      TokensOfHeader(bytes[1..], rest);
      SpacedMore(bytes, rest);
      TokenPiece(d, Spaced(bytes[1..]) + " " + rest);
      AssociateTokens(d, ByteTokens(bytes[1..]), Tokens(rest));
    }
  }

  lemma SpacedMore(bytes: seq<Byte>, rest: string)
    requires |bytes| > 1
    ensures Spaced(bytes) + " " + rest == TwoDigits(bytes[0]) + [' '] + (Spaced(bytes[1..]) + " " + rest)
  {
  }

  lemma AssociateTokens(d: string, a: seq<string>, b: seq<string>)
    ensures [d] + (a + b) == ([d] + a) + b
  {
  }

  lemma {:induction false} TokenBytesOf(data: seq<Byte>)
    ensures TokenBytes(ByteTokens(data)) == Some(data)
  {
    if data != [] {
      ByteOfTwoDigits(data[0]);
      TokenBytesOf(data[1..]);
      assert ByteTokens(data)[0] == TwoDigits(data[0]) && ByteTokens(data)[1..] == ByteTokens(data[1..]);
      assert [data[0]] + data[1..] == data;
    }
  }

  lemma {:induction false} JoinTokens(data: seq<Byte>)
    ensures Join(ByteTokens(data)) == Bytes(data)
  {
    if data != [] {
      JoinTokens(data[1..]);
      assert ByteTokens(data)[1..] == ByteTokens(data[1..]);
    }
  }

  /** Tokens that start with the right number of header tokens split there. */
  lemma SplitHeaderTokens(header: seq<string>, data: seq<Byte>, protocol: ObdProtocol)
    requires data != [] && HeaderTokens(header + ByteTokens(data), protocol) == |header|
    ensures SplitTokens(header + ByteTokens(data), protocol) == Success(HeaderLine(Join(header), data))
  {
    var parts := header + ByteTokens(data);
    assert parts[..|header|] == header && parts[|header|..] == ByteTokens(data);
    TokenBytesOf(data);
  }

  /** The tokens of a spaced line are the header's and then the data's. */
  lemma SplitSpaced(id: CanId, data: seq<Byte>, protocol: ObdProtocol)
    requires InRange(id) && WidthMatches(id, protocol) && data != []
    ensures SplitTokens(Tokens(LineText(id, data, true, true)), protocol) == Success(HeaderLine(id.ToHex(), data))
  {
    IdText(id);
    if id.Standard? {
      SpacedStandard(id.ToHex(), data, protocol);
      assert LineText(id, data, true, true) == id.ToHex() + [' '] + Spaced(data);
    } else {
      SpacedExtended(ToBigEndian(id.value, 4), data, protocol);
      ExtendedHeader(id);
      assert LineText(id, data, true, true) == Spaced(ToBigEndian(id.value, 4)) + " " + Spaced(data);
    }
  }

  lemma SpacedStandard(header: string, data: seq<Byte>, protocol: ObdProtocol)
    requires Printed(header) && |header| == 3 && data != [] && (protocol.IsCan() ==> !protocol.Is29Bit())
    ensures SplitTokens(Tokens(header + [' '] + Spaced(data)), protocol) == Success(HeaderLine(header, data))
  {
    TokensOfSpaced(data);
    PrintedIsPlain(header);
    TokenPiece(header, Spaced(data));
    JoinOne(header);
    assert ([header] + ByteTokens(data))[0] == header;
    SplitHeaderTokens([header], data, protocol);
  }

  lemma JoinOne(s: string)
    ensures Join([s]) == s
  {
    assert Join([s]) == s + Join([s][1..]);
  }

  lemma SpacedExtended(bytes: seq<Byte>, data: seq<Byte>, protocol: ObdProtocol)
    requires |bytes| == 4 && data != [] && (protocol.IsCan() ==> protocol.Is29Bit())
    ensures SplitTokens(Tokens(Spaced(bytes) + " " + Spaced(data)), protocol) == Success(HeaderLine(Bytes(bytes), data))
  {
    TokensOfSpaced(data);
    TokensOfHeader(bytes, Spaced(data));
    JoinTokens(bytes);
    var header := ByteTokens(bytes);
    assert header[0] == TwoDigits(bytes[0]);
    assert (header + ByteTokens(data))[0] == header[0];
    SplitHeaderTokens(header, data, protocol);
  }

  /** The digits of an unspaced line divide where the identifier's width says. */
  lemma SplitUnspaced(header: string, data: seq<Byte>, protocol: ObdProtocol)
    requires Printed(header) && data != []
    requires |header| == if protocol.IsCan() then (if protocol.Is29Bit() then 8 else 3) else |header|
    requires |header| == 3 || |header| == 8
    ensures SplitDigits(header + Bytes(data), protocol) == Success(HeaderLine(header, data))
  {
    PairsOfBytes(data);
    var hex := header + Bytes(data);
    assert hex[..|header|] == header && hex[|header|..] == Bytes(data);
    assert |hex| == |header| + 2 * |data|;
    assert HeaderWidth(hex, protocol) == |header|;
  }

  predicate PlainCharacter(c: char) {
    c == ' ' || IsDigit(c)
  }

  /** A printed line is upper-case digits and spaces, with a digit at each end. */
  predicate PlainLine(s: string) {
    && s != [] && IsDigit(s[0]) && IsDigit(s[|s| - 1])
    && forall i :: 0 <= i < |s| ==> PlainCharacter(s[i])
  }

  lemma {:induction false} SpacedPlain(data: seq<Byte>)
    requires data != []
    ensures PlainLine(Spaced(data))
  {
    if |data| > 1 {
      SpacedPlain(data[1..]);
      PrintedPlain(TwoDigits(data[0]));
      PlainAppend(TwoDigits(data[0]), Spaced(data[1..]));
    }
  }

  lemma PlainAppend(a: string, b: string)
    requires PlainLine(a) && PlainLine(b)
    ensures PlainLine(a + b) && PlainLine(a + " " + b)
    ensures ' ' in a + " " + b
  {
    assert (a + " " + b)[|a|] == ' ';
  }

  lemma PrintedPlain(s: string)
    requires s != [] && Printed(s)
    ensures PlainLine(s)
  {
  }

  lemma LinePlain(id: CanId, data: seq<Byte>, spaces: bool)
    requires InRange(id) && data != []
    ensures PlainLine(LineText(id, data, true, spaces))
    ensures spaces <==> ' ' in LineText(id, data, true, spaces)
  {
    IdText(id);
    PrintedPlain(id.ToHex());
    if spaces {
      SpacedPlain(data);
      SpacedPlain(ToBigEndian(id.value, 4));
      PlainAppend(if id.Extended? then Spaced(ToBigEndian(id.value, 4)) else id.ToHex(), Spaced(data));
    } else {
      BytesPrinted(data);
      PrintedPlain(Bytes(data));
      PlainAppend(id.ToHex(), Bytes(data));
      NoSpace(id.ToHex() + "", Bytes(data));
    }
  }

  lemma NoSpace(a: string, b: string)
    requires Printed(a) && Printed(b)
    ensures ' ' !in a + b
  {
  }

  /** A printed line decodes to the identifier and bytes it was printed from, whether or not the
      adapter is right about the spacing. */
  lemma DecodeLine(id: CanId, data: seq<Byte>, spaces: bool, believed: bool, protocol: ObdProtocol)
    requires InRange(id) && WidthMatches(id, protocol) && 1 <= |data| <= 8
    ensures Decode(LineText(id, data, true, spaces), believed, protocol) == Success(Decoded(id.ToHex(), data))
  {
    SplitLine(id, data, spaces, believed, protocol);
    IdText(id);
  }

  lemma SplitLine(id: CanId, data: seq<Byte>, spaces: bool, believed: bool, protocol: ObdProtocol)
    requires InRange(id) && WidthMatches(id, protocol) && data != []
    ensures SplitHeaderLine(LineText(id, data, true, spaces), believed, protocol) == Success(HeaderLine(id.ToHex(), data))
  {
    LinePlain(id, data, spaces);
    PlainTrimmed(LineText(id, data, true, spaces));
    if believed && spaces {
      SplitSpaced(id, data, protocol);
    } else {
      UnspacedLine(id, data, spaces);
      IdText(id);
      SplitUnspaced(id.ToHex(), data, protocol);
    }
  }

  lemma PlainTrimmed(s: string)
    requires PlainLine(s)
    ensures Trim(s) == s
  {
    TrimmedIsFixed(s);
  }
}

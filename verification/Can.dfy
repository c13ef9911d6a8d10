/** CAN identifiers as the adapter prints them (core/protocols/src/can.rs). */
module Can {
  import opened Wrappers
  import opened Text
  import opened Hex

  datatype ErrorCode = ProtocolMalformedResponse | IsoTpError

  datatype CanId = Standard(value: nat) | Extended(value: nat)
  {
    /** Three digits for an 11-bit identifier, eight for a 29-bit one. */
    function ToHex(): string {
      match this
      case Standard(v) => Print(v, 3)
      case Extended(v) => Print(v, 8)
    }
  }

  /** The width is the length: three digits or eight. */
  function ParseHex(s: string): Result<CanId, ErrorCode> {
    var t := Trim(s);
    if |t| == 3 || |t| == 8 then
      match FromStrRadix16(t)
      case Some(v) => Success(if |t| == 3 then Standard(v) else Extended(v))
      case None => Failure(ProtocolMalformedResponse)
    else Failure(ProtocolMalformedResponse)
  }

  /** What an address string has to look like for a module to have it. */
  lemma ParseHexToHex(id: CanId)
    requires match id case Standard(v) => v < Pow16(3) case Extended(v) => v < Pow16(8)
    ensures ParseHex(id.ToHex()) == Success(id)
  {
    var width := if id.Standard? then 3 else 8;
    PrintWidth(id.value, width);
    ParsePrint(id.value, width);
    PrintPrinted(id.value, width);
    PrintedIsPlain(id.ToHex());
    TrimmedIsFixed(id.ToHex());
  }

  lemma ToHexInjective(a: CanId, b: CanId)
    requires match a case Standard(v) => v < Pow16(3) case Extended(v) => v < Pow16(8)
    requires match b case Standard(v) => v < Pow16(3) case Extended(v) => v < Pow16(8)
    requires a.ToHex() == b.ToHex()
    ensures a == b
  {
    ParseHexToHex(a);
    ParseHexToHex(b);
  }
}

/** OBD-II lower-layer protocols in the adapter's own numbering (core/types/src/capability.rs). */
module Protocols {
  import opened Wrappers

  datatype ObdProtocol =
    | Unknown
    | J1850Pwm | J1850Vpw | Iso9141_2 | Iso14230KwpSlow | Iso14230KwpFast
    | Can11_500 | Can29_500 | Can11_250 | Can29_250
  {
    predicate IsCan() {
      Can11_500? || Can29_500? || Can11_250? || Can29_250?
    }

    predicate Is29Bit() {
      Can29_500? || Can29_250?
    }

    /** The `ATSP` digit. */
    function ElmId(): Option<nat> {
      match this
      case Unknown => None
      case J1850Pwm => Some(1)
      case J1850Vpw => Some(2)
      case Iso9141_2 => Some(3)
      case Iso14230KwpSlow => Some(4)
      case Iso14230KwpFast => Some(5)
      case Can11_500 => Some(6)
      case Can29_500 => Some(7)
      case Can11_250 => Some(8)
      case Can29_250 => Some(9)
    }

    /** The broadcast header of the protocol; none when no protocol is known. */
    function FunctionalHeader(): Option<string> {
      match this
      case Unknown => None
      case Can11_500 => Some("7DF")
      case Can11_250 => Some("7DF")
      case Can29_500 => Some("18DB33F1")
      case Can29_250 => Some("18DB33F1")
      case J1850Pwm => Some("616AF1")
      case J1850Vpw => Some("616AF1")
      case _ => Some("686AF1")
    }

    function Label(): string {
      match this
      case Unknown => "unknown"
      case J1850Pwm => "SAE J1850 PWM"
      case J1850Vpw => "SAE J1850 VPW"
      case Iso9141_2 => "ISO 9141-2"
      case Iso14230KwpSlow => "ISO 14230-4 KWP (5 baud init)"
      case Iso14230KwpFast => "ISO 14230-4 KWP (fast init)"
      case Can11_500 => "ISO 15765-4 CAN 11/500"
      case Can29_500 => "ISO 15765-4 CAN 29/500"
      case Can11_250 => "ISO 15765-4 CAN 11/250"
      case Can29_250 => "ISO 15765-4 CAN 29/250"
    }
  }

  function FromElmId(id: nat): (p: ObdProtocol)
    ensures 1 <= id <= 9 ==> p.ElmId() == Some(id)
    ensures !(1 <= id <= 9) ==> p == Unknown
  {
    match id
    case 1 => J1850Pwm
    case 2 => J1850Vpw
    case 3 => Iso9141_2
    case 4 => Iso14230KwpSlow
    case 5 => Iso14230KwpFast
    case 6 => Can11_500
    case 7 => Can29_500
    case 8 => Can11_250
    case 9 => Can29_250
    case _ => Unknown
  }
}

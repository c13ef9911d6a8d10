/** The commands the adapter sends, and which of them can move the device's header
    (core/adapter/src/elm327.rs). */
module Commands {
  import opened Wrappers
  import opened Text
  import opened Hex
  import opened Protocols
  import opened Conversation
  import opened Elm
  import opened Headers
  import opened Transports

  /** A command that is a setting, a question or vehicle traffic: nothing that moves the header. */
  predicate Setting(c: string) {
    && Plain(c) && '>' !in c && !IsSwitch(c)
    && (|c| < 3 || c[0] != 'A' || c[1] != 'T' || (c[2] != 'S' && c[2] != 'C' && c[2] != 'Z' && c[2] != 'W') || (c[2] == 'S' && |c| >= 4 && c[3] != 'H'))
  }

  lemma SettingIsHarmless(c: string)
    requires Setting(c)
    ensures Harmless(c) && Sendable(c)
  {
    hide UpperAll, Unspaced, FromStrRadix16;
    PlainIsNormal(c);
    if |c| < 3 {
      assert |"ATZ"| == 3 && |"ATWS"| == 4;
    } else if c[0] != 'A' || c[1] != 'T' {
      var i := if c[0] != 'A' then 0 else 1;
      NotPrefix("ATSH", c + "....", i);
      NotPrefix("ATCP", c + "....", i);
      assert c != "ATZ" && c != "ATWS";
    } else {
      assert "ATZ"[2] == 'Z' && "ATWS"[2] == 'W' && "ATCP"[2] == 'C' && "ATSH"[2] == 'S' && "ATSH"[3] == 'H';
    }
  }

  lemma {:induction false} DigitsSetting(prefix: string, digits: string)
    requires Setting(prefix + "0") && Printed(digits) && digits != []
    requires |prefix| >= 4
    ensures Setting(prefix + digits)
  {
    var c, z := prefix + digits, prefix + "0";
    assert forall i :: 0 <= i < |prefix| ==> c[i] == z[i];
    PrintedIsPlain(digits);
    forall i | 0 <= i < |c|
      ensures !IsWhitespace(c[i]) && !('a' <= c[i] <= 'z')
    {
      if i >= |prefix| {
        assert c[i] == digits[i - |prefix|];
      }
    }
  }

  /** A request in hexadecimal. */
  lemma HexSetting(c: string)
    requires Printed(c)
    ensures Setting(c)
  {
    PrintedIsPlain(c);
  }

  lemma ResetSendable(c: string)
    requires c == "ATZ" || c == "ATWS"
    ensures Sendable(c) && Normalize(c) == c
  {
    hide UpperAll, Unspaced, FromStrRadix16;
    PlainIsNormal(c);
    NotPrefix("ATCP", c, 2);
  }

  lemma HeaderSendable(v: string)
    requires IsCommand(v)
    ensures Sendable("ATSH" + v) && "ATSH" <= Normalize("ATSH" + v) && Normalize("ATSH" + v)[4..] == Normalize(v)
  {
    hide Normalize, FromStrRadix16;
    PrefixIsNormal("ATSH", v);
    var c := "ATSH" + Normalize(v);
    NotPrefix("ATCP", c, 2);
    assert c[4..] == Normalize(v);
  }

  lemma PrioritySendable(v: string)
    requires IsCommand(v)
    requires FromStrRadix16(Normalize(v)) == None || FromStrRadix16(Normalize(v)) == Some(DEFAULT_PRIORITY)
    ensures Sendable("ATCP" + v) && "ATCP" <= Normalize("ATCP" + v) && Normalize("ATCP" + v)[4..] == Normalize(v)
  {
    hide Normalize, FromStrRadix16;
    PrefixIsNormal("ATCP", v);
    assert ("ATCP" + Normalize(v))[4..] == Normalize(v);
  }

  /** `is_at_command`: meant for the adapter itself. */
  predicate IsAtCommand(command: string) {
    var c := TrimStart(command);
    if |c| >= 4 && UpperAll(c[..4]) == "STPX" then false
    else |c| >= 2 && (UpperAll(c[..2]) == "AT" || UpperAll(c[..2]) == "ST")
  }

  /** `ATDPN` output: `A6` or `6`. */
  function ParseProtocolNumber(line: string): ObdProtocol {
    var t := TrimStartA(Trim(line));
    if t == [] || !IsHexDigit(t[0]) then Unknown else FromElmId(Value(t[0]))
  }
}

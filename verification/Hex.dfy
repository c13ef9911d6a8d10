/** Hexadecimal printing and parsing, as `format!("{:0wX}")` and `from_str_radix(_, 16)` do them. */
module Hex {
  import opened Wrappers
  import opened Text

  newtype Byte = b: int | 0 <= b < 0x100

  /** What printing produces: digits and upper-case letters. */
  predicate IsDigit(c: char) {
    '0' <= c <= '9' || 'A' <= c <= 'F'
  }

  /** `is_ascii_hexdigit` */
  predicate IsHexDigit(c: char) {
    IsDigit(c) || 'a' <= c <= 'f'
  }

  function Digit(n: nat): (c: char)
    requires n < 16
    ensures IsDigit(c) && Value(c) == n
  {
    if n < 10 then '0' + n as char else 'A' + (n - 10) as char
  }

  function Value(c: char): (n: nat)
    requires IsHexDigit(c)
    ensures n < 16
  {
    if c <= '9' then (c - '0') as nat else if c <= 'F' then (c - 'A') as nat + 10 else (c - 'a') as nat + 10
  }

  predicate Printed(s: string) {
    forall i :: 0 <= i < |s| ==> IsDigit(s[i])
  }

  predicate AllHex(s: string) {
    forall i :: 0 <= i < |s| ==> IsHexDigit(s[i])
  }

  function Pow16(n: nat): (p: nat)
    ensures p >= 1
  {
    if n == 0 then 1 else 16 * Pow16(n - 1)
  }

  /** `format!("{v:0widthX}")`: upper case, at least `width` digits. */
  function Print(v: nat, width: nat): string
    decreases v, width
  {
    if v < 16 && width <= 1 then [Digit(v)]
    else Print(v / 16, if width == 0 then 0 else width - 1) + [Digit(v % 16)]
  }

  /** The value of a string of digits, most significant first. */
  function Number(s: string): nat
    requires AllHex(s)
  {
    if s == [] then 0 else 16 * Number(s[..|s| - 1]) + Value(s[|s| - 1])
  }

  /** `uN::from_str_radix(s, 16)` where `s` is too short to overflow: a sign is accepted. */
  function FromStrRadix16(s: string): Option<nat> {
    var digits := if |s| > 1 && s[0] == '+' then s[1..] else s;
    if digits != [] && AllHex(digits) then Some(Number(digits)) else None
  }

  /** `format!("{b:02X}")` */
  function TwoDigits(b: Byte): (s: string)
    ensures |s| == 2
  {
    [Digit(b as nat / 16), Digit(b as nat % 16)]
  }

  /** Bytes printed without separators. */
  function Bytes(data: seq<Byte>): (s: string)
    ensures |s| == 2 * |data|
  {
    if data == [] then [] else TwoDigits(data[0]) + Bytes(data[1..])
  }

  /** One character of a two-character token as `u8::from_str_radix` takes it. */
  function ByteOf(token: string): Option<Byte>
    requires |token| == 2
  {
    if token[0] == '+' && IsHexDigit(token[1]) then Some(Value(token[1]) as Byte)
    else if IsHexDigit(token[0]) && IsHexDigit(token[1]) then Some((16 * Value(token[0]) + Value(token[1])) as Byte)
    else None
  }

  /** Consecutive pairs of digits as bytes. */
  function Pairs(hex: string): (data: seq<Byte>)
    requires |hex| % 2 == 0 && AllHex(hex)
    ensures |data| == |hex| / 2
  {
    if hex == [] then [] else [(16 * Value(hex[0]) + Value(hex[1])) as Byte] + Pairs(hex[2..])
  }

  // ---- Printing and parsing ----

  lemma {:induction false} PrintPrinted(v: nat, width: nat)
    ensures Printed(Print(v, width)) && |Print(v, width)| >= 1 && |Print(v, width)| >= width
    decreases v, width
  {
    if !(v < 16 && width <= 1) {
      PrintPrinted(v / 16, if width == 0 then 0 else width - 1);
    }
  }

  /** A number that fits prints in exactly `width` digits. */
  lemma {:induction false} PrintWidth(v: nat, width: nat)
    requires width >= 1 && v < Pow16(width)
    ensures |Print(v, width)| == width
  {
    if width > 1 {
      PrintWidth(v / 16, width - 1);
    }
  }

  lemma PrintedIsHex(s: string)
    requires Printed(s)
    ensures AllHex(s)
  {
  }

  /** Printing and parsing undo each other. */
  lemma {:induction false} NumberPrint(v: nat, width: nat)
    ensures AllHex(Print(v, width)) && Number(Print(v, width)) == v
    decreases v, width
  {
    PrintPrinted(v, width);
    PrintedIsHex(Print(v, width));
    var s := Print(v, width);
    if v < 16 && width <= 1 {
      assert s[..0] == [];
    } else {
      var w := if width == 0 then 0 else width - 1;
      NumberPrint(v / 16, w);
      assert s[..|s| - 1] == Print(v / 16, w);
    }
  }

  lemma ParsePrint(v: nat, width: nat)
    ensures FromStrRadix16(Print(v, width)) == Some(v)
  {
    NumberPrint(v, width);
    PrintPrinted(v, width);
    assert IsDigit(Print(v, width)[0]);
  }

  lemma ByteOfTwoDigits(b: Byte)
    ensures ByteOf(TwoDigits(b)) == Some(b)
  {
  }

  lemma {:induction false} BytesPrinted(data: seq<Byte>)
    ensures Printed(Bytes(data))
  {
    if data != [] {
      BytesPrinted(data[1..]);
    }
  }

  lemma {:induction false} PairsOfBytes(data: seq<Byte>)
    ensures AllHex(Bytes(data)) && Pairs(Bytes(data)) == data
  {
    BytesPrinted(data);
    PrintedIsHex(Bytes(data));
    if data != [] {
      var hex := Bytes(data);
      assert hex[2..] == Bytes(data[1..]);
      PairsOfBytes(data[1..]);
    }
  }

  lemma {:induction false} BytesAppend(a: seq<Byte>, b: seq<Byte>)
    ensures Bytes(a + b) == Bytes(a) + Bytes(b)
  {
    if a == [] {
      assert a + b == b;
    } else {
      assert (a + b)[1..] == a[1..] + b;
      BytesAppend(a[1..], b);
    }
  }

  /** Printed digits are none of the characters a reply is cut at or cleaned of. */
  lemma PrintedIsPlain(s: string)
    requires Printed(s)
    ensures forall c :: c in s ==> IsDigit(c) && !IsWhitespace(c)
    ensures Unspaced(s) == s
  {
    UnspacedSame(s);
  }
}

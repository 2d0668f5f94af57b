/** UTF-8, as far as the size limits need it: the encoding, and how long it is. */
module Utf8 {
  import opened Wrappers

  type Byte = b: int | 0 <= b < 256 witness 0

  function EncodeChar(c: char): seq<Byte> {
    var n := c as int;
    if n < 0x80 then [n]
    else if n < 0x800 then [0xC0 + n / 0x40, 0x80 + n % 0x40]
    else if n < 0x10000 then [0xE0 + n / 0x1000, 0x80 + n / 0x40 % 0x40, 0x80 + n % 0x40]
    else [0xF0 + n / 0x4_0000, 0x80 + n / 0x1000 % 0x40, 0x80 + n / 0x40 % 0x40, 0x80 + n % 0x40]
  }

  function Encode(s: string): seq<Byte> {
    if s == [] then [] else EncodeChar(s[0]) + Encode(s[1..])
  }

  /** How many bytes a text takes; the text is not encoded for it. */
  function Length(s: string): nat {
    if s == [] then 0
    else
      (if s[0] < '\U{80}' then 1 else if s[0] < '\U{800}' then 2 else if s[0] < '\U{10000}' then 3 else 4)
      + Length(s[1..])
  }

  // ---------------------------------------------------------------- decoding

  /** How many bytes the character that starts with this byte takes. */
  function Width(first: Byte): nat {
    if first < 0xC0 then 1 else if first < 0xE0 then 2 else if first < 0xF0 then 3 else 4
  }

  /** The code point of the first character. */
  function CodePoint(bs: seq<Byte>): int
    requires bs != [] && Width(bs[0]) <= |bs|
  {
    match Width(bs[0])
    case 1 => bs[0] as int
    case 2 => (bs[0] as int - 0xC0) * 0x40 + (bs[1] as int - 0x80)
    case 3 => (bs[0] as int - 0xE0) * 0x1000 + (bs[1] as int - 0x80) * 0x40 + (bs[2] as int - 0x80)
    case _ =>
      (bs[0] as int - 0xF0) * 0x4_0000 + (bs[1] as int - 0x80) * 0x1000 + (bs[2] as int - 0x80) * 0x40
      + (bs[3] as int - 0x80)
  }

  predicate IsChar(n: int) {
    0 <= n < 0xD800 || 0xE000 <= n < 0x11_0000
  }

  function Decode(bs: seq<Byte>): Option<string> {
    if bs == [] then Some([])
    else if |bs| < Width(bs[0]) || !IsChar(CodePoint(bs)) then None
    else
      match Decode(bs[Width(bs[0])..])
      case Some(rest) => Some([CodePoint(bs) as char] + rest)
      case None => None
  }

  lemma {:induction false} CharDecodes(c: char, rest: seq<Byte>)
    ensures var bs := EncodeChar(c) + rest;
            && Width(bs[0]) == |EncodeChar(c)| && CodePoint(bs) == c as int && bs[Width(bs[0])..] == rest
  {
    var n := c as int;
    assert n == n / 0x40 * 0x40 + n % 0x40;
    assert n / 0x40 == n / 0x1000 * 0x40 + n / 0x40 % 0x40;
    assert n / 0x1000 == n / 0x4_0000 * 0x40 + n / 0x1000 % 0x40;
  }

  /** Decoding undoes encoding. */
  lemma {:induction false} DecodeUndoesEncode(s: string)
    ensures Decode(Encode(s)) == Some(s)
  {
    if s != [] {
      DecodeUndoesEncode(s[1..]);
      CharDecodes(s[0], Encode(s[1..]));
      assert s == [s[0]] + s[1..];
    }
  }

  /** The length is that of the encoding. */
  lemma {:induction false} LengthOfEncoding(s: string)
    ensures Length(s) == |Encode(s)|
  {
    if s != [] {
      LengthOfEncoding(s[1..]);
    }
  }
}

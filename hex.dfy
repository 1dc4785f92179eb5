/**
 * The encoding of a block body: `Buffer.from(text).toString('hex')` turns the
 * UTF-8 bytes of a text into two lower-case hex digits per byte, and
 * `hex2ascii` turns each pair of hex digits back into the character whose code
 * is that byte.
 */
module Hex {
  import opened Wrappers
  import opened Text

  type Byte = x: int | 0 <= x < 256

  /** The UTF-8 bytes of one Unicode scalar value. */
  function Utf8(c: char): (bs: seq<Byte>)
    ensures 1 <= |bs| <= 4
    ensures c as int < 128 ==> bs == [c as int]
    ensures c as int >= 128 ==> forall i :: 0 <= i < |bs| ==> bs[i] >= 128
  {
    var n := c as int;
    if n < 0x80 then [n]
    else if n < 0x800 then [0xC0 + n / 0x40, 0x80 + n % 0x40]
    else if n < 0x1_0000 then [0xE0 + n / 0x1000, 0x80 + n / 0x40 % 0x40, 0x80 + n % 0x40]
    else [0xF0 + n / 0x4_0000, 0x80 + n / 0x1000 % 0x40, 0x80 + n / 0x40 % 0x40, 0x80 + n % 0x40]
  }

  /** `Buffer.from(s)`: the UTF-8 bytes of a text, character after character. */
  function Utf8Bytes(s: string): (bs: seq<Byte>)
    ensures |s| <= |bs| <= 4 * |s|
  {
    if |s| == 0 then [] else Utf8(s[0]) + Utf8Bytes(s[1..])
  }

  /** `.toString('hex')`: two lower-case hex digits per byte, high nibble first. */
  function ToHex(bs: seq<Byte>): (h: string)
    ensures |h| == 2 * |bs|
    ensures IsAscii(h)
  {
    if |bs| == 0 then ""
    else [DigitChar(bs[0] / 16), DigitChar(bs[0] % 16)] + ToHex(bs[1..])
  }

  /** The body stored for a serialized payload: `Buffer.from(text).toString('hex')`. */
  function Encode(text: string): string {
    ToHex(Utf8Bytes(text))
  }

  /**
   * `hex2ascii(h)`: every pair of hex digits becomes the character whose code
   * is the byte they spell. Decoding is strict here: an odd length or a
   * character that is not a hex digit is a failure.
   */
  function HexToAscii(h: string): (r: Option<string>)
    ensures r.Some? ==> 2 * |r.value| == |h|
    ensures r.Some? ==> forall i :: 0 <= i < |r.value| ==> r.value[i] as int < 256
  {
    if |h| == 0 then Some("")
    else if |h| == 1 then None
    else
      match (DigitValue(h[0], 16), DigitValue(h[1], 16), HexToAscii(h[2..]))
      case (Some(hi), Some(lo), Some(rest)) => Some([(hi * 16 + lo) as char] + rest)
      case _ => None
  }

  /** Encoding a text starting with an ASCII character begins with that character's two digits. */
  lemma EncodeAsciiHead(s: string)
    requires |s| > 0 && s[0] as int < 128
    ensures Encode(s) == [DigitChar(s[0] as int / 16), DigitChar(s[0] as int % 16)] + Encode(s[1..])
  {
    var bs := Utf8Bytes(s);
    assert bs == [s[0] as int] + Utf8Bytes(s[1..]);
    assert bs[0] == s[0] as int && bs[1..] == Utf8Bytes(s[1..]);
  }

  /** Hex round trip: decoding the body of an ASCII text gives the text back. */
  lemma {:induction false} AsciiRoundTrip(s: string)
    requires IsAscii(s)
    ensures HexToAscii(Encode(s)) == Some(s)
  {
    if |s| > 0 {
      var n := s[0] as int;
      EncodeAsciiHead(s);
      AsciiRoundTrip(s[1..]);
      var h := Encode(s);
      assert h[0] == DigitChar(n / 16) && h[1] == DigitChar(n % 16);
      assert h[2..] == Encode(s[1..]);
      assert ((n / 16) * 16 + n % 16) as char == s[0];
      assert [s[0]] + s[1..] == s;
    }
  }

  /**
   * Outside ASCII the pair does not round-trip: 'é' is stored as the two
   * UTF-8 bytes c3 a9 and read back as the two characters 'Ã' and '©'.
   */
  lemma NonAsciiDoesNotRoundTrip()
    ensures Encode("\U{00E9}") == "c3a9"
    ensures HexToAscii(Encode("\U{00E9}")) == Some("\U{00C3}\U{00A9}")
  {
    assert Utf8Bytes("\U{00E9}") == [0xC3, 0xA9];
    assert ToHex([0xC3, 0xA9]) == "c3a9" by {
      assert [0xC3, 0xA9][1..] == [0xA9];
    }
    assert "c3a9"[2..] == "a9" && "a9"[2..] == "";
    assert DigitValue('a', 16) == Some(10) && DigitValue('9', 16) == Some(9);
    assert DigitValue('c', 16) == Some(12) && DigitValue('3', 16) == Some(3);
    assert (10 * 16 + 9) as char == '\U{00A9}' && (12 * 16 + 3) as char == '\U{00C3}';
    var low, both := "a9", "c3a9";
    assert low[0] == 'a' && low[1] == '9' && HexToAscii(low[2..]) == Some("");
    assert HexToAscii(low) == Some(["\U{00A9}"[0]] + "");
    assert ["\U{00A9}"[0]] + "" == "\U{00A9}";
    assert both[0] == 'c' && both[1] == '3' && both[2..] == low;
    assert HexToAscii(both[2..]) == Some("\U{00A9}");
    assert HexToAscii(both) == Some([(12 * 16 + 3) as char] + "\U{00A9}");
    assert [(12 * 16 + 3) as char] + "\U{00A9}" == "\U{00C3}\U{00A9}";
  }
}

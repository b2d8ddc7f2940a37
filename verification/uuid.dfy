/** The text of a random (version 4) `java.util.UUID`, as `UUID.randomUUID()
    .toString()` produces it from 16 random bytes (RFC 4122, sections 3 and 4.4). */
module Uuid {
  import opened Text

  type Byte = b: int | 0 <= b < 256

  /** The 16 bytes drawn from the random source. */
  type RandomBytes = s: seq<Byte> | |s| == 16 witness [0, 0, 0, 0, 0, 0, 0, 0, 0, 0, 0, 0, 0, 0, 0, 0]

  predicate IsHexDigit(c: char)
  {
    '0' <= c <= '9' || 'a' <= c <= 'f'
  }

  function HexDigit(n: int): (c: char)
    requires 0 <= n < 16
    ensures IsHexDigit(c)
  {
    if n < 10 then ('0' as int + n) as char else ('a' as int + n - 10) as char
  }

  /** Two lower-case hex digits per byte, high nibble first. */
  function Hex(bs: seq<Byte>): (r: string)
    ensures |r| == 2 * |bs|
    ensures forall i :: 0 <= i < |r| ==> IsHexDigit(r[i])
  {
    if |bs| == 0 then [] else [HexDigit(bs[0] / 16), HexDigit(bs[0] % 16)] + Hex(bs[1..])
  }

  /** Set the version nibble to 4 and the variant bits to `10`, as
      `randomUUID` does. */
  function Stamp(random: RandomBytes): (b: RandomBytes)
    ensures b[6] / 16 == 4
    ensures 8 <= b[8] / 16 <= 11
  {
    random[6 := random[6] % 16 + 0x40][8 := random[8] % 64 + 0x80]
  }

  /** The 8-4-4-4-12 grouping of 32 hex digits. */
  function RandomUuidString(random: RandomBytes): (r: string)
    ensures |r| == 36
    ensures r[8] == '-' && r[13] == '-' && r[18] == '-' && r[23] == '-'
    ensures r[14] == '4'
    ensures r[19] in "89ab"
    ensures !IsBlank(r)
  {
    var b := Stamp(random);
    var third := Hex(b[6..8]);
    var fourth := Hex(b[8..10]);
    assert third[0] == HexDigit(b[6] / 16);
    assert fourth[0] == HexDigit(b[8] / 16);
    var r := Hex(b[..4]) + "-" + Hex(b[4..6]) + "-" + third + "-" + fourth + "-" + Hex(b[10..]);
    assert r[14] == third[0];
    assert r[19] == fourth[0];
    assert !IsWhitespace(r[14]);
    r
  }
}

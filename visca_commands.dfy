/**
 * VISCA protocol limits and the reply-parsing helpers of the camera codec.
 *
 * Replies are inspected as the upper-case hexadecimal text of the received
 * datagram, exactly as the program does; the first 16 characters are the
 * 8-byte VISCA-over-IP header.
 */
module ViscaCommands {
  import opened Wrappers

  type byte = x: int | 0 <= x < 256

  // Protocol limits (ViscaLimits)
  const PAN_SPEED_MAX: int := 0x18
  const TILT_SPEED_MAX: int := 0x14
  const ZOOM_SPEED_MAX: int := 7
  const FOCUS_SPEED_MAX: int := 7
  const IRIS_MIN: int := 0
  const IRIS_MAX: int := 17
  const SHUTTER_MIN: int := 0
  const SHUTTER_MAX: int := 21
  const GAIN_MIN: int := 0
  const GAIN_MAX: int := 15
  const BRIGHTNESS_MIN: int := 0
  const BRIGHTNESS_MAX: int := 41
  const PRESET_MIN: int := 0
  const PRESET_MAX: int := 254

  /** Length in hex characters of the 8-byte VISCA-over-IP header. */
  const HEADER_LENGTH: nat := 16

  /** The upper-case hex digit for a nibble (format spec `X`). */
  function HexDigit(n: int): (c: char)
    requires 0 <= n < 16
    ensures HexValue(c) == Some(n)
    ensures '0' <= c <= '9' || 'A' <= c <= 'F'
  {
    if n < 10 then (48 + n) as char else (55 + n) as char
  }

  /** `int(c, 16)` on a one-character string; None is the ValueError. */
  function HexValue(c: char): (r: Option<int>)
    ensures r.Some? ==> 0 <= r.value < 16
    ensures r.Some? <==> ('0' <= c <= '9' || 'a' <= c <= 'f' || 'A' <= c <= 'F')
  {
    if '0' <= c <= '9' then Some(c as int - 48)
    else if 'a' <= c <= 'f' then Some(c as int - 87)
    else if 'A' <= c <= 'F' then Some(c as int - 55)
    else None
  }

  /** `bytes.hex().upper()`: two upper-case digits per byte, high nibble first. */
  function ToHex(bs: seq<byte>): (h: string)
    ensures |h| == 2 * |bs|
    ensures forall k :: 0 <= k < |h| ==> HexValue(h[k]).Some?
  {
    if bs == [] then []
    else [HexDigit(bs[0] / 16), HexDigit(bs[0] % 16)] + ToHex(bs[1..])
  }

  lemma {:induction false} ToHexAt(bs: seq<byte>, i: nat)
    requires i < |bs|
    ensures |ToHex(bs)| == 2 * |bs|
    ensures ToHex(bs)[2 * i] == HexDigit(bs[i] / 16)
    ensures ToHex(bs)[2 * i + 1] == HexDigit(bs[i] % 16)
  {
    if i > 0 {
      ToHexAt(bs[1..], i - 1);
      assert ToHex(bs) == [HexDigit(bs[0] / 16), HexDigit(bs[0] % 16)] + ToHex(bs[1..]);
    }
  }

  /** `s[i:]` for a non-negative start. */
  function Drop(s: string, i: nat): (r: string)
    ensures |r| == if i <= |s| then |s| - i else 0
    ensures forall k :: 0 <= k < |r| ==> r[k] == s[i + k]
  {
    if i <= |s| then s[i..] else []
  }

  /** `s[i]` with Python's negative indices; None is the IndexError. */
  function PyIndex(s: string, i: int): (r: Option<char>)
    ensures r.Some? <==> -|s| <= i < |s|
    ensures 0 <= i < |s| ==> r == Some(s[i])
    ensures -|s| <= i < 0 ==> r == Some(s[|s| + i])
  {
    if 0 <= i < |s| then Some(s[i])
    else if -|s| <= i < 0 then Some(s[|s| + i])
    else None
  }

  /** `int(visca[position], 16)` after the header; None when it raises. */
  function ExtractSingleNibble(responseHex: string, position: int): (r: Option<int>)
    ensures r.Some? ==> 0 <= r.value < 16
  {
    match PyIndex(Drop(responseHex, HEADER_LENGTH), position)
    case None => None
    case Some(c) => HexValue(c)
  }

  /** The nibble that sits at offset 5 after the header is the low nibble of reply byte 10. */
  lemma SingleNibbleOfReply(bs: seq<byte>)
    requires |bs| >= 11
    ensures ExtractSingleNibble(ToHex(bs), 5) == Some(bs[10] % 16)
  {
    ToHexAt(bs, 10);
  }

  /** `(p << 12) | (q << 8) | (r << 4) | s` on four nibbles: the bits never overlap, so `|` is `+`. */
  function Combine(p: int, q: int, r: int, s: int): int
  {
    p * 4096 + q * 256 + r * 16 + s
  }

  /** The nibbles at offsets 5, 7, 9, 11 after the header, combined; None when any read raises. */
  function ExtractFourNibbles(responseHex: string): (r: Option<int>)
    ensures r.Some? ==> 0 <= r.value < 65536
  {
    var v := Drop(responseHex, HEADER_LENGTH);
    match (PyIndex(v, 5), PyIndex(v, 7), PyIndex(v, 9), PyIndex(v, 11))
    case (Some(a), Some(b), Some(c), Some(d)) =>
      (match (HexValue(a), HexValue(b), HexValue(c), HexValue(d))
       case (Some(p), Some(q), Some(r), Some(s)) => Some(Combine(p, q, r, s))
       case _ => None)
    case _ => None
  }

  /** The 4-nibble field `0p 0q 0r 0s` that the value setters send, for any value below 65536. */
  function NibbleBytes(v: int): (bs: seq<byte>)
    requires 0 <= v < 65536
    ensures |bs| == 4 && forall k :: 0 <= k < 4 ==> bs[k] < 16
  {
    [(v / 4096) % 16, (v / 256) % 16, (v / 16) % 16, v % 16]
  }

  lemma NibblesRecombine(v: int)
    requires 0 <= v < 65536
    ensures var n := NibbleBytes(v); Combine(n[0], n[1], n[2], n[3]) == v
  {
    var w1 := v / 16;
    var w2 := w1 / 16;
    var w3 := w2 / 16;
    var low := 16 * (w1 % 16) + v % 16;
    assert v == 256 * w2 + low;
    assert v / 256 == w2;
    assert v == 4096 * w3 + 256 * (w2 % 16) + low;
    assert v / 4096 == w3 && w3 < 16;
  }

  /** Reading four nibbles from a reply gives the low nibbles of reply bytes 10..13. */
  lemma FourNibblesOfReply(bs: seq<byte>)
    requires |bs| >= 14
    ensures ExtractFourNibbles(ToHex(bs)) == Some(Combine(bs[10] % 16, bs[11] % 16, bs[12] % 16, bs[13] % 16))
  {
    LowNibbleAt(bs, 10);
    LowNibbleAt(bs, 11);
    LowNibbleAt(bs, 12);
    LowNibbleAt(bs, 13);
  }

  /** Character `2i - 15` after the header is the low nibble of byte `i`. */
  lemma LowNibbleAt(bs: seq<byte>, i: nat)
    requires 8 <= i < |bs|
    ensures PyIndex(Drop(ToHex(bs), HEADER_LENGTH), 2 * i - 15) == Some(HexDigit(bs[i] % 16))
  {
    ToHexAt(bs, i);
  }

  /**
   * The four-nibble reader inverts the `0p 0q 0r 0s` encoding: a reply made of
   * any 8-byte header, two reply bytes, the encoded value and the terminator
   * reads back as that value.
   */
  lemma FourNibblesRoundTrip(header: seq<byte>, y: byte, z: byte, v: int)
    requires |header| == 8 && 0 <= v < 65536
    ensures ExtractFourNibbles(ToHex(header + [y, z] + NibbleBytes(v) + [0xFF])) == Some(v)
  {
    var bs := header + [y, z] + NibbleBytes(v) + [0xFF];
    assert bs[10..14] == NibbleBytes(v);
    FourNibblesOfReply(bs);
    NibblesInReply(bs, v);
  }

  lemma NibblesInReply(bs: seq<byte>, v: int)
    requires |bs| >= 14 && 0 <= v < 65536 && bs[10..14] == NibbleBytes(v)
    ensures Combine(bs[10] % 16, bs[11] % 16, bs[12] % 16, bs[13] % 16) == v
  {
    var n := NibbleBytes(v);
    assert bs[10] % 16 == n[0] by { assert bs[10] == bs[10..14][0]; }
    assert bs[11] % 16 == n[1] by { assert bs[11] == bs[10..14][1]; }
    assert bs[12] % 16 == n[2] by { assert bs[12] == bs[10..14][2]; }
    assert bs[13] % 16 == n[3] by { assert bs[13] == bs[10..14][3]; }
    NibblesRecombine(v);
  }
}

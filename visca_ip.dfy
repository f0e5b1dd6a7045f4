/**
 * VISCA-over-IP camera control: the datagram header, the command encoders,
 * the reply decoders and the per-camera client with its wrapping sequence
 * counter.
 *
 * The UDP socket is abstract: a send either reaches the transport or fails,
 * and a query yields either a datagram or nothing. Replies are not matched to
 * sequence numbers; whatever datagram arrives is decoded.
 */
module ViscaIP {
  import opened Wrappers
  import opened ViscaCommands

  const VISCA_DEFAULT_PORT: int := 52381
  /** The sequence counter wraps at this value. */
  const SEQ_MODULUS: int := 99999990
  const PAYLOAD_TYPE: byte := 0x01

  datatype FocusMode = FocusAuto | FocusManual | FocusUnknown
  datatype ExposureMode = ExposureAuto | ExposureManual | ShutterPriority | IrisPriority | Bright | ExposureUnknown
  datatype WhiteBalanceMode = WbAuto | WbIndoor | WbOutdoor | WbOnePush | WbManual | WbUnknown

  type FormatCode = x: int | 0 <= x <= 0x0E
  /** The fifteen video formats carry their codes 0x00..0x0E; UNKNOWN is 0xFF. */
  datatype VideoFormat = Format(code: FormatCode) | FormatUnknown

  /** Pan/tilt direction bytes of the move command. */
  datatype Direction = Up | Down | Left | Right | UpLeft | UpRight | DownLeft | DownRight | Halt

  /**
   * What a command builder hands on: a command to send, a hex text that
   * `bytes.fromhex` rejects inside the send (the send then fails), or a
   * refusal before any send is attempted.
   */
  datatype Request = Command(bytes: seq<byte>) | BadHex | Refused

  // ---------------------------------------------------------------------
  // Sequence numbers and the datagram header
  // ---------------------------------------------------------------------

  function NextSeq(n: int): int
  {
    (n + 1) % SEQ_MODULUS
  }

  /** Every counter value stays in range, fits the 32-bit header field, and the next one differs. */
  lemma NextSeqProperties(n: int)
    requires 0 <= n < SEQ_MODULUS
    ensures 0 <= NextSeq(n) < SEQ_MODULUS < 0x1_0000_0000
    ensures NextSeq(n) != n
    ensures NextSeq(n) == if n == SEQ_MODULUS - 1 then 0 else n + 1
  {
  }

  /** `struct.pack(">BHxI", 0x01, len, seq)`: type, 16-bit big-endian length, pad, 32-bit big-endian sequence. */
  function Header(len: int, sn: int): (h: seq<byte>)
    requires 0 <= len < 0x1_0000 && 0 <= sn < 0x1_0000_0000
    ensures |h| == 8 && h[0] == PAYLOAD_TYPE && h[3] == 0
    ensures (h[1] as int) * 256 + h[2] == len
    ensures (h[4] as int) * 0x100_0000 + (h[5] as int) * 0x1_0000 + (h[6] as int) * 0x100 + h[7] == sn
  {
    var r1 := sn % 0x100_0000;
    var r2 := r1 % 0x1_0000;
    assert sn == (sn / 0x100_0000) * 0x100_0000 + r1;
    assert r1 == (r1 / 0x1_0000) * 0x1_0000 + r2;
    assert r2 == (r2 / 0x100) * 0x100 + r2 % 0x100;
    [PAYLOAD_TYPE, len / 256, len % 256, 0, sn / 0x100_0000, r1 / 0x1_0000, r2 / 0x100, r2 % 0x100]
  }

  /** The header followed by the command bytes. */
  function Packet(cmd: seq<byte>, sn: int): (p: seq<byte>)
    requires |cmd| < 0x1_0000 && 0 <= sn < 0x1_0000_0000
    ensures |p| == 8 + |cmd| && p[8..] == cmd
  {
    Header(|cmd|, sn) + cmd
  }

  /** Reads a datagram back as (payload length, sequence number, payload). */
  function ParsePacket(p: seq<byte>): Option<(int, int, seq<byte>)>
  {
    if |p| >= 8 && p[0] == PAYLOAD_TYPE && p[3] == 0 && (p[1] as int) * 256 + p[2] == |p| - 8 then
      Some(((p[1] as int) * 256 + p[2],
            (p[4] as int) * 0x100_0000 + (p[5] as int) * 0x1_0000 + (p[6] as int) * 0x100 + p[7],
            p[8..]))
    else None
  }

  /** Decoding the header gives back the length and sequence number, and the payload follows it. */
  lemma PacketRoundTrip(cmd: seq<byte>, sn: int)
    requires |cmd| < 0x1_0000 && 0 <= sn < 0x1_0000_0000
    ensures ParsePacket(Packet(cmd, sn)) == Some((|cmd|, sn, cmd))
  {
    var p := Packet(cmd, sn);
    assert p[..8] == Header(|cmd|, sn);
  }

  /** The reply parsers skip exactly the hex text of this header. */
  lemma HeaderHexLength(len: int, sn: int)
    requires 0 <= len < 0x1_0000 && 0 <= sn < 0x1_0000_0000
    ensures |ToHex(Header(len, sn))| == HEADER_LENGTH
  {
  }

  // ---------------------------------------------------------------------
  // Python numeric helpers
  // ---------------------------------------------------------------------

  /** `round(x)`: nearest integer, ties to even. */
  function Round(x: real): (n: int)
    ensures (n as real - x) * 2.0 <= 1.0 && (x - n as real) * 2.0 <= 1.0
    ensures (n as real - x) * 2.0 == 1.0 || (x - n as real) * 2.0 == 1.0 ==> n % 2 == 0
  {
    var f := x.Floor;
    var d := x - f as real;
    if d * 2.0 < 1.0 then f
    else if d * 2.0 > 1.0 then f + 1
    else if f % 2 == 0 then f else f + 1
  }

  /** `int(x)`: truncation toward zero. */
  function Trunc(x: real): (n: int)
    ensures 0.0 <= x ==> n as real <= x < n as real + 1.0
    ensures x < 0.0 ==> n as real - 1.0 < x <= n as real
  {
    if x >= 0.0 then x.Floor else -((-x).Floor)
  }

  function Clamp(v: int, lo: int, hi: int): int
    requires lo <= hi
  {
    if v < lo then lo else if v > hi then hi else v
  }

  /** `int(s, 16)` on a run of hex digits, most significant digit first. */
  function HexNumber(s: string): nat
    requires forall k :: 0 <= k < |s| ==> HexValue(s[k]).Some?
  {
    if s == [] then 0 else 16 * HexNumber(s[..|s| - 1]) + HexValue(s[|s| - 1]).value
  }

  /**
   * The least upper-case hex digits of n (`format(n, "X")`): they read back
   * as n, and only zero itself starts with a zero digit.
   */
  function HexDigits(n: nat): (s: string)
    ensures |s| >= 1
    ensures forall k :: 0 <= k < |s| ==> HexValue(s[k]).Some? && ('0' <= s[k] <= '9' || 'A' <= s[k] <= 'F')
    ensures HexNumber(s) == n
    ensures s[0] == '0' ==> n == 0
    decreases n
  {
    if n < 16 then [HexDigit(n)]
    else
      var high := HexDigits(n / 16);
      var s := high + [HexDigit(n % 16)];
      assert s[..|s| - 1] == high;
      s
  }

  /** `f"{n:02X}"`: at least two characters, a sign counting towards the width. */
  function Format02X(n: int): string
  {
    if n < 0 then "-" + HexDigits(-n)
    else if n < 16 then "0" + HexDigits(n)
    else HexDigits(n)
  }

  /** Text that `bytes.fromhex` accepts once the spaces are gone: whole pairs of hex digits. */
  predicate IsHexText(t: string)
  {
    |t| % 2 == 0 && forall k :: 0 <= k < |t| ==> HexValue(t[k]).Some?
  }

  function HexBytes(t: string): (bs: seq<byte>)
    requires IsHexText(t)
    ensures |bs| == |t| / 2
  {
    if t == [] then []
    else [HexValue(t[0]).value * 16 + HexValue(t[1]).value] + HexBytes(t[2..])
  }

  /** A two-digit field renders a byte exactly, and parses back to it. */
  lemma Format02XByte(n: int)
    requires 0 <= n < 256
    ensures Format02X(n) == [HexDigit(n / 16), HexDigit(n % 16)]
    ensures IsHexText(Format02X(n)) && HexBytes(Format02X(n)) == [n]
  {
    var t := Format02X(n);
    if n >= 16 {
      assert HexDigits(n / 16) == [HexDigit(n / 16)];
    }
    assert HexBytes(t) == [HexValue(t[0]).value * 16 + HexValue(t[1]).value] + HexBytes(t[2..]);
  }

  /** A fixed command whose middle is built from `02X` fields. */
  function FieldCommand(prefix: seq<byte>, fields: string, suffix: seq<byte>): (r: Request)
    ensures r.Command? || r.BadHex?
    ensures r.Command? <==> IsHexText(fields)
    ensures r.Command? ==> r.bytes == prefix + HexBytes(fields) + suffix
  {
    if IsHexText(fields) then Command(prefix + HexBytes(fields) + suffix) else BadHex
  }

  // ---------------------------------------------------------------------
  // Command encoders
  // ---------------------------------------------------------------------

  /** Pan speed byte: `round(speed * 12)` clamped to 1..24. */
  function PanSpeed(speed: real): (b: byte)
    ensures 1 <= b <= PAN_SPEED_MAX
    ensures 1 <= Round(speed * 12.0) <= PAN_SPEED_MAX ==> b == Round(speed * 12.0)
    ensures Round(speed * 12.0) < 1 ==> b == 1
    ensures Round(speed * 12.0) > PAN_SPEED_MAX ==> b == PAN_SPEED_MAX
  {
    Clamp(Round(speed * 12.0), 1, PAN_SPEED_MAX)
  }

  /** Tilt speed byte: `round(speed * 10)` clamped to 1..20. */
  function TiltSpeed(speed: real): (b: byte)
    ensures 1 <= b <= TILT_SPEED_MAX
    ensures 1 <= Round(speed * 10.0) <= TILT_SPEED_MAX ==> b == Round(speed * 10.0)
    ensures Round(speed * 10.0) < 1 ==> b == 1
    ensures Round(speed * 10.0) > TILT_SPEED_MAX ==> b == TILT_SPEED_MAX
  {
    Clamp(Round(speed * 10.0), 1, TILT_SPEED_MAX)
  }

  function DirectionBytes(d: Direction): (bs: seq<byte>)
    ensures |bs| == 2 && 1 <= bs[0] <= 3 && 1 <= bs[1] <= 3
  {
    match d
    case Up => [0x03, 0x01]
    case Down => [0x03, 0x02]
    case Left => [0x01, 0x03]
    case Right => [0x02, 0x03]
    case UpLeft => [0x01, 0x01]
    case UpRight => [0x02, 0x01]
    case DownLeft => [0x01, 0x02]
    case DownRight => [0x02, 0x02]
    case Halt => [0x03, 0x03]
  }

  /** The nine direction codes are pairwise different. */
  lemma DirectionBytesInjective(d: Direction, e: Direction)
    ensures DirectionBytes(d) == DirectionBytes(e) ==> d == e
  {
  }

  function Move(d: Direction, panSpeed: real, tiltSpeed: real): (cmd: seq<byte>)
    ensures |cmd| == 9 && cmd[..4] == [0x81, 0x01, 0x06, 0x01] && cmd[8] == 0xFF
    ensures 1 <= cmd[4] <= PAN_SPEED_MAX && 1 <= cmd[5] <= TILT_SPEED_MAX
    ensures cmd[6..8] == DirectionBytes(d)
  {
    [0x81, 0x01, 0x06, 0x01, PanSpeed(panSpeed), TiltSpeed(tiltSpeed)] + DirectionBytes(d) + [0xFF]
  }

  const STOP: seq<byte> := [0x81, 0x01, 0x06, 0x01, 0x03, 0x03, 0x03, 0x03, 0xFF]

  /** Speed-limit command `81 01 06 11 pp tt FF`; the limits are formatted, not clamped. */
  function SetPanTiltSpeedLimit(panLimit: int, tiltLimit: int): (r: Request)
    ensures 0 <= panLimit < 256 && 0 <= tiltLimit < 256 ==>
      r.Command? && r.bytes == [0x81, 0x01, 0x06, 0x11, panLimit, tiltLimit, 0xFF]
    ensures panLimit < 0 || tiltLimit < 0 ==> r == BadHex
  {
    SpeedLimitFields(panLimit, tiltLimit);
    FieldCommand([0x81, 0x01, 0x06, 0x11], Format02X(panLimit) + Format02X(tiltLimit), [0xFF])
  }

  lemma SpeedLimitFields(panLimit: int, tiltLimit: int)
    ensures 0 <= panLimit < 256 && 0 <= tiltLimit < 256 ==>
      var r := FieldCommand([0x81, 0x01, 0x06, 0x11], Format02X(panLimit) + Format02X(tiltLimit), [0xFF]);
      r.Command? && r.bytes == [0x81, 0x01, 0x06, 0x11, panLimit, tiltLimit, 0xFF]
    ensures panLimit < 0 || tiltLimit < 0 ==>
      FieldCommand([0x81, 0x01, 0x06, 0x11], Format02X(panLimit) + Format02X(tiltLimit), [0xFF]) == BadHex
  {
    var fields := Format02X(panLimit) + Format02X(tiltLimit);
    if panLimit < 0 || tiltLimit < 0 {
      SignedFieldRefused(panLimit, tiltLimit);
    } else if panLimit < 256 && tiltLimit < 256 {
      TwoFields(panLimit, tiltLimit);
      assert [0x81, 0x01, 0x06, 0x11] + HexBytes(fields) + [0xFF] == [0x81, 0x01, 0x06, 0x11, panLimit, tiltLimit, 0xFF];
    }
  }

  /** Two `02X` fields of byte values parse back as those bytes. */
  lemma TwoFields(a: int, b: int)
    requires 0 <= a < 256 && 0 <= b < 256
    ensures IsHexText(Format02X(a) + Format02X(b)) && HexBytes(Format02X(a) + Format02X(b)) == [a, b]
  {
    Format02XByte(a);
    Format02XByte(b);
    var t := Format02X(a) + Format02X(b);
    assert t[2..] == Format02X(b);
    assert HexBytes(t) == [HexValue(t[0]).value * 16 + HexValue(t[1]).value] + HexBytes(t[2..]);
  }

  /** A negative field renders with a sign, which `bytes.fromhex` rejects. */
  lemma SignedFieldRefused(a: int, b: int)
    requires a < 0 || b < 0
    ensures !IsHexText(Format02X(a) + Format02X(b))
  {
    var t := Format02X(a) + Format02X(b);
    if a < 0 {
      assert t[0] == '-';
    } else {
      assert t[|Format02X(a)|] == '-';
    }
  }

  /** Zoom/focus speed nibble: `int(speed * 7)` clamped to 0..7. */
  function SpeedNibble(speed: real): (n: int)
    ensures 0 <= n <= ZOOM_SPEED_MAX
    ensures 0 <= Trunc(speed * 7.0) <= 7 ==> n == Trunc(speed * 7.0)
    ensures Trunc(speed * 7.0) > 7 ==> n == 7
    ensures Trunc(speed * 7.0) < 0 ==> n == 0
  {
    Clamp(Trunc(speed * 7.0), 0, ZOOM_SPEED_MAX)
  }

  const ZOOM_STOP: seq<byte> := [0x81, 0x01, 0x04, 0x07, 0x00, 0xFF]
  const FOCUS_STOP: seq<byte> := [0x81, 0x01, 0x04, 0x08, 0x00, 0xFF]

  /** Variable-speed drive `81 01 04 cc (high|n) FF`, or the stop command for speed 0. */
  function Drive(commandByte: byte, high: int, speed: real, stop: seq<byte>): (cmd: seq<byte>)
    requires high == 2 || high == 3
    ensures speed == 0.0 ==> cmd == stop
    ensures speed != 0.0 ==> (|cmd| == 6 && cmd[..4] == [0x81, 0x01, 0x04, commandByte] && cmd[5] == 0xFF
      && cmd[4] / 16 == high && cmd[4] % 16 == SpeedNibble(speed))
  {
    if speed == 0.0 then stop
    else [0x81, 0x01, 0x04, commandByte, high * 16 + SpeedNibble(speed), 0xFF]
  }

  function ZoomIn(speed: real): (cmd: seq<byte>)
    ensures speed == 0.0 ==> cmd == ZOOM_STOP
    ensures speed != 0.0 ==> (|cmd| == 6 && cmd[..4] == [0x81, 0x01, 0x04, 0x07] && cmd[5] == 0xFF
      && cmd[4] / 16 == 2 && cmd[4] % 16 == SpeedNibble(speed))
  {
    Drive(0x07, 2, speed, ZOOM_STOP)
  }

  function ZoomOut(speed: real): (cmd: seq<byte>)
    ensures speed == 0.0 ==> cmd == ZOOM_STOP
    ensures speed != 0.0 ==> (|cmd| == 6 && cmd[..4] == [0x81, 0x01, 0x04, 0x07] && cmd[5] == 0xFF
      && cmd[4] / 16 == 3 && cmd[4] % 16 == SpeedNibble(speed))
  {
    Drive(0x07, 3, speed, ZOOM_STOP)
  }

  function FocusNear(speed: real): (cmd: seq<byte>)
    ensures speed == 0.0 ==> cmd == FOCUS_STOP
    ensures speed != 0.0 ==> (|cmd| == 6 && cmd[..4] == [0x81, 0x01, 0x04, 0x08] && cmd[5] == 0xFF
      && cmd[4] / 16 == 2 && cmd[4] % 16 == SpeedNibble(speed))
  {
    Drive(0x08, 2, speed, FOCUS_STOP)
  }

  function FocusFar(speed: real): (cmd: seq<byte>)
    ensures speed == 0.0 ==> cmd == FOCUS_STOP
    ensures speed != 0.0 ==> (|cmd| == 6 && cmd[..4] == [0x81, 0x01, 0x04, 0x08] && cmd[5] == 0xFF
      && cmd[4] / 16 == 3 && cmd[4] % 16 == SpeedNibble(speed))
  {
    Drive(0x08, 3, speed, FOCUS_STOP)
  }

  /** Zoom in and zoom out never send the same drive byte (except that both stop at speed 0). */
  lemma ZoomDirectionsDiffer(a: real, b: real)
    requires a != 0.0 && b != 0.0
    ensures ZoomIn(a) != ZoomOut(b) && FocusNear(a) != FocusFar(b)
  {
    assert ZoomIn(a)[4] / 16 != ZoomOut(b)[4] / 16;
    assert FocusNear(a)[4] / 16 != FocusFar(b)[4] / 16;
  }

  function SetAutofocus(enable: bool): (cmd: seq<byte>)
    ensures |cmd| == 6 && cmd[..4] == [0x81, 0x01, 0x04, 0x38] && cmd[5] == 0xFF
    ensures cmd[4] == 0x02 || cmd[4] == 0x03
    ensures cmd[4] == 0x02 <==> enable
  {
    [0x81, 0x01, 0x04, 0x38, if enable then 0x02 else 0x03, 0xFF]
  }

  const ONE_PUSH_AF: seq<byte> := [0x81, 0x01, 0x04, 0x18, 0x01, 0xFF]
  const PAN_LEFT_LIMIT: seq<byte> := [0x81, 0x01, 0x06, 0x07, 0x01, 0xFF]
  const PAN_RIGHT_LIMIT: seq<byte> := [0x81, 0x01, 0x06, 0x07, 0x02, 0xFF]
  const CLEAR_PAN_LIMITS: seq<byte> := [0x81, 0x01, 0x06, 0x07, 0x03, 0xFF]
  const ONE_PUSH_WB: seq<byte> := [0x81, 0x01, 0x04, 0x10, 0x05, 0xFF]

  /** Auto-pan start `81 01 06 10 pp 00 FF`; the speed is formatted, not clamped. Stopping it sends STOP. */
  function StartAutoPan(panSpeed: int): (r: Request)
    ensures 0 <= panSpeed < 256 ==> r.Command? && r.bytes == [0x81, 0x01, 0x06, 0x10, panSpeed, 0x00, 0xFF]
    ensures panSpeed < 0 ==> r == BadHex
  {
    OneField(panSpeed);
    FieldCommand([0x81, 0x01, 0x06, 0x10], Format02X(panSpeed), [0x00, 0xFF])
  }

  /** One `02X` field: a byte value parses back, a negative value is rejected for its sign. */
  lemma OneField(n: int)
    ensures 0 <= n < 256 ==> IsHexText(Format02X(n)) && HexBytes(Format02X(n)) == [n]
    ensures n < 0 ==> !IsHexText(Format02X(n))
  {
    if 0 <= n < 256 {
      Format02XByte(n);
    } else if n < 0 {
      assert Format02X(n)[0] == '-';
    }
  }

  /** Preset recall (`02`) or store (`01`): numbers outside 0..254 are refused before sending. */
  function PresetCommand(action: byte, presetNumber: int): (r: Request)
    ensures r.Command? <==> PRESET_MIN <= presetNumber <= PRESET_MAX
    ensures r.Command? ==> r.bytes == [0x81, 0x01, 0x04, 0x3F, action, presetNumber, 0xFF]
    ensures !r.Command? ==> r == Refused
  {
    if presetNumber < PRESET_MIN || presetNumber > PRESET_MAX then Refused
    else
      Format02XByte(presetNumber);
      Command([0x81, 0x01, 0x04, 0x3F, action] + HexBytes(Format02X(presetNumber)) + [0xFF])
  }

  function RecallPreset(presetNumber: int): (r: Request)
    ensures r.Command? <==> PRESET_MIN <= presetNumber <= PRESET_MAX
    ensures r.Command? ==> r.bytes == [0x81, 0x01, 0x04, 0x3F, 0x02, presetNumber, 0xFF]
  {
    PresetCommand(0x02, presetNumber)
  }

  function StorePreset(presetNumber: int): (r: Request)
    ensures r.Command? <==> PRESET_MIN <= presetNumber <= PRESET_MAX
    ensures r.Command? ==> r.bytes == [0x81, 0x01, 0x04, 0x3F, 0x01, presetNumber, 0xFF]
  {
    PresetCommand(0x01, presetNumber)
  }

  /** Recall and store differ only in the action byte. */
  lemma PresetRecallStoreDiffer(n: int)
    requires PRESET_MIN <= n <= PRESET_MAX
    ensures RecallPreset(n).bytes[4] == 0x02 && StorePreset(n).bytes[4] == 0x01
    ensures RecallPreset(n).bytes[5] == StorePreset(n).bytes[5] == n
  {
  }

  function ExposureCode(m: ExposureMode): Option<byte>
  {
    match m
    case ExposureAuto => Some(0x00)
    case ExposureManual => Some(0x03)
    case ShutterPriority => Some(0x0A)
    case IrisPriority => Some(0x0B)
    case Bright => Some(0x0D)
    case ExposureUnknown => None
  }

  function SetExposureMode(m: ExposureMode): (r: Request)
    ensures r.Refused? <==> m == ExposureUnknown
    ensures r.Command? ==> (|r.bytes| == 6 && r.bytes[..4] == [0x81, 0x01, 0x04, 0x39] && r.bytes[5] == 0xFF
      && r.bytes[4] == ExposureCode(m).value)
  {
    match ExposureCode(m)
    case None => Refused
    case Some(c) => Command([0x81, 0x01, 0x04, 0x39, c, 0xFF])
  }

  /** A value setter: clamp to 0..max and send the four nibbles `0p 0q 0r 0s`. */
  function SetValue(commandByte: byte, max: int, value: int): (cmd: seq<byte>)
    requires 0 <= max < 65536
    ensures |cmd| == 9 && cmd[..4] == [0x81, 0x01, 0x04, commandByte] && cmd[8] == 0xFF
    ensures cmd[4..8] == NibbleBytes(Clamp(value, 0, max))
  {
    [0x81, 0x01, 0x04, commandByte] + NibbleBytes(Clamp(value, 0, max)) + [0xFF]
  }

  /**
   * What a value setter sends reads back, through the four-nibble reader, as
   * the clamped value: the value itself when it is in range, else the nearer bound.
   */
  lemma {:induction false} SetValueRoundTrip(commandByte: byte, max: int, value: int, header: seq<byte>)
    requires 0 <= max < 65536 && |header| == 8
    ensures var v := ExtractFourNibbles(ToHex(header + [0x90, 0x50] + SetValue(commandByte, max, value)[4..8] + [0xFF]));
      v.Some? && 0 <= v.value <= max
      && (0 <= value <= max ==> v.value == value)
      && (value < 0 ==> v.value == 0)
      && (value > max ==> v.value == max)
  {
    FourNibblesRoundTrip(header, 0x90, 0x50, Clamp(value, 0, max));
  }

  // The setters clamp to exactly the ViscaLimits ranges, and the colour gains to 0..255.
  function SetIris(value: int): (cmd: seq<byte>)
    ensures |cmd| == 9 && cmd[..4] == [0x81, 0x01, 0x04, 0x4B] && cmd[4..8] == NibbleBytes(Clamp(value, IRIS_MIN, IRIS_MAX))
  {
    SetValue(0x4B, IRIS_MAX, value)
  }

  function SetShutter(value: int): (cmd: seq<byte>)
    ensures |cmd| == 9 && cmd[..4] == [0x81, 0x01, 0x04, 0x4A] && cmd[4..8] == NibbleBytes(Clamp(value, SHUTTER_MIN, SHUTTER_MAX))
  {
    SetValue(0x4A, SHUTTER_MAX, value)
  }

  function SetGain(value: int): (cmd: seq<byte>)
    ensures |cmd| == 9 && cmd[..4] == [0x81, 0x01, 0x04, 0x4C] && cmd[4..8] == NibbleBytes(Clamp(value, GAIN_MIN, GAIN_MAX))
  {
    SetValue(0x4C, GAIN_MAX, value)
  }

  function SetBrightness(value: int): (cmd: seq<byte>)
    ensures |cmd| == 9 && cmd[..4] == [0x81, 0x01, 0x04, 0x4D] && cmd[4..8] == NibbleBytes(Clamp(value, BRIGHTNESS_MIN, BRIGHTNESS_MAX))
  {
    SetValue(0x4D, BRIGHTNESS_MAX, value)
  }

  function SetRedGain(value: int): (cmd: seq<byte>)
    ensures |cmd| == 9 && cmd[..4] == [0x81, 0x01, 0x04, 0x43] && cmd[4..8] == NibbleBytes(Clamp(value, 0, 255))
  {
    SetValue(0x43, 255, value)
  }

  function SetBlueGain(value: int): (cmd: seq<byte>)
    ensures |cmd| == 9 && cmd[..4] == [0x81, 0x01, 0x04, 0x44] && cmd[4..8] == NibbleBytes(Clamp(value, 0, 255))
  {
    SetValue(0x44, 255, value)
  }

  function SetBacklightComp(enable: bool): (cmd: seq<byte>)
    ensures |cmd| == 6 && cmd[..4] == [0x81, 0x01, 0x04, 0x33] && cmd[5] == 0xFF
    ensures cmd[4] == 0x02 || cmd[4] == 0x03
    ensures cmd[4] == 0x02 <==> enable
  {
    [0x81, 0x01, 0x04, 0x33, if enable then 0x02 else 0x03, 0xFF]
  }

  function WhiteBalanceCode(m: WhiteBalanceMode): Option<byte>
  {
    match m
    case WbAuto => Some(0x00)
    case WbIndoor => Some(0x01)
    case WbOutdoor => Some(0x02)
    case WbOnePush => Some(0x03)
    case WbManual => Some(0x05)
    case WbUnknown => None
  }

  function SetWhiteBalanceMode(m: WhiteBalanceMode): (r: Request)
    ensures r.Refused? <==> m == WbUnknown
    ensures r.Command? ==> (|r.bytes| == 6 && r.bytes[..4] == [0x81, 0x01, 0x04, 0x35] && r.bytes[5] == 0xFF
      && r.bytes[4] == WhiteBalanceCode(m).value)
  {
    match WhiteBalanceCode(m)
    case None => Refused
    case Some(c) => Command([0x81, 0x01, 0x04, 0x35, c, 0xFF])
  }

  function FormatValue(f: VideoFormat): byte
  {
    match f
    case Format(c) => c
    case FormatUnknown => 0xFF
  }

  function SetVideoFormat(f: VideoFormat): (r: Request)
    ensures r.Refused? <==> f == FormatUnknown
    ensures r.Command? ==> f.Format? && r.bytes == [0x81, 0x01, 0x06, 0x35, f.code as byte, 0xFF]
  {
    if f == FormatUnknown then Refused
    else
      Format02XByte(FormatValue(f));
      Command([0x81, 0x01, 0x06, 0x35] + HexBytes(Format02X(FormatValue(f))) + [0xFF])
  }

  // ---------------------------------------------------------------------
  // Reply decoders. A reply is the datagram the query returned, or None.
  // ---------------------------------------------------------------------

  /** `response and len(response) > n`. */
  predicate Longer(reply: Option<seq<byte>>, n: nat)
  {
    reply.Some? && |reply.value| > n
  }

  /** `int(a + b, 16)` on a two-character slice. */
  function HexPair(a: char, b: char): Option<int>
  {
    match (HexValue(a), HexValue(b))
    case (Some(x), Some(y)) => Some(x * 16 + y)
    case _ => None
  }

  lemma HexPairOfByte(b: byte)
    ensures HexPair(HexDigit(b / 16), HexDigit(b % 16)) == Some(b)
  {
  }

  /**
   * Focus mode: the character third from the end of the hex text, '2' auto,
   * '3' manual; that is the low nibble of the byte before the terminator.
   */
  function QueryFocusMode(reply: Option<seq<byte>>): (r: FocusMode)
    ensures r == FocusAuto <==> Longer(reply, 3) && reply.value[|reply.value| - 2] % 16 == 2
    ensures r == FocusManual <==> Longer(reply, 3) && reply.value[|reply.value| - 2] % 16 == 3
  {
    if Longer(reply, 3) then
      var h := ToHex(reply.value);
      ToHexAt(reply.value, |reply.value| - 2);
      if |h| >= 3 && h[|h| - 3] == '2' then FocusAuto
      else if |h| >= 3 && h[|h| - 3] == '3' then FocusManual
      else FocusUnknown
    else FocusUnknown
  }

  /** The autofocus setting's code, echoed in a reply `90 50 0p FF`, decodes back to it. */
  lemma FocusRoundTrip(header: seq<byte>, enable: bool)
    requires |header| == 8
    ensures QueryFocusMode(Some(header + [0x90, 0x50, SetAutofocus(enable)[4], 0xFF]))
      == if enable then FocusAuto else FocusManual
  {
    var bs := header + [0x90, 0x50, SetAutofocus(enable)[4], 0xFF];
    ToHexAt(bs, 10);
  }

  /** The exposure nibble table, with 0xF as the BirdDog alias of BRIGHT. */
  function ExposureFromNibble(v: int): ExposureMode
  {
    if v == 0 then ExposureAuto
    else if v == 3 then ExposureManual
    else if v == 10 then ShutterPriority
    else if v == 11 then IrisPriority
    else if v == 13 || v == 15 then Bright
    else ExposureUnknown
  }

  /** Exposure mode: the nibble at offset 5 after the header, when the hex text has 20 characters or more. */
  function QueryExposureMode(reply: Option<seq<byte>>): (r: ExposureMode)
    ensures r == if Longer(reply, 10) then ExposureFromNibble(reply.value[10] % 16) else ExposureUnknown
  {
    if Longer(reply, 2) && |ToHex(reply.value)| >= 20 then
      NibbleFiveOf(reply.value);
      match ExtractSingleNibble(ToHex(reply.value), 5)
      case None => ExposureUnknown
      case Some(v) => ExposureFromNibble(v)
    else ExposureUnknown
  }

  /** Offset 5 after the header is the low nibble of byte 10, and missing from a shorter reply. */
  lemma NibbleFiveOf(bs: seq<byte>)
    ensures ExtractSingleNibble(ToHex(bs), 5) == if |bs| >= 11 then Some(bs[10] % 16) else None
  {
    if |bs| >= 11 {
      SingleNibbleOfReply(bs);
    }
  }

  /** Reply `90 50 0p FF` behind any header carries p in the low nibble of byte 10. */
  lemma ModeReplyNibble(header: seq<byte>, code: byte)
    requires |header| == 8
    ensures Longer(Some(header + [0x90, 0x50, code, 0xFF]), 3)
    ensures |ToHex(header + [0x90, 0x50, code, 0xFF])| >= 20
    ensures ExtractSingleNibble(ToHex(header + [0x90, 0x50, code, 0xFF]), 5) == Some(code % 16)
  {
    SingleNibbleOfReply(header + [0x90, 0x50, code, 0xFF]);
  }

  /** Every code the exposure setter sends decodes back to its mode; UNKNOWN is never sent. */
  lemma ExposureRoundTrip(header: seq<byte>, m: ExposureMode)
    requires |header| == 8
    ensures m == ExposureUnknown <==> SetExposureMode(m) == Refused
    ensures m != ExposureUnknown ==>
      QueryExposureMode(Some(header + [0x90, 0x50, SetExposureMode(m).bytes[4], 0xFF])) == m
  {
    if m != ExposureUnknown {
      ModeReplyNibble(header, SetExposureMode(m).bytes[4]);
    }
  }

  /** The BirdDog reply `0F` also decodes to BRIGHT, and every nibble outside the table to UNKNOWN. */
  lemma ExposureAliases(header: seq<byte>, p: int)
    requires |header| == 8 && 0 <= p < 16
    ensures p == 15 ==> QueryExposureMode(Some(header + [0x90, 0x50, p, 0xFF])) == Bright
    ensures p !in {0, 3, 10, 11, 13, 15} ==> QueryExposureMode(Some(header + [0x90, 0x50, p, 0xFF])) == ExposureUnknown
  {
    ModeReplyNibble(header, p);
  }

  /** A reply with fewer than 11 bytes cannot be read and gives UNKNOWN. */
  lemma ExposureShortReply(reply: seq<byte>)
    requires |reply| < 11
    ensures QueryExposureMode(Some(reply)) == ExposureUnknown
  {
  }

  /**
   * iris, shutter and gain as written: the byte just before the terminator,
   * `int(hex[-4:-2], 16)`, when the reply is longer than 3 bytes.
   */
  function QueryLastValueByte(reply: Option<seq<byte>>): (r: Option<int>)
    ensures r.Some? <==> reply.Some? && |reply.value| >= 6
    ensures r.Some? ==> r.value == reply.value[|reply.value| - 2]
  {
    if Longer(reply, 3) && |ToHex(reply.value)| >= 12 then
      var h := ToHex(reply.value);
      ToHexAt(reply.value, |reply.value| - 2);
      HexPairOfByte(reply.value[|reply.value| - 2]);
      HexPair(h[|h| - 4], h[|h| - 3])
    else None
  }

  /**
   * The four-nibble reader that iris, shutter and gain evidently intend (and
   * that red and blue gain use): `0p 0q 0r 0s` after `90 50`, hex text of at
   * least 30 characters.
   */
  function QueryFourNibbleValue(reply: Option<seq<byte>>): (r: Option<int>)
    ensures r.Some? ==> 0 <= r.value < 65536
  {
    if Longer(reply, 3) && |ToHex(reply.value)| >= 30 then ExtractFourNibbles(ToHex(reply.value))
    else None
  }

  /** The standard reply to a value query: `90 50 0p 0q 0r 0s FF` behind the header. */
  function ValueReply(header: seq<byte>, v: int): seq<byte>
    requires 0 <= v < 65536
  {
    header + [0x90, 0x50] + NibbleBytes(v) + [0xFF]
  }

  /** The four-nibble reader returns every value below 65536 from its standard reply. */
  lemma FourNibbleValueRoundTrip(header: seq<byte>, v: int)
    requires |header| == 8 && 0 <= v < 65536
    ensures QueryFourNibbleValue(Some(ValueReply(header, v))) == Some(v)
  {
    FourNibblesRoundTrip(header, 0x90, 0x50, v);
  }

  /** Red and blue gain read back what their setters send. */
  lemma ColorGainRoundTrip(header: seq<byte>, value: int)
    requires |header| == 8
    ensures QueryFourNibbleValue(Some(ValueReply(header, Clamp(value, 0, 255)))) == Some(Clamp(value, 0, 255))
  {
    FourNibbleValueRoundTrip(header, Clamp(value, 0, 255));
  }

  /**
   * As written, iris 17 (reply `... 00 00 01 01 FF`) reads back as 1: only the
   * last nibble byte is used, so every iris or shutter value of 16 or more is misread.
   */
  lemma IrisSeventeenMisread(header: seq<byte>)
    requires |header| == 8
    ensures QueryLastValueByte(Some(ValueReply(header, IRIS_MAX))) == Some(1)
    ensures QueryFourNibbleValue(Some(ValueReply(header, IRIS_MAX))) == Some(IRIS_MAX)
  {
    var bs := ValueReply(header, IRIS_MAX);
    assert bs[|bs| - 2] == 1;
    ToHexAt(bs, |bs| - 2);
    FourNibbleValueRoundTrip(header, IRIS_MAX);
  }

  /** The as-written reader agrees with the intended one exactly on values below 16. */
  lemma LastValueByteAgreesBelowSixteen(header: seq<byte>, v: int)
    requires |header| == 8 && 0 <= v < 65536
    ensures QueryLastValueByte(Some(ValueReply(header, v))) == Some(v) <==> v < 16
  {
    var bs := ValueReply(header, v);
    assert |bs| == 15 && bs[13] == NibbleBytes(v)[3];
    assert |ToHex(bs)| == 30;
    var r := QueryLastValueByte(Some(bs));
    assert r.Some? && r.value == v % 16;
  }

  /** `a + b in h`: the two characters appear next to each other anywhere in h. */
  predicate ContainsPair(h: string, a: char, b: char)
  {
    exists i :: 0 <= i < |h| - 1 && h[i] == a && h[i + 1] == b
  }

  /**
   * Brightness as written: any "60" or "61" anywhere in the hex text,
   * header included, is taken for an error reply.
   */
  function QueryBrightnessAsWritten(reply: Option<seq<byte>>): (r: Option<int>)
    ensures r.Some? ==> r == QueryBrightness(reply)
  {
    if Longer(reply, 3) then
      var h := ToHex(reply.value);
      ErrorReplyShowsPair(reply.value);
      if ContainsPair(h, '6', '0') || ContainsPair(h, '6', '1') then None
      else if |h| >= 30 then ExtractFourNibbles(h)
      else None
    else None
  }

  /** VISCA error replies carry 0x60 or 0x61 as their second byte. */
  predicate IsErrorReply(bs: seq<byte>)
  {
    |bs| > 9 && (bs[9] == 0x60 || bs[9] == 0x61)
  }

  /** An error reply's status byte shows in its hex text as "60" or "61". */
  lemma ErrorReplyShowsPair(bs: seq<byte>)
    ensures IsErrorReply(bs) ==> ContainsPair(ToHex(bs), '6', '0') || ContainsPair(ToHex(bs), '6', '1')
  {
    if IsErrorReply(bs) {
      ToHexAt(bs, 9);
      var h := ToHex(bs);
      assert h[18] == '6' && (h[19] == '0' || h[19] == '1');
    }
  }

  /** Brightness as intended: an error reply gives None, anything else is read like the other values. */
  function QueryBrightness(reply: Option<seq<byte>>): (r: Option<int>)
    ensures r.Some? ==> 0 <= r.value < 65536 && reply.Some? && !IsErrorReply(reply.value)
  {
    if Longer(reply, 3) && IsErrorReply(reply.value) then None
    else QueryFourNibbleValue(reply)
  }

  /** Every brightness the setter can send is read back from its reply, whatever the header. */
  lemma BrightnessRoundTrip(header: seq<byte>, value: int)
    requires |header| == 8
    ensures QueryBrightness(Some(ValueReply(header, Clamp(value, BRIGHTNESS_MIN, BRIGHTNESS_MAX))))
      == Some(Clamp(value, BRIGHTNESS_MIN, BRIGHTNESS_MAX))
  {
    FourNibbleValueRoundTrip(header, Clamp(value, BRIGHTNESS_MIN, BRIGHTNESS_MAX));
  }

  /** A reply header carrying sequence number 0x60. */
  const SEQ_96_HEADER: seq<byte> := [0x01, 0x11, 0x00, 0x07, 0x00, 0x00, 0x00, 0x60]

  /**
   * As written, a well-formed brightness reply (value 20) is rejected when its
   * header carries sequence number 96: the "60" in the header looks like an error.
   */
  lemma BrightnessRejectedBySequenceNumber()
    ensures QueryBrightnessAsWritten(Some(ValueReply(SEQ_96_HEADER, 20))) == None
    ensures QueryBrightness(Some(ValueReply(SEQ_96_HEADER, 20))) == Some(20)
  {
    var bs := ValueReply(SEQ_96_HEADER, 20);
    ToHexAt(bs, 7);
    var h := ToHex(bs);
    assert h[14] == '6' && h[15] == '0';
    BrightnessRoundTrip(SEQ_96_HEADER, 20);
  }

  /** The white-balance table, with the BirdDog aliases 6 (INDOOR) and 10 (MANUAL). */
  function WhiteBalanceFromValue(v: int): WhiteBalanceMode
  {
    if v == 0 then WbAuto
    else if v == 1 || v == 6 then WbIndoor
    else if v == 2 then WbOutdoor
    else if v == 3 then WbOnePush
    else if v == 5 || v == 10 then WbManual
    else WbUnknown
  }

  /** White balance: the last byte before the terminator, `int(visca[-4:-2], 16)`. */
  function QueryWhiteBalanceMode(reply: Option<seq<byte>>): (r: WhiteBalanceMode)
    ensures r == if Longer(reply, 9) then WhiteBalanceFromValue(reply.value[|reply.value| - 2]) else WbUnknown
  {
    if Longer(reply, 2) && |ToHex(reply.value)| >= 20 then
      var v := Drop(ToHex(reply.value), HEADER_LENGTH);
      ToHexAt(reply.value, |reply.value| - 2);
      HexPairOfByte(reply.value[|reply.value| - 2]);
      match HexPair(v[|v| - 4], v[|v| - 3])
      case None => WbUnknown
      case Some(x) => WhiteBalanceFromValue(x)
    else WbUnknown
  }

  /** Every code the white-balance setter sends decodes back to its mode. */
  lemma WhiteBalanceRoundTrip(header: seq<byte>, m: WhiteBalanceMode)
    requires |header| == 8
    ensures m == WbUnknown <==> SetWhiteBalanceMode(m) == Refused
    ensures m != WbUnknown ==>
      QueryWhiteBalanceMode(Some(header + [0x90, 0x50, SetWhiteBalanceMode(m).bytes[4], 0xFF])) == m
  {
  }

  /** Vendor aliases: 6 reads as INDOOR, 10 as MANUAL, and a byte outside the table as UNKNOWN. */
  lemma WhiteBalanceAliases(header: seq<byte>, b: byte)
    requires |header| == 8
    ensures b == 6 ==> QueryWhiteBalanceMode(Some(header + [0x90, 0x50, b, 0xFF])) == WbIndoor
    ensures b == 10 ==> QueryWhiteBalanceMode(Some(header + [0x90, 0x50, b, 0xFF])) == WbManual
    ensures b !in {0, 1, 2, 3, 5, 6, 10} ==> QueryWhiteBalanceMode(Some(header + [0x90, 0x50, b, 0xFF])) == WbUnknown
  {
  }

  /** Backlight compensation: on iff the nibble at offset 5 is 2; None when unreadable. */
  function QueryBacklightComp(reply: Option<seq<byte>>): (r: Option<bool>)
    ensures r == if Longer(reply, 10) then Some(reply.value[10] % 16 == 2) else None
  {
    if Longer(reply, 2) && |ToHex(reply.value)| >= 20 then
      NibbleFiveOf(reply.value);
      match ExtractSingleNibble(ToHex(reply.value), 5)
      case None => None
      case Some(v) => Some(v == 2)
    else None
  }

  lemma BacklightRoundTrip(header: seq<byte>, enable: bool)
    requires |header| == 8
    ensures QueryBacklightComp(Some(header + [0x90, 0x50, SetBacklightComp(enable)[4], 0xFF])) == Some(enable)
  {
    ModeReplyNibble(header, SetBacklightComp(enable)[4]);
  }

  /** Video format: the second reply byte, `int(visca[2:4], 16)`, matched against the known codes. */
  function QueryVideoFormat(reply: Option<seq<byte>>): (r: VideoFormat)
    ensures r == if Longer(reply, 9) then (if reply.value[9] <= 0x0E then Format(reply.value[9]) else FormatUnknown)
      else FormatUnknown
  {
    if Longer(reply, 2) && |ToHex(reply.value)| >= 20 then
      var v := Drop(ToHex(reply.value), HEADER_LENGTH);
      ToHexAt(reply.value, 9);
      HexPairOfByte(reply.value[9]);
      match HexPair(v[2], v[3])
      case Some(c) => if 0 <= c <= 0x0E then Format(c) else FormatUnknown
      case None => FormatUnknown
    else FormatUnknown
  }

  /** The code the format setter sends, carried as the second reply byte, decodes back to the format. */
  lemma VideoFormatRoundTrip(header: seq<byte>, f: VideoFormat, y: byte, tail: seq<byte>)
    requires |header| == 8 && f != FormatUnknown && |tail| >= 1
    ensures QueryVideoFormat(Some(header + [y, SetVideoFormat(f).bytes[4]] + tail)) == f
  {
    var bs := header + [y, SetVideoFormat(f).bytes[4]] + tail;
    ToHexAt(bs, 9);
    HexPairOfByte(bs[9]);
  }

  // ---------------------------------------------------------------------
  // The client: sequence counter, socket presence and the datagrams sent
  // ---------------------------------------------------------------------

  /**
   * How a query's exchange with the socket goes: getting the socket fails
   * before any packet is built, `sendto` fails after the packet is built, or
   * the send succeeds and the receive gives a datagram, an OS error or a
   * timeout.
   */
  datatype QueryExchange =
    | SocketError
    | SendError
    | Datagram(bytes: seq<byte>)
    | ReceiveError
    | ReceiveTimeout

  /**
   * What `query_command` gives its caller: a reply (None after an OS error),
   * or a raised `ViscaTimeoutError`, which none of the query readers catch.
   */
  datatype QueryOutcome = Replied(reply: Option<seq<byte>>) | TimeoutRaised

  class ViscaClient {
    const ip: string
    const port: int
    var seqNum: int
    var socketOpen: bool
    /** Every datagram handed to the transport, in order. */
    var sent: seq<seq<byte>>

    ghost predicate Valid()
      reads this
    {
      0 <= seqNum < SEQ_MODULUS
    }

    constructor (ip: string, port: Option<int>)
      ensures Valid() && this.ip == ip && this.port == port.GetOr(VISCA_DEFAULT_PORT)
      ensures seqNum == 0 && !socketOpen && sent == []
    {
      this.ip := ip;
      this.port := port.GetOr(VISCA_DEFAULT_PORT);
      seqNum := 0;
      socketOpen := false;
      sent := [];
    }

    /** Returns the current counter and advances it modulo SEQ_MODULUS. */
    method GetSeqNum() returns (s: int)
      requires Valid()
      modifies this`seqNum
      ensures Valid()
      ensures s == old(seqNum) && seqNum == NextSeq(s) && seqNum != s
    {
      s := seqNum;
      seqNum := (seqNum + 1) % SEQ_MODULUS;
      NextSeqProperties(s);
    }

    /** Header plus command; a payload too long for the 16-bit field makes `struct.pack` fail after the counter moved. */
    method BuildPacket(cmd: seq<byte>) returns (p: Option<seq<byte>>)
      requires Valid()
      modifies this`seqNum
      ensures Valid() && seqNum == NextSeq(old(seqNum))
      ensures p.Some? <==> |cmd| < 0x1_0000
      ensures p.Some? ==> p.value == Packet(cmd, old(seqNum))
    {
      var s := GetSeqNum();
      if |cmd| < 0x1_0000 {
        p := Some(Packet(cmd, s));
      } else {
        p := None;
      }
    }

    method Close()
      modifies this`socketOpen
      ensures !socketOpen
    {
      socketOpen := false;
    }

    /**
     * `send_command` for a built request: a refused request sends nothing and
     * changes nothing; otherwise the socket is opened, a packet is built and
     * handed to the transport, and any failure closes the socket.
     */
    method SendCommand(req: Request, transportOk: bool) returns (ok: bool)
      requires Valid()
      modifies this
      ensures Valid()
      ensures ok <==> req.Command? && |req.bytes| < 0x1_0000 && transportOk
      ensures req.Refused? ==> seqNum == old(seqNum) && socketOpen == old(socketOpen) && sent == old(sent)
      ensures req.BadHex? ==> seqNum == old(seqNum) && !socketOpen && sent == old(sent)
      ensures req.Command? ==> seqNum == NextSeq(old(seqNum)) && socketOpen == ok
      ensures ok ==> sent == old(sent) + [Packet(req.bytes, old(seqNum))]
      ensures !ok ==> sent == old(sent)
    {
      if req.Refused? {
        return false;
      }
      socketOpen := true;
      if req.BadHex? {
        Close();
        return false;
      }
      var p := BuildPacket(req.bytes);
      if p.Some? && transportOk {
        sent := sent + [p.value];
        ok := true;
      } else {
        Close();
        ok := false;
      }
    }

    /**
     * `query_command`: the packet is sent and whatever datagram comes back is
     * returned, with no check of its sequence number. An OS error closes the
     * socket and gives None (the counter has advanced iff the packet was
     * built); a timeout closes the socket and raises `ViscaTimeoutError` to
     * the caller. Only a packet that `sendto` accepted is logged as sent.
     */
    method QueryCommand(cmd: seq<byte>, exchange: QueryExchange) returns (r: QueryOutcome)
      requires Valid() && |cmd| < 0x1_0000
      modifies this
      ensures Valid()
      ensures seqNum == if exchange.SocketError? then old(seqNum) else NextSeq(old(seqNum))
      ensures sent == if exchange.SocketError? || exchange.SendError? then old(sent)
                      else old(sent) + [Packet(cmd, old(seqNum))]
      ensures exchange.SocketError? || exchange.SendError? ==> r == Replied(None) && !socketOpen
      ensures exchange.Datagram? ==> r == Replied(Some(exchange.bytes)) && socketOpen
      ensures exchange.ReceiveError? ==> r == Replied(None) && !socketOpen
      ensures exchange.ReceiveTimeout? ==> r == TimeoutRaised && !socketOpen
    {
      if exchange.SocketError? {
        Close();
        return Replied(None);
      }
      socketOpen := true;
      var p := BuildPacket(cmd);
      if exchange.SendError? {
        Close();
        return Replied(None);
      }
      sent := sent + [p.value];
      if exchange.Datagram? {
        r := Replied(Some(exchange.bytes));
      } else if exchange.ReceiveError? {
        Close();
        r := Replied(None);
      } else {
        Close();
        r := TimeoutRaised;
      }
    }
  }
}

/** The wire formats the CDC-ACM driver writes into its control transfer buffer: the 8-byte
    setup packet of section 9.3 of USB 2.0, and the 7-byte line-coding structure of section
    6.2.13 of USB CDC 1.1, together with the CDC class requests the driver issues. */
module CdcRequests {
  import opened UsbTypes

  /** bmRequestType of a class request to an interface, host to device. */
  const SET_VALUE: byte := 0x21
  /** bmRequestType of a class request to an interface, device to host. */
  const GET_VALUE: byte := 0xA1

  /** bRequest codes of the CDC class requests (table 46 of USB CDC 1.1). */
  const CLEAR_COMM_FEATURE: byte := 0x04
  const SET_LINE_CODING: byte := 0x20
  const GET_LINE_CODING: byte := 0x21
  const SET_CONTROL_LINE_STATE: byte := 0x22

  /** sizeof(usb_setup_packet_t). */
  const SETUP_SIZE: nat := 8
  /** sizeof(line_coding_t), packed. */
  const LINE_CODING_SIZE: nat := 7
  /** Feature selector ABSTRACT_STATE, the one clearCommFeature clears. */
  const ABSTRACT_STATE: u16 := 1

  datatype Setup = Setup(bmRequestType: byte, bRequest: byte, wValue: u16, wIndex: u16, wLength: u16)

  function Lo(w: u16): byte
  {
    (w % 0x100) as byte
  }

  function Hi(w: u16): byte
  {
    (w / 0x100) as byte
  }

  function Word(lo: byte, hi: byte): u16
  {
    (lo as int + 0x100 * hi as int) as u16
  }

  /** A setup packet as it lies in memory: one byte each for bmRequestType and bRequest, then
      the three 16-bit fields little-endian. */
  function EncodeSetup(p: Setup): (b: seq<byte>)
    ensures |b| == SETUP_SIZE
    ensures b[0] == p.bmRequestType && b[1] == p.bRequest
  {
    [p.bmRequestType, p.bRequest, Lo(p.wValue), Hi(p.wValue), Lo(p.wIndex), Hi(p.wIndex),
     Lo(p.wLength), Hi(p.wLength)]
  }

  /** Reads a setup packet from the first eight bytes of a buffer. */
  function DecodeSetup(b: seq<byte>): Setup
    requires |b| >= SETUP_SIZE
  {
    Setup(b[0], b[1], Word(b[2], b[3]), Word(b[4], b[5]), Word(b[6], b[7]))
  }

  lemma WordRoundTrip(w: u16)
    ensures Word(Lo(w), Hi(w)) == w
  {
  }

  lemma BytesRoundTrip(lo: byte, hi: byte)
    ensures Lo(Word(lo, hi)) == lo && Hi(Word(lo, hi)) == hi
  {
  }

  /** Decoding an encoded setup packet gives the packet back. */
  lemma SetupRoundTrip(p: Setup)
    ensures DecodeSetup(EncodeSetup(p)) == p
  {
    WordRoundTrip(p.wValue);
    WordRoundTrip(p.wIndex);
    WordRoundTrip(p.wLength);
  }

  /** Every eight bytes are the encoding of the packet they decode to. */
  lemma SetupBytesRoundTrip(b: seq<byte>)
    requires |b| == SETUP_SIZE
    ensures EncodeSetup(DecodeSetup(b)) == b
  {
    BytesRoundTrip(b[2], b[3]);
    BytesRoundTrip(b[4], b[5]);
    BytesRoundTrip(b[6], b[7]);
  }

  /** line_coding_t: data terminal rate in bits per second, stop bits (0: 1, 1: 1.5, 2: 2),
      parity (0: none, 1: odd, 2: even, 3: mark, 4: space) and data bits. */
  datatype LineCoding = LineCoding(dwDTERate: u32, bCharFormat: byte, bParityType: byte, bDataBits: byte)

  /** The packed structure as a little-endian target lays it out: dwDTERate least significant
      byte first, then bCharFormat, bParityType and bDataBits. */
  function EncodeLineCoding(lc: LineCoding): (b: seq<byte>)
    ensures |b| == LINE_CODING_SIZE
    ensures b[4] == lc.bCharFormat && b[5] == lc.bParityType && b[6] == lc.bDataBits
  {
    var r := lc.dwDTERate as int;
    [(r % 0x100) as byte, (r / 0x100 % 0x100) as byte, (r / 0x1_0000 % 0x100) as byte,
     (r / 0x100_0000) as byte, lc.bCharFormat, lc.bParityType, lc.bDataBits]
  }

  function DecodeLineCoding(b: seq<byte>): LineCoding
    requires |b| == LINE_CODING_SIZE
  {
    var r := b[0] as int + 0x100 * b[1] as int + 0x1_0000 * b[2] as int + 0x100_0000 * b[3] as int;
    LineCoding(r as u32, b[4], b[5], b[6])
  }

  /** Dividing by 0x100 twice is dividing by 0x1_0000. */
  lemma DivTwice(x: int)
    requires x >= 0
    ensures x / 0x100 / 0x100 == x / 0x1_0000
  {
  }

  /** Dividing by 0x1_0000 and then by 0x100 is dividing by 0x100_0000. */
  lemma DivThrice(x: int)
    requires x >= 0
    ensures x / 0x1_0000 / 0x100 == x / 0x100_0000
  {
  }

  /** A byte below a multiple of 0x100 is its remainder, and the multiple its quotient. */
  lemma SplitByte(lo: int, hi: int)
    requires 0 <= lo < 0x100 && hi >= 0
    ensures (lo + 0x100 * hi) % 0x100 == lo && (lo + 0x100 * hi) / 0x100 == hi
  {
  }

  /** Decoding the seven bytes setLineCoding writes returns its arguments. */
  lemma LineCodingRoundTrip(lc: LineCoding)
    ensures DecodeLineCoding(EncodeLineCoding(lc)) == lc
  {
    var r := lc.dwDTERate as int;
    var b := EncodeLineCoding(lc);
    var r1 := r / 0x100;
    var r2 := r1 / 0x100;
    var r3 := r2 / 0x100;
    DivTwice(r);
    DivThrice(r);
    assert r / 0x1_0000 == r2;
    assert r / 0x100_0000 == r3;
    assert r == b[0] as int + 0x100 * r1;
    assert r1 == b[1] as int + 0x100 * r2;
    assert r2 == b[2] as int + 0x100 * b[3] as int;
  }

  /** Every seven bytes are the encoding of the line coding they decode to. */
  lemma LineCodingBytesRoundTrip(b: seq<byte>)
    requires |b| == LINE_CODING_SIZE
    ensures EncodeLineCoding(DecodeLineCoding(b)) == b
  {
    var r2 := b[2] as int + 0x100 * b[3] as int;
    var r1 := b[1] as int + 0x100 * r2;
    var r := b[0] as int + 0x100 * r1;
    assert r == b[0] as int + 0x100 * b[1] as int + 0x1_0000 * b[2] as int + 0x100_0000 * b[3] as int;
    SplitByte(b[0] as int, r1);
    SplitByte(b[1] as int, r2);
    SplitByte(b[2] as int, b[3] as int);
    DivTwice(r);
    DivThrice(r);
  }

  /** 115200 baud, one stop bit, no parity, eight data bits. */
  lemma LineCoding115200()
    ensures EncodeLineCoding(LineCoding(115200, 0, 0, 8)) == [0x00, 0xC2, 0x01, 0x00, 0x00, 0x00, 0x08]
  {
  }

  // ---------------------------------------------------------------------------------------
  // The CDC class requests (sections 6.2.4, 6.2.12, 6.2.13 and 6.2.14 of USB CDC 1.1), as the
  // request macros fill in a setup packet for interface intf

  function SetLineCodingRequest(intf: u16): Setup
  {
    Setup(SET_VALUE, SET_LINE_CODING, 0, intf, LINE_CODING_SIZE as u16)
  }

  function GetLineCodingRequest(intf: u16): Setup
  {
    Setup(GET_VALUE, GET_LINE_CODING, 0, intf, LINE_CODING_SIZE as u16)
  }

  /** wValue carries DTR in bit 0 and RTS in bit 1. */
  function SetControlLineStateRequest(intf: u16, dtr: bool, rts: bool): Setup
  {
    Setup(SET_VALUE, SET_CONTROL_LINE_STATE, (if dtr then 1 else 0) + (if rts then 2 else 0), intf, 0)
  }

  function ClearCommFeatureRequest(intf: u16, feature: u16): Setup
  {
    Setup(SET_VALUE, CLEAR_COMM_FEATURE, feature, intf, 0)
  }

  /** The two line-state bits can be read back from the packet's wValue. */
  lemma ControlLineStateBits(intf: u16, dtr: bool, rts: bool)
    ensures var v := SetControlLineStateRequest(intf, dtr, rts).wValue;
      && (v % 2 == 1 <==> dtr)
      && (v / 2 % 2 == 1 <==> rts)
      && v < 4
  {
  }
}

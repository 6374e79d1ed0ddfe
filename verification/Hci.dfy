/** HCI bytes: little-endian fields, command packets and the Command Complete event
    (Bluetooth Core Specification 5.x, Vol 4 Part E, sections 5.4.1 and 7.7.14). */
module Hci {
  type byte = x: int | 0 <= x < 0x100
  type u16 = x: int | 0 <= x < 0x1_0000
  type u32 = x: int | 0 <= x < 0x1_0000_0000

  const RESET: u16 := 0x0C03
  const WRITE_UART_CLOCK_SETTING: u16 := 0xFC45
  const UPDATE_BAUDRATE: u16 := 0xFC18
  const READ_LOCAL_NAME: u16 := 0x0C14
  const DOWNLOAD_MINIDRV: u16 := 0xFC2E
  const WRITE_BD_ADDR: u16 := 0xFC01
  const WRITE_SLEEP_MODE: u16 := 0xFC27
  const WRITE_SCO_PCM_INT_PARAM: u16 := 0xFC1C
  const WRITE_PCM_DATA_FORMAT_PARAM: u16 := 0xFC1E
  const WRITE_I2SPCM_INTERFACE_PARAM: u16 := 0xFC6D
  const ENABLE_WBS: u16 := 0xFC7E
  const LAUNCH_RAM: u16 := 0xFC4E
  const READ_LOCAL_BDADDR: u16 := 0x1009

  const PREAMBLE := 3
  const MAX_COMMAND := 258
  const OPCODE_AT := 3
  const STATUS_AT := 5
  const BDADDR_AT := 6

  function Le16(v: u16): seq<byte> {
    [v % 0x100, v / 0x100]
  }

  function ReadLe16(s: seq<byte>, at: nat): u16
    requires at + 2 <= |s|
  {
    s[at] as int + 0x100 * (s[at + 1] as int)
  }

  function Le32(v: u32): seq<byte> {
    [v % 0x100, v / 0x100 % 0x100, v / 0x1_0000 % 0x100, v / 0x100_0000]
  }

  function ReadLe32(s: seq<byte>, at: nat): u32
    requires at + 4 <= |s|
  {
    s[at] as int + 0x100 * (s[at + 1] as int) + 0x1_0000 * (s[at + 2] as int) + 0x100_0000 * (s[at + 3] as int)
  }

  lemma Le32RoundTrip(v: u32)
    ensures |Le32(v)| == 4 && ReadLe32(Le32(v), 0) == v
  {
    assert v / 0x1_0000 == v / 0x100 / 0x100;
    assert v / 0x100_0000 == v / 0x100 / 0x100 / 0x100;
  }

  /** A command as the specification lays it out: opcode, parameter length, parameters. */
  function Packet(opcode: u16, params: seq<byte>): seq<byte>
    requires |params| <= 0xFF
  {
    Le16(opcode) + [|params|] + params
  }

  predicate WellFormed(opcode: u16, packet: seq<byte>) {
    && 3 <= |packet| <= 258 && |packet| == 3 + (packet[2] as int)
    && packet[0] as int + 0x100 * (packet[1] as int) == opcode
  }

  /** A packet is well formed for an opcode exactly when it is that opcode's packet for some parameters. */
  lemma WellFormedIffPacket(opcode: u16, packet: seq<byte>)
    ensures WellFormed(opcode, packet) <==>
              exists params: seq<byte> :: |params| <= 0xFF && packet == Packet(opcode, params)
  {
    if WellFormed(opcode, packet) {
      assert packet == Packet(opcode, packet[PREAMBLE..]);
    }
  }

  function Status(event: seq<byte>): byte
    requires |event| > STATUS_AT
  {
    event[STATUS_AT]
  }

  function Opcode(event: seq<byte>): u16
    requires |event| > STATUS_AT
  {
    ReadLe16(event, OPCODE_AT)
  }

  /** A Command Complete event: code, parameter length, allowed packets, opcode, return parameters. */
  function CommandComplete(credits: byte, opcode: u16, returned: seq<byte>): seq<byte>
    requires |returned| <= 0xFC
  {
    [0x0E, 3 + |returned|, credits] + Le16(opcode) + returned
  }

  lemma DecodeInvertsCommandComplete(credits: byte, opcode: u16, returned: seq<byte>)
    requires 1 <= |returned| <= 0xFC
    ensures var event := CommandComplete(credits, opcode, returned);
            && |event| > STATUS_AT && Opcode(event) == opcode && Status(event) == returned[0]
            && event[BDADDR_AT..] == returned[1..]
  {
    var event := CommandComplete(credits, opcode, returned);
    assert event[OPCODE_AT] == opcode % 0x100 && event[OPCODE_AT + 1] == opcode / 0x100;
  }
}

/**
 * The current packet format (`packets.h`, `packets.c`): command ids, fill
 * programs, manual sub-commands, the payload layouts carried inside the
 * 124-byte payload, and the guarded copies `packet_pack` / `packet_unpack`.
 *
 * A packet struct is exactly 128 bytes with no padding, so the model keeps it
 * as a 128-element byte array and reads its fields through Envelope.Decode.
 */
module Packets {
  import opened Bytes
  import opened Envelope

  const OBC_PACKET_ID: u8 := 2
  const GROUND_STATION_PACKET_ID: u8 := 1

  // `command_t`
  const CMD_NONE: u8 := 0
  const CMD_STATUS_REQ: u8 := 1
  const CMD_ABORT: u8 := 2
  const CMD_READY: u8 := 3
  const CMD_ARM: u8 := 4
  const CMD_FIRE: u8 := 5
  const CMD_LAUNCH_OVERRIDE: u8 := 6
  const CMD_STOP: u8 := 7
  const CMD_SAFE_PAUSE: u8 := 8
  const CMD_RESUME: u8 := 9
  const CMD_MANUAL_TOGGLE: u8 := 10
  const CMD_FILL_EXEC: u8 := 11
  const CMD_MANUAL_EXEC: u8 := 12
  const CMD_STATUS_REP: u8 := 13
  const CMD_ACK: u8 := 14
  const CMD_MAX: u8 := 15

  // `fill_command_t`
  const CMD_FILL_NONE: u8 := 0
  const CMD_FILL_N2: u8 := 1
  const CMD_FILL_PRE_PRESS: u8 := 2
  const CMD_FILL_N2O: u8 := 3
  const CMD_FILL_POST_PRESS: u8 := 4

  // `enum manual_cmd_e`
  const MANUAL_CMD_NONE: u8 := 0
  const MANUAL_CMD_SD_LOG_START: u8 := 1
  const MANUAL_CMD_TANK_TARE: u8 := 7
  const MANUAL_CMD_MAX: u8 := 8

  /** Marks an optional pressure trigger as unused. */
  const TRIGGER_UNUSED: u16 := 0xFFFF

  /** Ids 1 to 10 are sent with an all-reserved payload. */
  predicate PayloadLess(id: u8) {
    CMD_STATUS_REQ <= id <= CMD_MANUAL_TOGGLE
  }

  // ---------------------------------------------------------------------------
  // Payload layouts
  // ---------------------------------------------------------------------------

  /** `struct fill_N2_params_s` and `struct fill_press_params_s`: two `uint16_t`. */
  datatype PressureParams = PressureParams(target: u16, trigger: u16)

  /** `struct fill_N2O_params_s`: grams, then a signed trigger in deci-degrees Celsius. */
  datatype N2OParams = N2OParams(targetWeightGrams: u16, triggerTempDeciC: i16)

  /** The fill-exec payload is the program id followed by the parameter bytes. */
  function ProgramId(payload: seq<u8>): u8
    requires |payload| == PAYLOAD_BYTES
  {
    payload[0]
  }

  function FillParams(payload: seq<u8>): (params: seq<u8>)
    requires |payload| == PAYLOAD_BYTES
    ensures |params| == PAYLOAD_BYTES - 1
  {
    payload[1..]
  }

  function DecodePressureParams(params: seq<u8>): PressureParams
    requires |params| >= 4
  {
    PressureParams(LeU16(params[0], params[1]), LeU16(params[2], params[3]))
  }

  function EncodePressureParams(p: PressureParams): (b: seq<u8>)
    ensures |b| == 4
  {
    U16Bytes(p.target) + U16Bytes(p.trigger)
  }

  lemma PressureParamsRoundTrip(p: PressureParams, rest: seq<u8>)
    ensures DecodePressureParams(EncodePressureParams(p) + rest) == p
  {
    var b := EncodePressureParams(p) + rest;
    assert b[0..2] == U16Bytes(p.target) && b[2..4] == U16Bytes(p.trigger);
  }

  function DecodeN2OParams(params: seq<u8>): N2OParams
    requires |params| >= 4
  {
    N2OParams(LeU16(params[0], params[1]), AsInt16(LeU16(params[2], params[3])))
  }

  function EncodeN2OParams(p: N2OParams): (b: seq<u8>)
    ensures |b| == 4
  {
    U16Bytes(p.targetWeightGrams) + U16Bytes(Int16Bits(p.triggerTempDeciC))
  }

  lemma N2OParamsRoundTrip(p: N2OParams, rest: seq<u8>)
    ensures DecodeN2OParams(EncodeN2OParams(p) + rest) == p
  {
    var b := EncodeN2OParams(p) + rest;
    assert b[0..2] == U16Bytes(p.targetWeightGrams) && b[2..4] == U16Bytes(Int16Bits(p.triggerTempDeciC));
  }

  /**
   * `struct manual_valve_ms_s` is `{uint8_t valve_id; uint32_t duration_ms;}`
   * without a packing attribute, so the duration sits at the 4-byte aligned
   * offset 4 and bytes 1 to 3 are padding.
   */
  datatype ValveMs = ValveMs(valveId: u8, durationMs: u32)

  function DecodeValveMs(params: seq<u8>): (v: ValveMs)
    requires |params| >= 8
    ensures v.valveId == params[0]
  {
    ValveMs(params[0], params[4] as int + 0x100 * params[5] as int + 0x1_0000 * params[6] as int + 0x100_0000 * params[7] as int)
  }

  /** The struct's memory image; `pad` is whatever the three padding bytes hold. */
  function EncodeValveMs(v: ValveMs, pad: seq<u8>): (b: seq<u8>)
    requires |pad| == 3
    ensures |b| == 8 && b[0] == v.valveId && b[1..4] == pad
  {
    var d := v.durationMs;
    [v.valveId] + pad + [d % 0x100, d / 0x100 % 0x100, d / 0x1_0000 % 0x100, d / 0x100_0000]
  }

  /** The padding bytes never reach the decoded duration. */
  lemma ValveMsRoundTrip(v: ValveMs, pad: seq<u8>)
    requires |pad| == 3
    ensures DecodeValveMs(EncodeValveMs(v, pad)) == v
  {
    U32Bytes(v.durationMs);
  }

  /** The four little-endian bytes of a `uint32_t` add back up to it. */
  lemma U32Bytes(d: u32)
    ensures d % 0x100 + 0x100 * (d / 0x100 % 0x100) + 0x1_0000 * (d / 0x1_0000 % 0x100) + 0x100_0000 * (d / 0x100_0000) == d
  {
    var q1 := d / 0x100;
    var q2 := q1 / 0x100;
    var q3 := q2 / 0x100;
    assert d == 0x100 * q1 + d % 0x100;
    assert q1 == 0x100 * q2 + q1 % 0x100;
    assert q2 == 0x100 * q3 + q2 % 0x100;
    assert d / 0x1_0000 == q2;
    assert d / 0x100_0000 == q3;
  }

  /** `struct ack_s`: the acknowledged command id, a status (0 is OK), then 122 parameter bytes. */
  datatype Ack = Ack(ackCmdId: u8, statusCode: u8, params: seq<u8>)

  function DecodeAck(payload: seq<u8>): (a: Ack)
    requires |payload| == PAYLOAD_BYTES
    ensures |a.params| == PAYLOAD_BYTES - 2
  {
    Ack(payload[0], payload[1], payload[2..])
  }

  function EncodeAck(a: Ack): (payload: seq<u8>)
    requires |a.params| == PAYLOAD_BYTES - 2
    ensures |payload| == PAYLOAD_BYTES
  {
    [a.ackCmdId, a.statusCode] + a.params
  }

  lemma AckRoundTrip(a: Ack)
    requires |a.params| == PAYLOAD_BYTES - 2
    ensures DecodeAck(EncodeAck(a)) == a
  {
  }

  // ---------------------------------------------------------------------------
  // packet_pack / packet_unpack
  // ---------------------------------------------------------------------------

  /**
   * `packet_pack`: a null argument, a buffer shorter than a packet, a wrong
   * version or a command id outside (0, 15) is reported and the buffer is left
   * alone; otherwise the 128 bytes of the packet are copied to the buffer's
   * start.
   */
  method PacketPack(packet: array?<u8>, outBuf: array?<u8>, outBufSize: nat) returns (e: PackError)
    requires packet != null ==> packet.Length == FRAME_SIZE
    requires outBuf != null ==> outBufSize <= outBuf.Length
    modifies outBuf
    ensures e == PackOutcome(if packet == null then None else Some(old(packet[..])), outBuf != null, outBufSize, CMD_MAX)
    ensures e == ErrNone ==> outBuf != null && outBuf[..] == old(packet[..]) + old(outBuf[FRAME_SIZE..])
    ensures e != ErrNone && outBuf != null ==> outBuf[..] == old(outBuf[..])
  {
    e := CheckArgs(packet != null, outBuf != null, outBufSize);
    if e != ErrNone {
      return;
    }
    e := CheckHeader(HeaderOf(packet[..]), CMD_MAX);
    if e != ErrNone {
      return;
    }
    forall i | 0 <= i < FRAME_SIZE {
      outBuf[i] := packet[i];
    }
    assert outBuf[..] == outBuf[..FRAME_SIZE] + outBuf[FRAME_SIZE..];
  }

  /**
   * `packet_unpack`: after the argument guard passes, the first 128 bytes of
   * the buffer are copied into the packet BEFORE the header guard runs, so a
   * version or command-id error still overwrites the destination.
   */
  method PacketUnpack(inBuf: array?<u8>, inBufSize: nat, packet: array?<u8>) returns (e: PackError)
    requires inBuf != null ==> inBufSize <= inBuf.Length
    requires packet != null ==> packet.Length == FRAME_SIZE
    modifies packet
    ensures e == UnpackOutcome(if inBuf == null then None else Some(old(inBuf[..])), inBufSize, packet != null, CMD_MAX)
    ensures CheckArgs(packet != null, inBuf != null, inBufSize) == ErrNone ==>
      packet != null && inBuf != null && packet[..] == old(inBuf[..FRAME_SIZE])
    ensures CheckArgs(packet != null, inBuf != null, inBufSize) != ErrNone && packet != null ==>
      packet[..] == old(packet[..])
  {
    e := CheckArgs(packet != null, inBuf != null, inBufSize);
    if e != ErrNone {
      return;
    }
    forall i | 0 <= i < FRAME_SIZE {
      packet[i] := inBuf[i];
    }
    assert HeaderOf(packet[..]) == HeaderOf(old(inBuf[..]));
    e := CheckHeader(HeaderOf(packet[..]), CMD_MAX);
  }
}

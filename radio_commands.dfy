/**
 * The older radio command format (`radio_commands.h`, `radio_commands.c`).
 * The frame and the guards are the same as Packets'; the command ids are
 * numbered differently and end at RCMD_MAX = 14.
 */
module RadioCommands {
  import opened Bytes
  import opened Envelope

  // `enum radio_command_e`
  const RCMD_NONE: u8 := 0
  const RCMD_STATUS_REQ: u8 := 1
  const RCMD_MANUAL_TOGGLE: u8 := 9
  const RCMD_STATUS_REP: u8 := 10
  const RCMD_FILL_EXEC: u8 := 11
  const RCMD_MANUAL_EXEC: u8 := 12
  const RCMD_ACK: u8 := 13
  const RCMD_MAX: u8 := 14

  // `enum fill_program_e`
  const FILL_PROGRAM_NONE: u8 := 0
  const FILL_PROGRAM_COPV: u8 := 1
  const FILL_PROGRAM_N_PRE: u8 := 2
  const FILL_PROGRAM_N2O: u8 := 3
  const FILL_PROGRAM_N_POST: u8 := 4

  /**
   * The named bits of `union actuators_bits_u`, in declaration order: four
   * rocket valves, four filling-station valves, three e-matches and two
   * quick releases, packed from bit 0 of a `uint16_t`.
   */
  datatype Actuator =
    | RocketValve0 | RocketValve1 | RocketValve2 | RocketValve3
    | FillValve0 | FillValve1 | FillValve2 | FillValve3
    | EmatchIgnition | EmatchDrogue | EmatchMain
    | FillQr0 | FillQr1

  /** The bit an actuator occupies; bits 13 to 15 are the reserved field. */
  function BitOf(a: Actuator): (bit: nat)
    ensures bit < 13
    ensures bit == 0 <==> a == RocketValve0
  {
    match a
    case RocketValve0 => 0
    case RocketValve1 => 1
    case RocketValve2 => 2
    case RocketValve3 => 3
    case FillValve0 => 4
    case FillValve1 => 5
    case FillValve2 => 6
    case FillValve3 => 7
    case EmatchIgnition => 8
    case EmatchDrogue => 9
    case EmatchMain => 10
    case FillQr0 => 11
    case FillQr1 => 12
  }

  /** No two actuators share a bit, and every bit below 13 is named: 13 named bits, 3 reserved. */
  lemma ActuatorBitsAreALayout(bit: nat)
    requires bit < 13
    ensures exists a :: BitOf(a) == bit
    ensures forall a, b :: BitOf(a) == BitOf(b) ==> a == b
  {
    var names := [RocketValve0, RocketValve1, RocketValve2, RocketValve3, FillValve0, FillValve1, FillValve2,
                  FillValve3, EmatchIgnition, EmatchDrogue, EmatchMain, FillQr0, FillQr1];
    assert forall i | 0 <= i < 13 :: BitOf(names[i]) == i;
    assert BitOf(names[bit]) == bit;
  }

  // Fill-exec parameter layouts.

  /** `struct fill_copv_params_s`: a single `uint16_t` target in deci-bar. */
  function DecodeCopvTarget(params: seq<u8>): u16
    requires |params| >= 2
  {
    LeU16(params[0], params[1])
  }

  lemma CopvTargetRoundTrip(target: u16, rest: seq<u8>)
    ensures DecodeCopvTarget(U16Bytes(target) + rest) == target
  {
  }

  /**
   * `radio_cmd_pack`: the same guarded copy as `packet_pack`, with command ids
   * valid strictly between RCMD_NONE and RCMD_MAX.
   */
  method RadioCmdPack(cmd: array?<u8>, outBuf: array?<u8>, outBufSize: nat) returns (e: PackError)
    requires cmd != null ==> cmd.Length == FRAME_SIZE
    requires outBuf != null ==> outBufSize <= outBuf.Length
    modifies outBuf
    ensures e == PackOutcome(if cmd == null then None else Some(old(cmd[..])), outBuf != null, outBufSize, RCMD_MAX)
    ensures e == ErrNone ==> outBuf != null && outBuf[..] == old(cmd[..]) + old(outBuf[FRAME_SIZE..])
    ensures e != ErrNone && outBuf != null ==> outBuf[..] == old(outBuf[..])
  {
    e := CheckArgs(cmd != null, outBuf != null, outBufSize);
    if e != ErrNone {
      return;
    }
    e := CheckHeader(HeaderOf(cmd[..]), RCMD_MAX);
    if e != ErrNone {
      return;
    }
    forall i | 0 <= i < FRAME_SIZE {
      outBuf[i] := cmd[i];
    }
    assert outBuf[..] == outBuf[..FRAME_SIZE] + outBuf[FRAME_SIZE..];
  }

  /** `radio_cmd_unpack`: copies before validating, like `packet_unpack`. */
  method RadioCmdUnpack(inBuf: array?<u8>, inBufSize: nat, cmd: array?<u8>) returns (e: PackError)
    requires inBuf != null ==> inBufSize <= inBuf.Length
    requires cmd != null ==> cmd.Length == FRAME_SIZE
    modifies cmd
    ensures e == UnpackOutcome(if inBuf == null then None else Some(old(inBuf[..])), inBufSize, cmd != null, RCMD_MAX)
    ensures CheckArgs(cmd != null, inBuf != null, inBufSize) == ErrNone ==>
      cmd != null && inBuf != null && cmd[..] == old(inBuf[..FRAME_SIZE])
    ensures CheckArgs(cmd != null, inBuf != null, inBufSize) != ErrNone && cmd != null ==>
      cmd[..] == old(cmd[..])
  {
    e := CheckArgs(cmd != null, inBuf != null, inBufSize);
    if e != ErrNone {
      return;
    }
    forall i | 0 <= i < FRAME_SIZE {
      cmd[i] := inBuf[i];
    }
    assert HeaderOf(cmd[..]) == HeaderOf(old(inBuf[..]));
    e := CheckHeader(HeaderOf(cmd[..]), RCMD_MAX);
  }
}

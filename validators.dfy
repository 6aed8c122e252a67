/**
 * The zbus channel validator for incoming radio packets (`validators.c`):
 * pure predicates over a received packet's header and first payload byte.
 */
module Validators {
  import opened Bytes
  import opened Envelope
  import opened Packets

  /** The fill programs the OBC executes: N2, pre-press, N2O, post-press. */
  const FILL_PROGRAMS: set<u8> := {CMD_FILL_N2, CMD_FILL_PRE_PRESS, CMD_FILL_N2O, CMD_FILL_POST_PRESS}

  /** `validate_fill_exec_cmd`: only the four known programs are accepted; 0 and anything else is not. */
  function ValidateFillExec(f: Frame): (ok: bool)
    requires WellSized(f)
    ensures ok <==> ProgramId(f.payload) in FILL_PROGRAMS
    ensures ok ==> 1 <= ProgramId(f.payload) <= 4
  {
    match ProgramId(f.payload)
    case 1 => true
    case 3 => true
    case 2 => true
    case 4 => true
    case _ => false
  }

  /** `validate_manual_exec_cmd`: sub-commands SD_LOG_START (1) through TANK_TARE (7). */
  function ValidateManualExec(f: Frame): (ok: bool)
    requires WellSized(f)
    ensures ok <==> MANUAL_CMD_SD_LOG_START <= f.payload[0] < MANUAL_CMD_MAX
  {
    var id := f.payload[0];
    if id == MANUAL_CMD_NONE || id == MANUAL_CMD_MAX then false
    else if id in {1, 2, 3} then true
    else if id in {4, 5, 6, 7} then true
    else false
  }

  /** The header part of `packet_validator`: present, exactly one packet long, version 1, non-zero ends. */
  predicate SupportedFromGsToObc(msg: Option<Frame>, msgSize: nat) {
    msg.Some? && msgSize == FRAME_SIZE && msg.value.header.version == SUPPORTED_VERSION
    && msg.value.header.sender != 0 && msg.value.header.target != 0
  }

  /**
   * `packet_validator`: the header checks come first; then the ten payload-less
   * commands pass, fill-exec and manual-exec defer to their payload validators,
   * and STATUS_REP, ACK and every other id are refused.
   */
  function PacketValidator(msg: Option<Frame>, msgSize: nat): (ok: bool)
    requires msg.Some? ==> WellSized(msg.value)
    ensures ok ==> SupportedFromGsToObc(msg, msgSize)
    ensures ok ==> CMD_STATUS_REQ <= msg.value.header.commandId <= CMD_MANUAL_EXEC
    ensures SupportedFromGsToObc(msg, msgSize) && PayloadLess(msg.value.header.commandId) ==> ok
    ensures ok && msg.value.header.commandId == CMD_FILL_EXEC ==> ProgramId(msg.value.payload) in FILL_PROGRAMS
    ensures ok <==> (SupportedFromGsToObc(msg, msgSize)
      && var id := msg.value.header.commandId;
         (1 <= id <= 10
          || (id == 11 && 1 <= ProgramId(msg.value.payload) <= 4)
          || (id == 12 && 1 <= msg.value.payload[0] <= 7)))
  {
    if !SupportedFromGsToObc(msg, msgSize) then false
    else
      var id := msg.value.header.commandId;
      if PayloadLess(id) then true
      else if id == CMD_FILL_EXEC then ValidateFillExec(msg.value)
      else if id == CMD_MANUAL_EXEC then ValidateManualExec(msg.value)
      else false
  }

  /** A supported fill-exec packet passes exactly when its program id is 1 to 4. */
  lemma FillExecVerdict(f: Frame, msgSize: nat)
    requires WellSized(f) && SupportedFromGsToObc(Some(f), msgSize) && f.header.commandId == CMD_FILL_EXEC
    ensures PacketValidator(Some(f), msgSize) <==> 1 <= ProgramId(f.payload) <= 4
  {
  }

  /** A supported manual-exec packet passes exactly when its sub-command is 1 to 7. */
  lemma ManualExecVerdict(f: Frame, msgSize: nat)
    requires WellSized(f) && SupportedFromGsToObc(Some(f), msgSize) && f.header.commandId == CMD_MANUAL_EXEC
    ensures PacketValidator(Some(f), msgSize) <==> 1 <= f.payload[0] <= 7
  {
  }

  /** Anything the validator lets through also passes `packet_unpack`'s header guard. */
  lemma ValidatedPacketsUnpack(f: Frame)
    requires WellSized(f) && PacketValidator(Some(f), FRAME_SIZE)
    ensures CheckHeader(f.header, CMD_MAX) == ErrNone
    ensures UnpackOutcome(Some(Encode(f)), FRAME_SIZE, true, CMD_MAX) == ErrNone
  {
    assert HeaderOf(Encode(f)) == f.header;
  }

  /** The validator never accepts a frame the OBC itself sends: STATUS_REP or ACK. */
  lemma OutgoingIdsRefused(f: Frame, msgSize: nat)
    requires WellSized(f)
    requires f.header.commandId == CMD_STATUS_REP || f.header.commandId == CMD_ACK
    ensures !PacketValidator(Some(f), msgSize)
  {
  }

  /** For a payload-less command the payload bytes do not matter. */
  lemma PayloadIgnoredWithoutPayload(f: Frame, g: Frame, msgSize: nat)
    requires WellSized(f) && WellSized(g) && f.header == g.header
    requires PayloadLess(f.header.commandId)
    ensures PacketValidator(Some(f), msgSize) == PacketValidator(Some(g), msgSize)
  {
  }
}

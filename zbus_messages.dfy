/**
 * The zbus channel validators for the Modbus coil-write request and the
 * rocket event message (`zbus_messages.c`, `zbus_messages.h`).
 */
module ZbusMessages {
  import opened Bytes

  /** `struct modbus_write_coils_msg`; `valuesPresent` stands for `values != NULL`. */
  datatype CoilWriteMsg = CoilWriteMsg(slaveId: u16, startAddr: u16, valuesPresent: bool, numCoils: u16)

  /** `enum rocket_event`: NONE = 0 up to LAUNCH = 4, and the count 5. */
  const ROCKET_EVENT_NONE := 0
  const ROCKET_EVENT_LAUNCH := 4
  const ROCKET_EVENT_COUNT := 5

  /** `struct rocket_event_msg`; the enum is stored as a C `int`, so any `int` value can arrive. */
  datatype RocketEventMsg = RocketEventMsg(event: i32)

  /**
   * `modbus_coil_write_msg_validator`. The `start_addr >= 0` conjunct is true of
   * every `uint16_t`, and `msg_size` is unused.
   */
  function CoilWriteMsgValidator(msg: Option<CoilWriteMsg>, msgSize: nat): (ok: bool)
    ensures ok <==> msg.Some? && msg.value.slaveId > 0 && msg.value.numCoils > 0 && msg.value.valuesPresent
  {
    msg.Some? && msg.value.slaveId > 0 && msg.value.startAddr >= 0 && msg.value.numCoils > 0
    && msg.value.valuesPresent
  }

  /** Any start address passes: the verdict does not change when only the address does. */
  lemma StartAddressNeverRejected(m: CoilWriteMsg, addr: u16, msgSize: nat)
    ensures CoilWriteMsgValidator(Some(m.(startAddr := addr)), msgSize) == CoilWriteMsgValidator(Some(m), msgSize)
  {
  }

  /** `rocket_event_msg_validator`: a present message whose event lies in [NONE, COUNT). */
  function RocketEventMsgValidator(msg: Option<RocketEventMsg>, msgSize: nat): (ok: bool)
    ensures ok <==> msg.Some? && msg.value.event in {0, 1, 2, 3, 4}
  {
    msg.Some? && msg.value.event >= ROCKET_EVENT_NONE && msg.value.event < ROCKET_EVENT_COUNT
  }

  /** Both validators ignore the declared message size. */
  lemma MessageSizeIgnored(c: Option<CoilWriteMsg>, e: Option<RocketEventMsg>, n: nat, k: nat)
    ensures CoilWriteMsgValidator(c, n) == CoilWriteMsgValidator(c, k)
    ensures RocketEventMsgValidator(e, n) == RocketEventMsgValidator(e, k)
  {
  }
}

/**
 * The connection flag every Modbus slave board of the on-board computer
 * keeps (`services/modbus/internal/common.c`): after each read of a slave,
 * the flag follows the sign of the read's result. A failed read marks the
 * slave disconnected, and a successful one marks it connected again.
 */
module ModbusConnection {
  import opened Bytes

  /**
   * The flag after a read: 0 after a failed read, and non-zero after a
   * successful one. A flag that is already non-zero is kept as it was after a
   * success, because the source only writes it when it reads as 0.
   */
  function ConnectionAfter(readResult: int, isConnected: u8): (r: u8)
    ensures readResult < 0 ==> r == 0
    ensures readResult >= 0 ==> r != 0
    ensures readResult >= 0 && isConnected != 0 ==> r == isConnected
  {
    if readResult < 0 && isConnected == 0 then isConnected
    else if readResult < 0 && isConnected != 0 then 0
    else if readResult >= 0 && isConnected == 0 then 1
    else isConnected
  }

  /** Checking the same read result twice leaves the flag as checking it once. */
  lemma ConnectionCheckIdempotent(readResult: int, isConnected: u8)
    ensures ConnectionAfter(readResult, ConnectionAfter(readResult, isConnected)) == ConnectionAfter(readResult, isConnected)
  {
  }

  /** Only the sign of the read result matters: every failure, and every success, acts alike. */
  lemma OnlyTheSignMatters(r1: int, r2: int, isConnected: u8)
    requires (r1 < 0) == (r2 < 0)
    ensures ConnectionAfter(r1, isConnected) == ConnectionAfter(r2, isConnected)
  {
  }

  /** `struct modbus_slave_metadata`: the slave's id, its connection flag and where its input registers start. */
  class SlaveMetadata {
    var slaveId: u8
    var isConnected: u8
    var irStart: u16

    constructor (slaveId: u8, irStart: u16)
      ensures this.slaveId == slaveId && this.irStart == irStart && isConnected == 0
    {
      this.slaveId := slaveId;
      this.irStart := irStart;
      isConnected := 0;
    }
  }

  /**
   * `modbus_slave_check_connection`: nothing happens for a NULL metadata or
   * label; otherwise only the flag changes, to ConnectionAfter of the read.
   */
  method CheckConnection(readResult: int, meta: SlaveMetadata?, hasLabel: bool)
    modifies meta
    ensures meta != null && !hasLabel ==> meta.isConnected == old(meta.isConnected)
    ensures meta != null && hasLabel ==> meta.isConnected == ConnectionAfter(readResult, old(meta.isConnected))
    ensures meta != null ==> meta.slaveId == old(meta.slaveId) && meta.irStart == old(meta.irStart)
  {
    if meta == null || !hasLabel {
      return;
    }
    if readResult < 0 && meta.isConnected == 0 {
      return;
    }
    if readResult < 0 && meta.isConnected != 0 {
      meta.isConnected := 0;
    } else if readResult >= 0 && meta.isConnected == 0 {
      meta.isConnected := 1;
    }
  }
}

/**
 * The three HYDRA boards the on-board computer polls over Modbus
 * (`services/modbus/hydra.c`): the upper feed (UF), the lower feed (LF) and
 * the filling station (FS). Each board is a slave with its connection
 * metadata, a solenoid byte and a block of 16-bit input registers; the
 * conversion to the shared thermocouple and pressure sections copies
 * registers field by field, and reports 0 for everything the filling station
 * measures while it is disabled.
 *
 * The Modbus client is a collaborator: each register read is a parameter
 * holding the client's return code and the registers it delivered.
 */
module Hydra {
  import opened Bytes
  import opened ModbusConnection

  /** The registers of each board: three temperatures (UF); two temperatures, the tank and the chamber pressure (LF); three pressures and three temperatures (FS). */
  const UF_REGISTERS: nat := 3
  const LF_REGISTERS: nat := 4
  const FS_REGISTERS: nat := 6

  /** The Kconfig slave ids and input-register start addresses of the three boards. */
  datatype HydraConfig = HydraConfig(
    ufSlaveId: u8, ufIrStart: u16,
    lfSlaveId: u8, lfIrStart: u16,
    fsSlaveId: u8, fsIrStart: u16)

  /** What `modbus_read_input_regs` returned, and on success the registers it read. */
  datatype RegisterRead = RegisterRead(rc: int, regs: seq<u16>)

  /** One HYDRA board: its slave metadata, its solenoid byte and its raw input registers. */
  class Board {
    const meta: SlaveMetadata
    var solenoids: u8
    var sensors: seq<u16>

    constructor (slaveId: u8, irStart: u16, registers: nat)
      ensures meta.slaveId == slaveId && meta.irStart == irStart && meta.isConnected == 0
      ensures fresh(meta) && solenoids == 0 && sensors == seq(registers, _ => 0)
    {
      meta := new SlaveMetadata(slaveId, irStart);
      solenoids := 0;
      sensors := seq(registers, _ => 0);
    }

    /**
     * One `modbus_read_input_regs` of the whole register block followed by
     * the connection check: the registers are replaced only by a read that
     * succeeded with the full block.
     */
    method Poll(read: RegisterRead)
      modifies this, meta
      ensures sensors == (if read.rc >= 0 && |read.regs| == |old(sensors)| then read.regs else old(sensors))
      ensures meta.isConnected == ConnectionAfter(read.rc, old(meta.isConnected))
      ensures meta.slaveId == old(meta.slaveId) && meta.irStart == old(meta.irStart) && solenoids == old(solenoids)
    {
      if read.rc >= 0 && |read.regs| == |sensors| {
        sensors := read.regs;
      }
      CheckConnection(read.rc, meta, true);
    }
  }

  /** `struct hydra_boards`: the three boards, each with its own registers and metadata. */
  class HydraBoards {
    const uf: Board
    const lf: Board
    const fs: Board

    ghost predicate Valid()
      reads this, uf, lf, fs
    {
      uf != lf && uf != fs && lf != fs
      && uf.meta != lf.meta && uf.meta != fs.meta && lf.meta != fs.meta
      && |uf.sensors| == UF_REGISTERS && |lf.sensors| == LF_REGISTERS && |fs.sensors| == FS_REGISTERS
    }

    /**
     * `hydra_boards_init`: every field zeroed, then each board's slave id and
     * input-register start taken from the configuration.
     */
    constructor Init(config: HydraConfig)
      ensures Valid()
      ensures uf.meta.slaveId == config.ufSlaveId && uf.meta.irStart == config.ufIrStart
      ensures lf.meta.slaveId == config.lfSlaveId && lf.meta.irStart == config.lfIrStart
      ensures fs.meta.slaveId == config.fsSlaveId && fs.meta.irStart == config.fsIrStart
      ensures uf.meta.isConnected == 0 && lf.meta.isConnected == 0 && fs.meta.isConnected == 0
      ensures uf.solenoids == 0 && lf.solenoids == 0 && fs.solenoids == 0
      ensures uf.sensors == seq(UF_REGISTERS, _ => 0) && lf.sensors == seq(LF_REGISTERS, _ => 0)
      ensures fs.sensors == seq(FS_REGISTERS, _ => 0)
      ensures fresh(uf) && fresh(lf) && fresh(fs) && fresh(uf.meta) && fresh(lf.meta) && fresh(fs.meta)
    {
      uf := new Board(config.ufSlaveId, config.ufIrStart, UF_REGISTERS);
      lf := new Board(config.lfSlaveId, config.lfIrStart, LF_REGISTERS);
      fs := new Board(config.fsSlaveId, config.fsIrStart, FS_REGISTERS);
    }

    /**
     * `hydra_boards_read_irs`: nothing for a negative client interface;
     * otherwise UF and LF are polled, and FS too unless the filling station
     * is disabled, in which case FS is not touched at all.
     */
    method ReadIrs(clientIface: int, fsDisabled: bool, ufRead: RegisterRead, lfRead: RegisterRead, fsRead: RegisterRead)
      requires Valid()
      modifies uf, lf, fs, uf.meta, lf.meta, fs.meta
      ensures Valid()
      ensures clientIface < 0 ==>
        uf.sensors == old(uf.sensors) && lf.sensors == old(lf.sensors) && fs.sensors == old(fs.sensors)
        && uf.meta.isConnected == old(uf.meta.isConnected) && lf.meta.isConnected == old(lf.meta.isConnected)
      ensures clientIface >= 0 ==>
        uf.meta.isConnected == ConnectionAfter(ufRead.rc, old(uf.meta.isConnected))
        && lf.meta.isConnected == ConnectionAfter(lfRead.rc, old(lf.meta.isConnected))
      ensures clientIface >= 0 && ufRead.rc >= 0 && |ufRead.regs| == UF_REGISTERS ==> uf.sensors == ufRead.regs
      ensures clientIface >= 0 && lfRead.rc >= 0 && |lfRead.regs| == LF_REGISTERS ==> lf.sensors == lfRead.regs
      ensures clientIface < 0 || fsDisabled ==>
        fs.sensors == old(fs.sensors) && fs.meta.isConnected == old(fs.meta.isConnected)
      ensures clientIface >= 0 && !fsDisabled ==>
        fs.meta.isConnected == ConnectionAfter(fsRead.rc, old(fs.meta.isConnected))
        && fs.sensors == (if fsRead.rc >= 0 && |fsRead.regs| == FS_REGISTERS then fsRead.regs else old(fs.sensors))
      ensures uf.meta.slaveId == old(uf.meta.slaveId) && lf.meta.slaveId == old(lf.meta.slaveId)
      ensures fs.meta.slaveId == old(fs.meta.slaveId)
    {
      if clientIface < 0 {
        return;
      }
      uf.Poll(ufRead);
      lf.Poll(lfRead);
      if fsDisabled {
        return;
      }
      fs.Poll(fsRead);
    }
  }

  /** `thermocouples_t`: nine signed 16-bit temperatures. */
  datatype Thermocouples = Thermocouples(
    n2oTankUfT1: i16, n2oTankUfT2: i16, n2oTankUfT3: i16,
    n2oTankLfT1: i16, n2oTankLfT2: i16,
    chamberThermo: i16,
    n2oLineThermo1: i16, n2oLineThermo2: i16, n2LineThermo: i16)

  /** `pressures_t`: five unsigned 16-bit pressures. */
  datatype Pressures = Pressures(
    n2oTankPressure: u16, chamberPressure: u16,
    n2oLinePressure: u16, n2LinePressure: u16, quickDcPressure: u16)

  /** `ZERO_IF_FS_DISABLED`. */
  function ZeroIfFsDisabled(fsDisabled: bool, x: int): int {
    if fsDisabled then 0 else x
  }

  /**
   * `hydra_boards_irs_to_zbus_rep`: the readings the rest of the firmware
   * sees. An unsigned register stored into a signed temperature keeps its
   * bits. The FS registers are n2o pressure, n2 pressure, quick-disconnect
   * pressure, n2o temperature before and after the solenoid, and n2
   * temperature; LF's are two temperatures, the tank pressure and the
   * combustion chamber pressure.
   */
  function IrsToZbus(uf: seq<u16>, lf: seq<u16>, fs: seq<u16>, fsDisabled: bool): (r: (Thermocouples, Pressures))
    requires |uf| == UF_REGISTERS && |lf| == LF_REGISTERS && |fs| == FS_REGISTERS
    ensures r.0.chamberThermo == 0
    ensures r.1.n2oTankPressure == lf[2] && r.1.chamberPressure == lf[3]
    ensures fsDisabled ==> r.0.n2LineThermo == 0 && r.0.n2oLineThermo1 == 0 && r.0.n2oLineThermo2 == 0
    ensures fsDisabled ==> r.1.n2LinePressure == 0 && r.1.n2oLinePressure == 0 && r.1.quickDcPressure == 0
  {
    (Thermocouples(
      AsInt16(uf[0]), AsInt16(uf[1]), AsInt16(uf[2]),
      AsInt16(lf[0]), AsInt16(lf[1]),
      0,
      AsInt16(ZeroIfFsDisabled(fsDisabled, fs[3])), AsInt16(ZeroIfFsDisabled(fsDisabled, fs[4])),
      AsInt16(ZeroIfFsDisabled(fsDisabled, fs[5]))),
     Pressures(
      lf[2], lf[3],
      ZeroIfFsDisabled(fsDisabled, fs[0]), ZeroIfFsDisabled(fsDisabled, fs[1]), ZeroIfFsDisabled(fsDisabled, fs[2])))
  }

  /** With the filling station disabled, its registers have no influence on the readings. */
  lemma FsIgnoredWhenDisabled(uf: seq<u16>, lf: seq<u16>, fs1: seq<u16>, fs2: seq<u16>)
    requires |uf| == UF_REGISTERS && |lf| == LF_REGISTERS && |fs1| == FS_REGISTERS && |fs2| == FS_REGISTERS
    ensures IrsToZbus(uf, lf, fs1, true) == IrsToZbus(uf, lf, fs2, true)
  {
  }

  /**
   * The UF and LF readings, the tank pressure and the chamber pressure do not
   * depend on whether the filling station is enabled; with it enabled, the
   * FS readings are its registers.
   */
  lemma FsSwitchOnlyTouchesFsReadings(uf: seq<u16>, lf: seq<u16>, fs: seq<u16>)
    requires |uf| == UF_REGISTERS && |lf| == LF_REGISTERS && |fs| == FS_REGISTERS
    ensures var (t0, p0) := IrsToZbus(uf, lf, fs, true);
            var (t1, p1) := IrsToZbus(uf, lf, fs, false);
            t1 == t0.(n2oLineThermo1 := AsInt16(fs[3]), n2oLineThermo2 := AsInt16(fs[4]), n2LineThermo := AsInt16(fs[5]))
            && p1 == p0.(n2oLinePressure := fs[0], n2LinePressure := fs[1], quickDcPressure := fs[2])
  {
  }

  /** The temperatures are the boards' registers read as signed values: a register above 0x7FFF is below zero. */
  lemma TemperaturesAreSigned(uf: seq<u16>, lf: seq<u16>, fs: seq<u16>, fsDisabled: bool)
    requires |uf| == UF_REGISTERS && |lf| == LF_REGISTERS && |fs| == FS_REGISTERS
    ensures var t := IrsToZbus(uf, lf, fs, fsDisabled).0;
            Int16Bits(t.n2oTankUfT1) == uf[0] && Int16Bits(t.n2oTankUfT2) == uf[1] && Int16Bits(t.n2oTankUfT3) == uf[2]
            && Int16Bits(t.n2oTankLfT1) == lf[0] && Int16Bits(t.n2oTankLfT2) == lf[1]
            && (t.n2oTankUfT1 < 0 <==> uf[0] >= 0x8000)
  {
  }

  /**
   * A polling cycle with the filling station disabled: whatever the FS
   * board would have answered, the readings show 0 for every FS sensor and
   * the FS board keeps its registers and its connection flag.
   */
  method PollWithFsDisabled(config: HydraConfig, ufRead: RegisterRead, lfRead: RegisterRead, fsRead: RegisterRead)
    returns (t: Thermocouples, p: Pressures, fsConnected: u8)
    requires ufRead.rc >= 0 && |ufRead.regs| == UF_REGISTERS && lfRead.rc >= 0 && |lfRead.regs| == LF_REGISTERS
    ensures t.n2oLineThermo1 == 0 && t.n2oLineThermo2 == 0 && t.n2LineThermo == 0
    ensures p.n2oLinePressure == 0 && p.n2LinePressure == 0 && p.quickDcPressure == 0
    ensures p.n2oTankPressure == lfRead.regs[2] && p.chamberPressure == lfRead.regs[3]
    ensures t.n2oTankUfT1 == AsInt16(ufRead.regs[0])
    ensures fsConnected == 0
  {
    var boards := new HydraBoards.Init(config);
    boards.ReadIrs(0, true, ufRead, lfRead, fsRead);
    t, p := IrsToZbus(boards.uf.sensors, boards.lf.sensors, boards.fs.sensors, true).0,
            IrsToZbus(boards.uf.sensors, boards.lf.sensors, boards.fs.sensors, true).1;
    fsConnected := boards.fs.meta.isConnected;
  }
}

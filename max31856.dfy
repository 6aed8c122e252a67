/**
 * The MAX31856 thermocouple-to-digital converter driver
 * (`drivers/sensor/maxim/max31856/max31856.c`): fetching a sample reads the
 * three linearized thermocouple bytes, the two cold-junction bytes and the
 * fault status over SPI; reading a channel converts the stored raw values to
 * a Zephyr `sensor_value` (whole degrees Celsius and millionths); the
 * initialisation composes the CR0 and CR1 configuration bytes.
 *
 * SPI and GPIO are collaborators: each transfer is a parameter holding its
 * return code and, for a read, the bytes received.
 */
module Max31856 {
  import opened Bytes

  const ENODEV: int := 19
  const ENOTSUP: int := 134

  /** Micro-degrees Celsius per least significant bit, as the source states them. */
  const THERMOCOUPLE_RESOLUTION_UDC: int := 7812
  const COLD_JUNCTION_RESOLUTION_UDC: int := 15625

  const MILLION: int := 1_000_000

  /** Register addresses. */
  const CR0_REG: u8 := 0x00
  const CJTO_REG: u8 := 0x09
  const CJTH_REG: u8 := 0x0A
  const LTCBH_REG: u8 := 0x0C
  const SR_REG: u8 := 0x0F

  // ---------------------------------------------------------------------------
  // SPI command bytes
  // ---------------------------------------------------------------------------

  /** A read command: `reg & GENMASK(6, 0)`, the register address with bit 7 cleared. */
  function ReadCommand(reg: u8): (c: u8)
    ensures c < 0x80
    ensures reg < 0x80 ==> c == reg
  {
    reg % 0x80
  }

  /** A write command: `reg | BIT(7)`, the register address with bit 7 set. */
  function WriteCommand(reg: u8): (c: u8)
    ensures c >= 0x80
    ensures reg < 0x80 ==> c == reg + 0x80
  {
    reg % 0x80 + 0x80
  }

  // ---------------------------------------------------------------------------
  // Raw sample layout
  // ---------------------------------------------------------------------------

  /** `(rx[0] << 16) | (rx[1] << 8) | rx[2]`: the shifted bytes do not overlap, so the OR is their sum. */
  function ThermocoupleRaw(b0: u8, b1: u8, b2: u8): (raw: u32)
    ensures raw < 0x100_0000
    ensures raw / 0x1_0000 == b0 && (raw / 0x100) % 0x100 == b1 && raw % 0x100 == b2
  {
    b0 * 0x1_0000 + b1 * 0x100 + b2
  }

  /** `rx[0] << 8 | rx[1]`. */
  function ColdJunctionRaw(b0: u8, b1: u8): (raw: u16)
    ensures raw / 0x100 == b0 && raw % 0x100 == b1
  {
    b0 * 0x100 + b1
  }

  /** `(raw >> 5) & GENMASK(18, 0)`: the 19 bits of the linearized temperature. */
  function Field19(raw: u32): (f: nat)
    ensures f < 0x8_0000
  {
    (raw / 32) % 0x8_0000
  }

  /**
   * `temperature |= 0xFFF80000` when bit 18 is set, then read as `int32_t`:
   * the 19-bit two's-complement value.
   */
  function SignExtend19(f: nat): (t: int)
    requires f < 0x8_0000
    ensures -0x4_0000 <= t < 0x4_0000
    ensures t < 0 <==> f >= 0x4_0000
    ensures (t - f) % 0x8_0000 == 0
  {
    if f >= 0x4_0000 then f - 0x8_0000 else f
  }

  /**
   * The temperature field of the three bytes the converter sends: eleven
   * bits of the first byte and the second, three of the third, and its sign
   * is the top bit of the first byte.
   */
  lemma ThermocoupleFieldOfBytes(b0: u8, b1: u8, b2: u8)
    ensures Field19(ThermocoupleRaw(b0, b1, b2)) == b0 * 2048 + b1 * 8 + b2 / 32
    ensures SignExtend19(Field19(ThermocoupleRaw(b0, b1, b2))) < 0 <==> b0 >= 0x80
  {
    var raw := ThermocoupleRaw(b0, b1, b2);
    assert raw / 32 == b0 * 2048 + b1 * 8 + b2 / 32;
  }

  // ---------------------------------------------------------------------------
  // Channels
  // ---------------------------------------------------------------------------

  datatype Channel = AmbientTemp | DieTemp | OtherChannel

  /** Zephyr's `struct sensor_value`: an integer part and millionths. */
  datatype SensorValue = SensorValue(val1: i32, val2: i32)

  /**
   * `val1 = micro / 1000000` (truncated toward zero) and
   * `val2 = llabs(micro % 1000000)`.
   */
  function Split(micro: int): (v: SensorValue)
    requires -0x8000_0000 * MILLION < micro < 0x8000_0000 * MILLION
    ensures 0 <= v.val2 < MILLION
    ensures micro == v.val1 * MILLION + (if micro < 0 then -v.val2 else v.val2)
    ensures micro >= 0 ==> v.val1 >= 0
    ensures micro <= 0 ==> v.val1 <= 0
  {
    SensorValue(CDiv(micro, MILLION), Abs(CMod(micro, MILLION)))
  }

  /** The ambient (thermocouple) reading in micro-degrees: the sign-extended field times 7812. */
  function AmbientMicro(raw: u32): int {
    SignExtend19(Field19(raw)) * THERMOCOUPLE_RESOLUTION_UDC
  }

  /** The die (cold-junction) reading in micro-degrees: the raw 16 bits as `int16_t`, times 15625. */
  function DieMicro(raw: u16): int {
    AsInt16(raw) * COLD_JUNCTION_RESOLUTION_UDC
  }

  /**
   * `max31856_channel_get`: 0 and the converted value for the ambient and the
   * die temperature; -ENOTSUP with `prior` untouched for any other channel.
   */
  function ChannelGet(chan: Channel, thermocoupleTemp: u32, coldJunctionTemp: u16, prior: SensorValue): (r: (int, SensorValue))
    ensures chan == OtherChannel <==> r.0 == -ENOTSUP
    ensures chan == OtherChannel ==> r.1 == prior
    ensures chan != OtherChannel ==> r.0 == 0 && 0 <= r.1.val2 < MILLION
    ensures chan == AmbientTemp ==>
      r.1.val1 * MILLION + (if AmbientMicro(thermocoupleTemp) < 0 then -r.1.val2 else r.1.val2) == AmbientMicro(thermocoupleTemp)
    ensures chan == DieTemp ==>
      r.1.val1 * MILLION + (if DieMicro(coldJunctionTemp) < 0 then -r.1.val2 else r.1.val2) == DieMicro(coldJunctionTemp)
  {
    match chan
    case AmbientTemp => (0, Split(AmbientMicro(thermocoupleTemp)))
    case DieTemp => (0, Split(DieMicro(coldJunctionTemp)))
    case OtherChannel => (-ENOTSUP, prior)
  }

  /** The ambient reading's whole degrees lie within -2047..2047, and carry the sign of the raw field. */
  lemma {:induction false} AmbientRange(raw: u32, prior: SensorValue)
    ensures var v := ChannelGet(AmbientTemp, raw, 0, prior).1;
            -2047 <= v.val1 <= 2047 && (v.val1 < 0 ==> Field19(raw) >= 0x4_0000)
  {
    var t := SignExtend19(Field19(raw));
    var micro := t * THERMOCOUPLE_RESOLUTION_UDC;
    assert -0x4_0000 * 7812 <= micro <= 0x3_FFFF * 7812;
    assert -2048 * MILLION < micro < 2048 * MILLION;
    var v := Split(micro);
  }

  /** The die reading's whole degrees lie within -512..511. */
  lemma {:induction false} DieRange(raw: u16, prior: SensorValue)
    ensures var v := ChannelGet(DieTemp, 0, raw, prior).1;
            -512 <= v.val1 <= 511
  {
    var micro := AsInt16(raw) * COLD_JUNCTION_RESOLUTION_UDC;
    assert -0x8000 * 15625 <= micro <= 0x7FFF * 15625;
    var v := Split(micro);
  }

  // ---------------------------------------------------------------------------
  // Fetching a sample
  // ---------------------------------------------------------------------------

  /** One SPI transfer: its return code and, for a read, the bytes received. */
  datatype SpiTransfer = SpiTransfer(rc: int, rx: seq<u8>)

  /** `struct max31856_data`: the raw values the last fetch stored. */
  class Max31856Data {
    var thermocoupleTemp: u32
    var coldJunctionTemp: u16

    constructor ()
      ensures thermocoupleTemp == 0 && coldJunctionTemp == 0
    {
      thermocoupleTemp, coldJunctionTemp := 0, 0;
    }

    /**
     * `max31856_sample_fetch`: three reads in order; the first failing one's
     * code is returned at once and the fields it would have fed, and all
     * later ones, keep their values. A non-zero fault status only logs.
     */
    method SampleFetch(ltc: SpiTransfer, cj: SpiTransfer, fault: SpiTransfer) returns (ret: int)
      requires ltc.rc >= 0 ==> |ltc.rx| == 3
      requires cj.rc >= 0 ==> |cj.rx| == 2
      modifies this
      ensures ltc.rc < 0 ==> ret == ltc.rc && thermocoupleTemp == old(thermocoupleTemp)
      ensures ltc.rc >= 0 ==> thermocoupleTemp == ThermocoupleRaw(ltc.rx[0], ltc.rx[1], ltc.rx[2])
      ensures ltc.rc < 0 || cj.rc < 0 ==> coldJunctionTemp == old(coldJunctionTemp)
      ensures ltc.rc >= 0 && cj.rc < 0 ==> ret == cj.rc
      ensures ltc.rc >= 0 && cj.rc >= 0 ==> coldJunctionTemp == ColdJunctionRaw(cj.rx[0], cj.rx[1])
      ensures ltc.rc >= 0 && cj.rc >= 0 ==> ret == (if fault.rc < 0 then fault.rc else 0)
    {
      if ltc.rc < 0 {
        return ltc.rc;
      }
      thermocoupleTemp := ThermocoupleRaw(ltc.rx[0], ltc.rx[1], ltc.rx[2]);
      if cj.rc < 0 {
        return cj.rc;
      }
      coldJunctionTemp := ColdJunctionRaw(cj.rx[0], cj.rx[1]);
      if fault.rc < 0 {
        return fault.rc;
      }
      ret := 0;
    }
  }

  /**
   * A successful fetch followed by an ambient read reports the temperature
   * the three received bytes encode.
   */
  method FetchThenRead(ltc: SpiTransfer, cj: SpiTransfer, fault: SpiTransfer) returns (fetched: int, got: int, v: SensorValue)
    requires ltc.rc >= 0 && |ltc.rx| == 3 && cj.rc >= 0 && |cj.rx| == 2 && fault.rc >= 0
    ensures fetched == 0 && got == 0
    ensures var t := SignExtend19((ltc.rx[0] as int) * 2048 + (ltc.rx[1] as int) * 8 + (ltc.rx[2] as int) / 32);
            (v.val1 as int) * MILLION + (if t < 0 then -(v.val2 as int) else v.val2 as int) == t * THERMOCOUPLE_RESOLUTION_UDC
            && (t < 0 <==> ltc.rx[0] >= 0x80)
  {
    var data := new Max31856Data();
    fetched := data.SampleFetch(ltc, cj, fault);
    ThermocoupleFieldOfBytes(ltc.rx[0], ltc.rx[1], ltc.rx[2]);
    var r := ChannelGet(AmbientTemp, data.thermocoupleTemp, data.coldJunctionTemp, SensorValue(0, 0));
    got, v := r.0, r.1;
  }

  // ---------------------------------------------------------------------------
  // Configuration bytes
  // ---------------------------------------------------------------------------

  /** The devicetree configuration of one converter. */
  datatype Config = Config(
    thermocoupleType: u8, avgMode: u8, ocFaultMode: u8, cjOffsetRaw: u8,
    filter50Hz: bool, hasDrdyGpio: bool, hasFaultGpio: bool)

  function Flag(b: bool): bv32 {
    if b then 1 else 0
  }

  /**
   * Configuration register 0: automatic conversion, no one-shot, the
   * open-circuit fault mode in bits 5..4, the cold junction enabled, the
   * fault mode and the fault clear bits following the fault GPIO, and the
   * 50 Hz filter in bit 0. Each field is shifted and masked to its bits.
   */
  function Cr0(cfg: Config): bv8 {
    ((((1 as bv32) << 7) & 0x80)
     | (((0 as bv32) << 6) & 0x40)
     | (((cfg.ocFaultMode as bv32) << 4) & 0x30)
     | (((0 as bv32) << 3) & 0x08)
     | ((Flag(cfg.hasFaultGpio) << 2) & 0x04)
     | ((Flag(cfg.hasFaultGpio) << 1) & 0x02)
     | ((Flag(cfg.filter50Hz) << 0) & 0x01)) as bv8
  }

  /** Configuration register 1: the averaging mode in bits 6..4 and the thermocouple type in bits 3..0. */
  function Cr1(cfg: Config): bv8 {
    ((((cfg.avgMode as bv32) << 4) & 0x70) | (((cfg.thermocoupleType as bv32) << 0) & 0x0F)) as bv8
  }

  /** CR0 always selects automatic conversion and never a one-shot, and leaves the cold-junction sensor enabled. */
  lemma Cr0FixedBits(cfg: Config)
    ensures Cr0(cfg) & 0xC8 == 0x80
  {
  }

  /** The open-circuit fault mode is kept to its two bits, 5..4 of CR0. */
  lemma Cr0FaultMode(cfg: Config)
    ensures (Cr0(cfg) >> 4) & 0x03 == (cfg.ocFaultMode as bv8) & 0x03
  {
  }

  /** Fault mode and fault clear are both set exactly when a fault GPIO is wired; bit 0 is the 50 Hz filter. */
  lemma Cr0Flags(cfg: Config)
    ensures Cr0(cfg) & 0x07 == (if cfg.hasFaultGpio then 0x06 else 0) | (if cfg.filter50Hz then 1 else 0)
  {
  }

  /** CR1 keeps the averaging mode to bits 6..4 and the thermocouple type to bits 3..0; bit 7 stays clear. */
  lemma Cr1Fields(cfg: Config)
    ensures Cr1(cfg) >> 7 == 0
    ensures (Cr1(cfg) >> 4) & 0x07 == (cfg.avgMode as bv8) & 0x07
    ensures Cr1(cfg) & 0x0F == (cfg.thermocoupleType as bv8) & 0x0F
  {
  }

  /** What the SPI and GPIO layers answer during initialisation. */
  datatype InitEnv = InitEnv(
    spiReady: bool,
    faultGpioReady: bool, faultGpioConfigure: int,
    drdyGpioReady: bool, drdyGpioConfigure: int,
    configWrite: int, offsetWrite: int)

  /** The three-byte burst that writes CR0, CR1 and the fault mask from register 0 on. */
  function ConfigFrame(cfg: Config): (f: seq<u8>)
    ensures |f| == 4 && f[0] == WriteCommand(CR0_REG) && f[3] == 0
  {
    [WriteCommand(CR0_REG), Cr0(cfg) as u8, Cr1(cfg) as u8, 0x00]
  }

  /**
   * `max31856_init`: the return code and the frames written, in order.
   * -ENODEV for an SPI bus or a wired GPIO that is not ready, a failing GPIO
   * configuration's code, the configuration write's failure code, and
   * otherwise 0, whatever the cold-junction offset write returned.
   */
  function Init(cfg: Config, env: InitEnv): (r: (int, seq<seq<u8>>))
    ensures !env.spiReady ==> r == (-ENODEV, [])
    ensures r.0 == 0 ==> r.1 == [ConfigFrame(cfg), [WriteCommand(CJTO_REG), cfg.cjOffsetRaw]]
    ensures r.0 != 0 ==> r.0 < 0 && |r.1| <= 1
  {
    if !env.spiReady then (-ENODEV, [])
    else if cfg.hasFaultGpio && !env.faultGpioReady then (-ENODEV, [])
    else if cfg.hasFaultGpio && env.faultGpioConfigure < 0 then (env.faultGpioConfigure, [])
    else if cfg.hasDrdyGpio && !env.drdyGpioReady then (-ENODEV, [])
    else if cfg.hasDrdyGpio && env.drdyGpioConfigure < 0 then (env.drdyGpioConfigure, [])
    else if env.configWrite < 0 then (env.configWrite, [ConfigFrame(cfg)])
    else (0, [ConfigFrame(cfg), [WriteCommand(CJTO_REG), cfg.cjOffsetRaw]])
  }

  /** A failed cold-junction offset write does not fail the initialisation. */
  lemma OffsetWriteIgnored(cfg: Config, env: InitEnv, offsetWrite: int)
    ensures Init(cfg, env).0 == Init(cfg, env.(offsetWrite := offsetWrite)).0
  {
  }
}

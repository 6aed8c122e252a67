/**
 * The Modbus server register store of `lib/modbus/common.c`: a server owns
 * the four tables of the Modbus data model (coils, discrete inputs, holding
 * registers and input registers, section 4.3 of the MODBUS Application
 * Protocol Specification V1.1b3), and at most one server is active on the
 * bus at a time. Coils and discrete inputs are packed eight to a byte;
 * registers are 16-bit words. Every access through the bus callbacks is
 * bounds-checked against the region's start address and count.
 *
 * The heap, the mutex and the Zephyr Modbus stack are collaborators: whether
 * `k_malloc` found memory for a table and whether a lock attempt succeeded
 * are boolean parameters, and the results of `modbus_init_server` and
 * `modbus_disable` are integer parameters.
 */
module ModbusStore {
  import opened Bytes

  const EINVAL: int := 22
  const EBUSY: int := 16

  /** `struct modbus_register_meta`: the first address of a region and how many items it holds. */
  datatype RegisterMeta = RegisterMeta(startAddr: u16, count: u16)

  /** `struct modbus_server_meta` without the floating-point regions. */
  datatype ServerMeta = ServerMeta(
    unitId: int,
    coils: RegisterMeta,
    discreteInputs: RegisterMeta,
    holdingRegisters: RegisterMeta,
    inputRegisters: RegisterMeta)

  /** An address the region answers for: `start_addr <= addr < start_addr + count`, computed without wrap-around. */
  predicate InRegion(m: RegisterMeta, addr: int) {
    m.startAddr <= addr < m.startAddr + m.count
  }

  // ---------------------------------------------------------------------------
  // Packed bits
  // ---------------------------------------------------------------------------

  /** Bit `k` of a byte, as `(b >> k) & 0x01`. */
  function BitOf(b: bv8, k: nat): bool
    requires k < 8
  {
    (b >> k) & 1 == 1
  }

  /** `b |= (1 << k)` when `on`, `b &= ~(1 << k)` otherwise. */
  function WithBit(b: bv8, k: nat, on: bool): (r: bv8)
    requires k < 8
  {
    if on then b | (1 << k) else b & !(1 << k)
  }

  /** Setting or clearing bit `k` makes that bit read back as written. */
  lemma WithBitReadsBack(b: bv8, k: nat, on: bool)
    requires k < 8
    ensures BitOf(WithBit(b, k, on), k) == on
  {
  }

  lemma SetBitKeepsOtherBits(b: bv8, k: nat, j: nat)
    requires k < 8 && j < 8 && j != k
    ensures BitOf(b | (1 << k), j) == BitOf(b, j)
  {
  }

  lemma ClearBitKeepsOtherBits(b: bv8, k: nat, j: nat)
    requires k < 8 && j < 8 && j != k
    ensures BitOf(b & !(1 << k), j) == BitOf(b, j)
  {
  }

  /** Setting or clearing bit `k` leaves every other bit of the byte as it was. */
  lemma WithBitKeepsOtherBits(b: bv8, k: nat, on: bool, j: nat)
    requires k < 8 && j < 8 && j != k
    ensures BitOf(WithBit(b, k, on), j) == BitOf(b, j)
  {
    if on {
      SetBitKeepsOtherBits(b, k, j);
    } else {
      ClearBitKeepsOtherBits(b, k, j);
    }
  }

  /** The packed coil (or discrete input) at item index `i`: bit `i % 8` of byte `i / 8`. */
  function PackedBit(bytes: seq<bv8>, i: nat): bool
    requires i / 8 < |bytes|
  {
    BitOf(bytes[i / 8], i % 8)
  }

  /** The packed bytes after writing item `i`: only byte `i / 8` changes, and in it only bit `i % 8`. */
  function WithPackedBit(bytes: seq<bv8>, i: nat, on: bool): (r: seq<bv8>)
    requires i / 8 < |bytes|
    ensures |r| == |bytes|
    ensures forall n :: 0 <= n < |bytes| && n != i / 8 ==> r[n] == bytes[n]
  {
    bytes[i / 8 := WithBit(bytes[i / 8], i % 8, on)]
  }

  /** A coil read after a coil write at the same item returns what was written. */
  lemma PackedReadAfterWrite(bytes: seq<bv8>, i: nat, on: bool)
    requires i / 8 < |bytes|
    ensures PackedBit(WithPackedBit(bytes, i, on), i) == on
  {
    WithBitReadsBack(bytes[i / 8], i % 8, on);
  }

  /** A coil write changes no other coil, in the same byte or in another one. */
  lemma PackedWriteIsolated(bytes: seq<bv8>, i: nat, on: bool, j: nat)
    requires i / 8 < |bytes| && j / 8 < |bytes| && j != i
    ensures PackedBit(WithPackedBit(bytes, i, on), j) == PackedBit(bytes, j)
  {
    if j / 8 == i / 8 {
      assert j % 8 != i % 8;
      WithBitKeepsOtherBits(bytes[i / 8], i % 8, on, j % 8);
    }
  }

  /** The offset of a region's item in its storage, and the byte of a packed item, stay inside a region of `count` bytes. */
  lemma OffsetFits(m: RegisterMeta, addr: int)
    requires InRegion(m, addr)
    ensures 0 <= (addr - m.startAddr) / 8 <= addr - m.startAddr < m.count
  {
  }

  // ---------------------------------------------------------------------------
  // The access guard
  // ---------------------------------------------------------------------------

  /**
   * `REG_OP_BEGIN`: -EINVAL without an active server or a region, or for an
   * address outside the region; -EBUSY when the lock is not taken; 0 when the
   * access goes ahead.
   */
  function Guard(hasServer: bool, hasRegion: bool, m: RegisterMeta, addr: int, locked: bool): (ret: int)
    ensures ret == 0 <==> hasServer && hasRegion && InRegion(m, addr) && locked
    ensures ret == -EINVAL <==> !hasServer || !hasRegion || !InRegion(m, addr)
    ensures ret == -EBUSY <==> hasServer && hasRegion && InRegion(m, addr) && !locked
  {
    if !hasServer || !hasRegion then -EINVAL
    else if !InRegion(m, addr) then -EINVAL
    else if !locked then -EBUSY
    else 0
  }

  // ---------------------------------------------------------------------------
  // Servers
  // ---------------------------------------------------------------------------

  /** Whether `k_malloc` found memory for each of the four tables. */
  datatype HeapAnswers = HeapAnswers(coils: bool, discreteInputs: bool, holdingRegisters: bool, inputRegisters: bool)

  /** `struct modbus_server`: its description and its four register tables, NULL for an empty region or a failed allocation. */
  class Server {
    var meta: ServerMeta
    var coils: array?<bv8>
    var discreteInputs: array?<bv8>
    var holdingRegisters: array?<u16>
    var inputRegisters: array?<u16>

    /**
     * What `modbus_server_init` leaves: an empty region has no table, and a
     * table that exists holds `count` items (a byte per coil is allocated,
     * though eight share one); no two tables share storage. A non-empty
     * region whose allocation failed has no table either.
     */
    ghost predicate Valid()
      reads this
    {
      (meta.coils.count == 0 ==> coils == null)
      && (meta.discreteInputs.count == 0 ==> discreteInputs == null)
      && (meta.holdingRegisters.count == 0 ==> holdingRegisters == null)
      && (meta.inputRegisters.count == 0 ==> inputRegisters == null)
      && (coils != null ==> coils.Length == meta.coils.count)
      && (discreteInputs != null ==> discreteInputs.Length == meta.discreteInputs.count)
      && (holdingRegisters != null ==> holdingRegisters.Length == meta.holdingRegisters.count)
      && (inputRegisters != null ==> inputRegisters.Length == meta.inputRegisters.count)
      && (coils != null && discreteInputs != null ==> coils != discreteInputs)
      && (holdingRegisters != null && inputRegisters != null ==> holdingRegisters != inputRegisters)
    }

    /** A server before `modbus_server_init`: no meta and no tables. */
    constructor Blank()
      ensures coils == null && discreteInputs == null && holdingRegisters == null && inputRegisters == null
    {
      var none := RegisterMeta(0, 0);
      meta := ServerMeta(0, none, none, none, none);
      coils, discreteInputs, holdingRegisters, inputRegisters := null, null, null, null;
    }
  }

  /** `K_MALLOC_NON_ZERO` for a byte table: NULL for a count of 0 or when the heap has no memory. */
  method AllocBytes(count: u16, heapOk: bool) returns (a: array?<bv8>)
    ensures a == null <==> count == 0 || !heapOk
    ensures a != null ==> fresh(a) && a.Length == count
  {
    if count > 0 && heapOk {
      a := new bv8[count];
    } else {
      a := null;
    }
  }

  /** `K_MALLOC_NON_ZERO` for a register table: NULL for a count of 0 or when the heap has no memory. */
  method AllocWords(count: u16, heapOk: bool) returns (a: array?<u16>)
    ensures a == null <==> count == 0 || !heapOk
    ensures a != null ==> fresh(a) && a.Length == count
  {
    if count > 0 && heapOk {
      a := new u16[count];
    } else {
      a := null;
    }
  }

  /**
   * `modbus_server_init`: -EINVAL for a NULL server; otherwise the server
   * takes the description and a fresh table for every non-empty region the
   * heap found memory for. A failed allocation is not reported: the result
   * is still 0, and the region is left without a table.
   */
  method ServerInit(server: Server?, meta: ServerMeta, heap: HeapAnswers) returns (ret: int)
    modifies server
    ensures server == null ==> ret == -EINVAL
    ensures server != null ==> ret == 0 && server.meta == meta && server.Valid()
    ensures server != null ==> (server.coils == null <==> meta.coils.count == 0 || !heap.coils)
    ensures server != null ==> (server.discreteInputs == null <==> meta.discreteInputs.count == 0 || !heap.discreteInputs)
    ensures server != null ==> (server.holdingRegisters == null <==> meta.holdingRegisters.count == 0 || !heap.holdingRegisters)
    ensures server != null ==> (server.inputRegisters == null <==> meta.inputRegisters.count == 0 || !heap.inputRegisters)
    ensures server != null ==> server.coils == null || fresh(server.coils)
    ensures server != null ==> server.discreteInputs == null || fresh(server.discreteInputs)
    ensures server != null ==> server.holdingRegisters == null || fresh(server.holdingRegisters)
    ensures server != null ==> server.inputRegisters == null || fresh(server.inputRegisters)
  {
    if server == null {
      return -EINVAL;
    }
    server.meta := meta;
    server.coils := AllocBytes(meta.coils.count, heap.coils);
    server.discreteInputs := AllocBytes(meta.discreteInputs.count, heap.discreteInputs);
    server.holdingRegisters := AllocWords(meta.holdingRegisters.count, heap.holdingRegisters);
    server.inputRegisters := AllocWords(meta.inputRegisters.count, heap.inputRegisters);
    ret := 0;
  }

  /**
   * The bus side of the store: the one `active_server` whose tables the
   * Modbus stack's callbacks read and write.
   */
  class Bus {
    var active: Server?

    constructor ()
      ensures active == null
    {
      active := null;
    }

    /**
     * `modbus_server_free`: -EINVAL for NULL, -EBUSY for the active server,
     * 0 otherwise. Releasing the tables is outside the model, so nothing in
     * the model changes.
     */
    method Free(server: Server?) returns (ret: int)
      ensures server == null ==> ret == -EINVAL
      ensures server != null && server == active ==> ret == -EBUSY
      ensures server != null && server != active ==> ret == 0
    {
      if server == null {
        return -EINVAL;
      }
      if active == server {
        return -EBUSY;
      }
      ret := 0;
    }

    /**
     * `modbus_server_start`: -EINVAL for NULL and -EBUSY while another server
     * is active; otherwise the server becomes active before the stack is set
     * up, so it stays active whatever `modbus_init_server` returns.
     */
    method Start(server: Server?, initResult: int) returns (ret: int)
      modifies this
      ensures server == null ==> ret == -EINVAL && active == old(active)
      ensures server != null && old(active) != null ==> ret == -EBUSY && active == old(active)
      ensures server != null && old(active) == null ==> ret == initResult && active == server
    {
      if server == null {
        return -EINVAL;
      }
      if active != null {
        return -EBUSY;
      }
      active := server;
      ret := initResult;
    }

    /**
     * `modbus_server_stop`: -EINVAL unless the server is the active one;
     * otherwise no server is active any more, whatever `modbus_disable`
     * returns.
     */
    method Stop(server: Server?, disableResult: int) returns (ret: int)
      modifies this
      ensures server == null || server != old(active) ==> ret == -EINVAL && active == old(active)
      ensures server != null && server == old(active) ==> ret == disableResult && active == null
    {
      if server == null || active != server {
        return -EINVAL;
      }
      active := null;
      ret := disableResult;
    }

    /** The active server's tables are as `modbus_server_init` left them. */
    ghost predicate Ready()
      reads this, active
    {
      active != null ==> active.Valid()
    }

    /**
     * `coil_rd`: on success the coil at `addr` is bit `(addr - start) % 8`
     * of byte `(addr - start) / 8`; on an error `state` keeps `prior`.
     */
    method CoilRead(addr: u16, locked: bool, prior: bool) returns (ret: int, state: bool)
      requires Ready()
      ensures ret == Guard(active != null, active != null && active.coils != null,
                           if active != null then active.meta.coils else RegisterMeta(0, 0), addr, locked)
      ensures ret == 0 ==> state == PackedBit(active.coils[..], addr - active.meta.coils.startAddr)
      ensures ret != 0 ==> state == prior
    {
      if active == null || active.coils == null {
        return -EINVAL, prior;
      }
      var m := active.meta.coils;
      if !InRegion(m, addr) {
        return -EINVAL, prior;
      }
      if !locked {
        return -EBUSY, prior;
      }
      OffsetFits(m, addr);
      var bit := (addr - m.startAddr) % 8;
      var offset := (addr - m.startAddr) / 8;
      state := (active.coils[offset] >> bit) & 1 == 1;
      ret := 0;
    }

    /**
     * `coil_wr`: on success the packed coil table is the old one with the coil
     * at `addr` set to `state`; on an error no table changes.
     */
    method CoilWrite(addr: u16, locked: bool, state: bool) returns (ret: int)
      requires Ready()
      modifies if active != null && active.coils != null then {active.coils} else {}
      ensures ret == Guard(active != null, active != null && active.coils != null,
                           if active != null then active.meta.coils else RegisterMeta(0, 0), addr, locked)
      ensures ret == 0 ==> active.coils[..] == WithPackedBit(old(active.coils[..]), addr - active.meta.coils.startAddr, state)
      ensures ret != 0 && active != null && active.coils != null ==> active.coils[..] == old(active.coils[..])
    {
      if active == null || active.coils == null {
        return -EINVAL;
      }
      var m := active.meta.coils;
      if !InRegion(m, addr) {
        return -EINVAL;
      }
      if !locked {
        return -EBUSY;
      }
      OffsetFits(m, addr);
      var coils := active.coils;
      var bit := (addr - m.startAddr) % 8;
      var offset := (addr - m.startAddr) / 8;
      coils[offset] := WithBit(coils[offset], bit, state);
      ret := 0;
    }

    /** `discrete_input_rd`: the packed read of `coil_rd`, over the discrete inputs. */
    method DiscreteInputRead(addr: u16, locked: bool, prior: bool) returns (ret: int, state: bool)
      requires Ready()
      ensures ret == Guard(active != null, active != null && active.discreteInputs != null,
                           if active != null then active.meta.discreteInputs else RegisterMeta(0, 0), addr, locked)
      ensures ret == 0 ==> state == PackedBit(active.discreteInputs[..], addr - active.meta.discreteInputs.startAddr)
      ensures ret != 0 ==> state == prior
    {
      if active == null || active.discreteInputs == null {
        return -EINVAL, prior;
      }
      var m := active.meta.discreteInputs;
      if !InRegion(m, addr) {
        return -EINVAL, prior;
      }
      if !locked {
        return -EBUSY, prior;
      }
      OffsetFits(m, addr);
      var bit := (addr - m.startAddr) % 8;
      var offset := (addr - m.startAddr) / 8;
      state := (active.discreteInputs[offset] >> bit) & 1 == 1;
      ret := 0;
    }

    /** `input_reg_rd`: on success the register at `addr - start`; on an error `reg` keeps `prior`. */
    method InputRegisterRead(addr: u16, locked: bool, prior: u16) returns (ret: int, reg: u16)
      requires Ready()
      ensures ret == Guard(active != null, active != null && active.inputRegisters != null,
                           if active != null then active.meta.inputRegisters else RegisterMeta(0, 0), addr, locked)
      ensures ret == 0 ==> reg == active.inputRegisters[addr - active.meta.inputRegisters.startAddr]
      ensures ret != 0 ==> reg == prior
    {
      if active == null || active.inputRegisters == null {
        return -EINVAL, prior;
      }
      var m := active.meta.inputRegisters;
      if !InRegion(m, addr) {
        return -EINVAL, prior;
      }
      if !locked {
        return -EBUSY, prior;
      }
      reg := active.inputRegisters[addr - m.startAddr];
      ret := 0;
    }

    /** `holding_reg_rd`: on success the register at `addr - start`; on an error `reg` keeps `prior`. */
    method HoldingRegisterRead(addr: u16, locked: bool, prior: u16) returns (ret: int, reg: u16)
      requires Ready()
      ensures ret == Guard(active != null, active != null && active.holdingRegisters != null,
                           if active != null then active.meta.holdingRegisters else RegisterMeta(0, 0), addr, locked)
      ensures ret == 0 ==> reg == active.holdingRegisters[addr - active.meta.holdingRegisters.startAddr]
      ensures ret != 0 ==> reg == prior
    {
      if active == null || active.holdingRegisters == null {
        return -EINVAL, prior;
      }
      var m := active.meta.holdingRegisters;
      if !InRegion(m, addr) {
        return -EINVAL, prior;
      }
      if !locked {
        return -EBUSY, prior;
      }
      reg := active.holdingRegisters[addr - m.startAddr];
      ret := 0;
    }

    /** `holding_reg_wr`: on success exactly the register at `addr - start` takes `reg`; on an error nothing changes. */
    method HoldingRegisterWrite(addr: u16, locked: bool, reg: u16) returns (ret: int)
      requires Ready()
      modifies if active != null && active.holdingRegisters != null then {active.holdingRegisters} else {}
      ensures ret == Guard(active != null, active != null && active.holdingRegisters != null,
                           if active != null then active.meta.holdingRegisters else RegisterMeta(0, 0), addr, locked)
      ensures ret == 0 ==>
        active.holdingRegisters[..] == old(active.holdingRegisters[..])[addr - active.meta.holdingRegisters.startAddr := reg]
      ensures ret != 0 && active != null && active.holdingRegisters != null ==>
        active.holdingRegisters[..] == old(active.holdingRegisters[..])
    {
      if active == null || active.holdingRegisters == null {
        return -EINVAL;
      }
      var m := active.meta.holdingRegisters;
      if !InRegion(m, addr) {
        return -EINVAL;
      }
      if !locked {
        return -EBUSY;
      }
      active.holdingRegisters[addr - m.startAddr] := reg;
      ret := 0;
    }
  }

  /** A bus whose active server was just set up from `meta` with the heap's answers `heap`. */
  method ActiveServer(meta: ServerMeta, heap: HeapAnswers) returns (bus: Bus)
    ensures fresh(bus) && bus.active != null && bus.active.meta == meta && bus.Ready()
    ensures bus.active.coils == null <==> meta.coils.count == 0 || !heap.coils
    ensures bus.active.holdingRegisters == null <==> meta.holdingRegisters.count == 0 || !heap.holdingRegisters
    ensures bus.active.coils == null || fresh(bus.active.coils)
    ensures bus.active.holdingRegisters == null || fresh(bus.active.holdingRegisters)
  {
    var server := new Server.Blank();
    var _ := ServerInit(server, meta, heap);
    bus := new Bus();
    var _ := bus.Start(server, 0);
  }

  /**
   * A coil written through the bus reads back through the bus, and a
   * neighbouring coil keeps its value; a region of count 0 answers -EINVAL
   * to every address.
   */
  method CoilRoundTrip(meta: ServerMeta, heap: HeapAnswers, addr: u16, other: u16, state: bool)
    returns (written: int, readBack: bool, before: bool, after: bool)
    requires heap.coils
    requires InRegion(meta.coils, addr) && InRegion(meta.coils, other) && other != addr
    ensures written == 0 && readBack == state && after == before
  {
    var bus := ActiveServer(meta, heap);
    var server := bus.active;
    var i, j := addr - meta.coils.startAddr, other - meta.coils.startAddr;
    OffsetFits(meta.coils, addr);
    OffsetFits(meta.coils, other);
    assert Guard(true, true, meta.coils, addr, true) == 0 && Guard(true, true, meta.coils, other, true) == 0;
    ghost var bytes := server.coils[..];
    ghost var afterWrite := WithPackedBit(bytes, i, state);
    PackedReadAfterWrite(bytes, i, state);
    PackedWriteIsolated(bytes, i, state, j);
    var r0;
    r0, before := bus.CoilRead(other, true, false);
    assert before == PackedBit(bytes, j);
    written := bus.CoilWrite(addr, true, state);
    assert server.coils[..] == afterWrite;
    var r1;
    r1, readBack := bus.CoilRead(addr, true, !state);
    assert r1 == 0 && readBack == PackedBit(afterWrite, i);
    var r2;
    r2, after := bus.CoilRead(other, true, !before);
    assert r2 == 0;
    assert after == PackedBit(afterWrite, j);
  }

  /** A holding register written through the bus reads back, and another register keeps its value. */
  method HoldingRoundTrip(meta: ServerMeta, heap: HeapAnswers, addr: u16, other: u16, value: u16)
    returns (written: int, readBack: u16, before: u16, after: u16)
    requires heap.holdingRegisters
    requires InRegion(meta.holdingRegisters, addr) && InRegion(meta.holdingRegisters, other) && other != addr
    ensures written == 0 && readBack == value && after == before
  {
    var bus := ActiveServer(meta, heap);
    var r0;
    r0, before := bus.HoldingRegisterRead(other, true, 0);
    written := bus.HoldingRegisterWrite(addr, true, value);
    var r1;
    r1, readBack := bus.HoldingRegisterRead(addr, true, 0);
    var r2;
    r2, after := bus.HoldingRegisterRead(other, true, 0);
  }

  /**
   * A region of count 0, or one whose allocation failed, has no table, so
   * once its server is active every address of it answers -EINVAL, even one
   * a lock would have let through.
   */
  method EmptyRegionRefuses(meta: ServerMeta, heap: HeapAnswers, addr: u16) returns (coilRet: int, holdingRet: int)
    requires meta.coils.count == 0 || !heap.coils
    requires meta.holdingRegisters.count == 0 || !heap.holdingRegisters
    ensures coilRet == -EINVAL && holdingRet == -EINVAL
  {
    var bus := ActiveServer(meta, heap);
    var state;
    coilRet, state := bus.CoilRead(addr, true, false);
    holdingRet := bus.HoldingRegisterWrite(addr, true, 0);
  }

  /**
   * At most one server is active: a second start is refused and leaves the
   * first active; after the first stops, the second can start.
   */
  method OneActiveServer(a: Server, b: Server) returns (second: int, stopped: int, restarted: int)
    requires a != b
    ensures second == -EBUSY && stopped == 0 && restarted == 0
  {
    var bus := new Bus();
    var _ := bus.Start(a, 0);
    second := bus.Start(b, 0);
    stopped := bus.Stop(a, 0);
    restarted := bus.Start(b, 0);
  }
}

/**
 * The state machine service of `services/state_machine/sm_work.c`: a zbus
 * listener that queues one work item per channel, a command handler that
 * applies FILL_EXEC packets to the filling configuration, three sensor
 * handlers that copy a sensor section into the object, and the run handler
 * that steps the main machine once and clears the commands.
 *
 * The work queue is the sequence of pending work items. Submitting an item
 * that is already pending leaves the queue as it is, and a handler runs after
 * the queue has taken its item off. A zbus read is a parameter: the value it
 * returned and the data it copied.
 */
module SmWork {
  import opened Bytes
  import opened Envelope
  import opened Packets
  import MainSm
  import Smf

  // ---------------------------------------------------------------------------
  // Work items and the queue
  // ---------------------------------------------------------------------------

  datatype Work = CommandWork | WeightWork | ThermoWork | PressureWork | StateMachineWork

  datatype Channel = ChanPackets | ChanWeightSensors | ChanThermoSensors | ChanPressureSensors | ChanOther

  predicate NoDuplicates(q: seq<Work>) {
    forall i, j :: 0 <= i < j < |q| ==> q[i] != q[j]
  }

  /** `k_work_submit_to_queue`: an item already pending stays where it is. */
  function Enqueue(q: seq<Work>, w: Work): (r: seq<Work>)
    ensures w in r && forall x :: x in r <==> x in q || x == w
    ensures NoDuplicates(q) ==> NoDuplicates(r)
  {
    if w in q then q else q + [w]
  }

  /** The queue once the work-queue thread has taken `w` off it. */
  function Remove(q: seq<Work>, w: Work): (r: seq<Work>)
    ensures forall x :: x in r <==> x in q && x != w
    ensures NoDuplicates(q) ==> NoDuplicates(r)
  {
    if q == [] then []
    else
      var rest := Remove(q[1..], w);
      if q[0] == w then rest
      else
        assert NoDuplicates(q) ==> q[0] !in q[1..];
        [q[0]] + rest
  }

  /** A queue without duplicates holds each item at most once: at most one run is ever pending. */
  lemma {:induction false} AtMostOncePending(q: seq<Work>, w: Work)
    requires NoDuplicates(q)
    ensures multiset(q)[w] <= 1
    ensures multiset(q)[w] == 1 <==> w in q
  {
    if q != [] {
      assert q == [q[0]] + q[1..];
      assert NoDuplicates(q[1..]) by {
        forall i, j | 0 <= i < j < |q[1..]| ensures q[1..][i] != q[1..][j] {
          assert q[1..][i] == q[i + 1] && q[1..][j] == q[j + 1];
        }
      }
      assert q[0] !in q[1..] by {
        forall k | 0 <= k < |q[1..]| ensures q[1..][k] != q[0] {
          assert q[1..][k] == q[k + 1];
        }
      }
      AtMostOncePending(q[1..], w);
    }
  }

  /** The work item the listener queues for each channel. */
  function WorkFor(chan: Channel): (w: Option<Work>)
    ensures w.Some? <==> chan != ChanOther
    ensures w.Some? ==> w.value != StateMachineWork
  {
    match chan
    case ChanPackets => Some(CommandWork)
    case ChanWeightSensors => Some(WeightWork)
    case ChanThermoSensors => Some(ThermoWork)
    case ChanPressureSensors => Some(PressureWork)
    case ChanOther => None
  }

  // ---------------------------------------------------------------------------
  // Reading a channel
  // ---------------------------------------------------------------------------

  /** Zephyr's error numbers. */
  const EAGAIN: int := 11
  const EFAULT: int := 14
  const EBUSY: int := 16

  datatype ReadVerdict = Proceed | Retry | GiveUp

  /**
   * `ZBUS_RET_CHECK`: a read that returned 0 goes on; `-EBUSY` submits the
   * given work item again; `-EFAULT`, `-EAGAIN` and every other value return.
   */
  function ReadCheck(ret: int): (v: ReadVerdict)
    ensures v == Proceed <==> ret == 0
    ensures v == Retry <==> ret == -EBUSY
    ensures ret == -EFAULT || ret == -EAGAIN ==> v == GiveUp
  {
    if ret == -EFAULT then GiveUp
    else if ret == -EAGAIN then GiveUp
    else if ret == -EBUSY then Retry
    else if ret == 0 then Proceed
    else GiveUp
  }

  // ---------------------------------------------------------------------------
  // FILL_EXEC packets
  // ---------------------------------------------------------------------------

  /** `ASSIGN_NON_ZERO`: a zero parameter keeps what the field held. */
  function AssignNonZero(dest: u16, src: u16): u16 {
    if src != 0 then src else dest
  }

  /**
   * The filling configuration after a fill program's parameters, or None for
   * an unknown program. The N2O trigger temperature is a signed parameter
   * stored in an unsigned field, so its bits are kept.
   */
  function ApplyProgram(f: MainSm.FillingConfig, program: u8, params: seq<u8>): Option<MainSm.FillingConfig>
    requires |params| >= 4
  {
    if program == CMD_FILL_N2 then
      var p := DecodePressureParams(params);
      Some(f.(fCopv := MainSm.CopvConfig(
        AssignNonZero(f.fCopv.targetN2TankPressure, p.target), AssignNonZero(f.fCopv.triggerN2TankPressure, p.trigger))))
    else if program == CMD_FILL_PRE_PRESS then
      var p := DecodePressureParams(params);
      Some(f.(preP := MainSm.PressConfig(
        AssignNonZero(f.preP.targetN2oTankPressure, p.target), AssignNonZero(f.preP.triggerN2oTankPressure, p.trigger))))
    else if program == CMD_FILL_N2O then
      var n := DecodeN2OParams(params);
      Some(f.(fN2o := f.fN2o.(
        targetN2oTankWeight := AssignNonZero(f.fN2o.targetN2oTankWeight, n.targetWeightGrams),
        triggerN2oTankTemperature := AssignNonZero(f.fN2o.triggerN2oTankTemperature, Int16Bits(n.triggerTempDeciC)))))
    else if program == CMD_FILL_POST_PRESS then
      var p := DecodePressureParams(params);
      Some(f.(postP := MainSm.PressConfig(
        AssignNonZero(f.postP.targetN2oTankPressure, p.target), AssignNonZero(f.postP.triggerN2oTankPressure, p.trigger))))
    else None
  }

  /**
   * What `command_work_handler` does to the object with a packet it has read:
   * None when it returns early (not FILL_EXEC, or an unknown program).
   */
  function CommandEffect(o: MainSm.Object, packet: Frame): Option<MainSm.Object>
    requires WellSized(packet)
  {
    if packet.header.commandId != CMD_FILL_EXEC then None
    else
      match ApplyProgram(o.config.filling, ProgramId(packet.payload), FillParams(packet.payload))
      case None => None
      case Some(f) => Some(o.(command := CMD_FILL_EXEC, fillCommand := ProgramId(packet.payload), config := o.config.(filling := f)))
  }

  /**
   * The command handler acts exactly on FILL_EXEC packets naming one of the
   * four programs; it then sets the command and the fill command and changes
   * nothing else but the filling configuration.
   */
  lemma CommandEffectCases(o: MainSm.Object, packet: Frame)
    requires WellSized(packet)
    ensures CommandEffect(o, packet).Some? <==>
      packet.header.commandId == CMD_FILL_EXEC && CMD_FILL_N2 <= ProgramId(packet.payload) <= CMD_FILL_POST_PRESS
    ensures CommandEffect(o, packet).Some? ==>
      var r := CommandEffect(o, packet).value;
      r.command == CMD_FILL_EXEC && r.fillCommand == ProgramId(packet.payload)
      && r == o.(command := r.command, fillCommand := r.fillCommand, config := o.config.(filling := r.config.filling))
  {
  }

  /** Each program changes only its own section of the filling configuration. */
  lemma ProgramTouchesOnlyItsSection(f: MainSm.FillingConfig, program: u8, params: seq<u8>)
    requires |params| >= 4 && ApplyProgram(f, program, params).Some?
    ensures var g := ApplyProgram(f, program, params).value;
      (program == CMD_FILL_N2 ==> g == f.(fCopv := g.fCopv))
      && (program == CMD_FILL_PRE_PRESS ==> g == f.(preP := g.preP))
      && (program == CMD_FILL_N2O ==> g == f.(fN2o := g.fN2o) && g.fN2o == f.fN2o.(targetN2oTankWeight := g.fN2o.targetN2oTankWeight, triggerN2oTankTemperature := g.fN2o.triggerN2oTankTemperature))
      && (program == CMD_FILL_POST_PRESS ==> g == f.(postP := g.postP))
  {
  }

  /** The fill-exec packet a ground station builds for a pressure program. */
  function PressurePacket(h: Header, program: u8, p: PressureParams, pad: seq<u8>): (f: Frame)
    requires |pad| == PAYLOAD_BYTES - 5
    ensures WellSized(f)
  {
    Frame(h, [program] + EncodePressureParams(p) + pad)
  }

  /** The fill-exec packet a ground station builds for the N2O program. */
  function N2oPacket(h: Header, p: N2OParams, pad: seq<u8>): (f: Frame)
    requires |pad| == PAYLOAD_BYTES - 5
    ensures WellSized(f)
  {
    Frame(h, [CMD_FILL_N2O] + EncodeN2OParams(p) + pad)
  }

  /**
   * A pre-pressurizing packet reaches the configuration: each limit takes the
   * value that was sent unless that value is zero, which keeps the old one.
   */
  lemma PrePressPacketSetsLimits(o: MainSm.Object, h: Header, p: PressureParams, pad: seq<u8>)
    requires h.commandId == CMD_FILL_EXEC && |pad| == PAYLOAD_BYTES - 5
    ensures var r := CommandEffect(o, PressurePacket(h, CMD_FILL_PRE_PRESS, p, pad));
      r.Some? && r.value.fillCommand == CMD_FILL_PRE_PRESS
      && r.value.config.filling.preP.targetN2oTankPressure == (if p.target != 0 then p.target else o.config.filling.preP.targetN2oTankPressure)
      && r.value.config.filling.preP.triggerN2oTankPressure == (if p.trigger != 0 then p.trigger else o.config.filling.preP.triggerN2oTankPressure)
  {
    var packet := PressurePacket(h, CMD_FILL_PRE_PRESS, p, pad);
    assert FillParams(packet.payload) == EncodePressureParams(p) + pad;
    PressureParamsRoundTrip(p, pad);
  }

  /** The same for post-pressurizing. */
  lemma PostPressPacketSetsLimits(o: MainSm.Object, h: Header, p: PressureParams, pad: seq<u8>)
    requires h.commandId == CMD_FILL_EXEC && |pad| == PAYLOAD_BYTES - 5
    ensures var r := CommandEffect(o, PressurePacket(h, CMD_FILL_POST_PRESS, p, pad));
      r.Some? && r.value.fillCommand == CMD_FILL_POST_PRESS
      && r.value.config.filling.postP.targetN2oTankPressure == (if p.target != 0 then p.target else o.config.filling.postP.targetN2oTankPressure)
      && r.value.config.filling.postP.triggerN2oTankPressure == (if p.trigger != 0 then p.trigger else o.config.filling.postP.triggerN2oTankPressure)
  {
    var packet := PressurePacket(h, CMD_FILL_POST_PRESS, p, pad);
    assert FillParams(packet.payload) == EncodePressureParams(p) + pad;
    PressureParamsRoundTrip(p, pad);
  }

  /** The same for the N2 (COPV) program. */
  lemma N2PacketSetsLimits(o: MainSm.Object, h: Header, p: PressureParams, pad: seq<u8>)
    requires h.commandId == CMD_FILL_EXEC && |pad| == PAYLOAD_BYTES - 5
    ensures var r := CommandEffect(o, PressurePacket(h, CMD_FILL_N2, p, pad));
      r.Some? && r.value.fillCommand == CMD_FILL_N2
      && r.value.config.filling.fCopv.targetN2TankPressure == (if p.target != 0 then p.target else o.config.filling.fCopv.targetN2TankPressure)
      && r.value.config.filling.fCopv.triggerN2TankPressure == (if p.trigger != 0 then p.trigger else o.config.filling.fCopv.triggerN2TankPressure)
  {
    var packet := PressurePacket(h, CMD_FILL_N2, p, pad);
    assert FillParams(packet.payload) == EncodePressureParams(p) + pad;
    PressureParamsRoundTrip(p, pad);
  }

  /**
   * An N2O packet sets the target weight unless it is zero, and stores a
   * non-zero trigger temperature as its 16-bit pattern, from which the signed
   * value is recovered.
   */
  lemma N2oPacketSetsLimits(o: MainSm.Object, h: Header, p: N2OParams, pad: seq<u8>)
    requires h.commandId == CMD_FILL_EXEC && |pad| == PAYLOAD_BYTES - 5
    ensures var r := CommandEffect(o, N2oPacket(h, p, pad));
      r.Some? && r.value.fillCommand == CMD_FILL_N2O
      && r.value.config.filling.fN2o.targetN2oTankWeight ==
           (if p.targetWeightGrams != 0 then p.targetWeightGrams else o.config.filling.fN2o.targetN2oTankWeight)
      && (p.triggerTempDeciC != 0 ==> AsInt16(r.value.config.filling.fN2o.triggerN2oTankTemperature) == p.triggerTempDeciC)
      && (p.triggerTempDeciC == 0 ==> r.value.config.filling.fN2o.triggerN2oTankTemperature == o.config.filling.fN2o.triggerN2oTankTemperature)
  {
    var packet := N2oPacket(h, p, pad);
    assert FillParams(packet.payload) == EncodeN2OParams(p) + pad;
    N2OParamsRoundTrip(p, pad);
  }

  // ---------------------------------------------------------------------------
  // The service
  // ---------------------------------------------------------------------------

  class Service {
    /** `sm_obj` with its SMF context. */
    const ctx: Smf.Context<MainSm.State, MainSm.Object>
    /** `smf_run_scheduled`. */
    var runScheduled: bool
    /** The items on `sm_work_q`. */
    var pending: seq<Work>

    /**
     * The machine runs the main state table and keeps its valves closed
     * outside ABORT; the flag is set exactly while a run is pending, and no
     * item is pending twice.
     */
    ghost predicate Valid()
      reads this, ctx
    {
      ctx.chart == MainSm.Machine()
      && MainSm.ValvesClosed(ctx.current, ctx.obj)
      && NoDuplicates(pending)
      && (runScheduled <==> StateMachineWork in pending)
    }

    /** `state_machine_service_setup`: `sm_init` on the object, nothing pending. */
    constructor Setup(o: MainSm.Object)
      ensures Valid() && fresh(ctx)
      ensures ctx.current == MainSm.Idle && ctx.obj == o.(actuators := o.actuators.(valves := {}))
      ensures !runScheduled && pending == []
    {
      var c := new Smf.Context(MainSm.Machine(), MainSm.Idle, o);
      MainSm.SmInit(c);
      ctx := c;
      runScheduled := false;
      pending := [];
    }

    /** `SCHEDULE_SM_RUN`: submits the run only when none is pending, then sets the flag. */
    method ScheduleRun()
      requires NoDuplicates(pending) && (runScheduled <==> StateMachineWork in pending)
      modifies this
      ensures runScheduled && pending == if old(runScheduled) then old(pending) else old(pending) + [StateMachineWork]
      ensures NoDuplicates(pending) && StateMachineWork in pending
    {
      if !runScheduled {
        runScheduled := true;
        pending := Enqueue(pending, StateMachineWork);
      }
    }

    /** `rocket_state_listener_cb`: queues the channel's work item. */
    method Listener(chan: Channel)
      requires Valid()
      modifies this
      ensures Valid() && runScheduled == old(runScheduled)
      ensures pending == if WorkFor(chan).Some? then Enqueue(old(pending), WorkFor(chan).value) else old(pending)
    {
      if WorkFor(chan).Some? {
        pending := Enqueue(pending, WorkFor(chan).value);
      }
    }

    /**
     * `command_work_handler`, with the packet channel read returning `ret`
     * and `packet`.
     */
    method CommandWorkHandler(ret: int, packet: Frame)
      requires Valid() && WellSized(packet)
      modifies this, ctx
      ensures Valid() && ctx.current == old(ctx.current)
      ensures ReadCheck(ret) == Retry ==> pending == Enqueue(Remove(old(pending), CommandWork), CommandWork)
      ensures ReadCheck(ret) == GiveUp ==> pending == Remove(old(pending), CommandWork)
      ensures ReadCheck(ret) != Proceed || CommandEffect(old(ctx.obj), packet).None? ==>
        ctx.obj == old(ctx.obj) && runScheduled == old(runScheduled)
      ensures ReadCheck(ret) == Proceed && CommandEffect(old(ctx.obj), packet).Some? ==>
        ctx.obj == CommandEffect(old(ctx.obj), packet).value && runScheduled
        && pending == Scheduled(Remove(old(pending), CommandWork), old(runScheduled))
      ensures ReadCheck(ret) == Proceed && CommandEffect(old(ctx.obj), packet).None? ==>
        pending == Remove(old(pending), CommandWork)
    {
      pending := Remove(pending, CommandWork);
      var verdict := ReadCheck(ret);
      if verdict == Retry {
        pending := Enqueue(pending, CommandWork);
        return;
      } else if verdict == GiveUp {
        return;
      }
      var effect := CommandEffect(ctx.obj, packet);
      if effect.None? {
        return;
      }
      ctx.obj := effect.value;
      ScheduleRun();
    }

    /**
     * The three sensor handlers: the read data replaces exactly one section of
     * the object. On `-EBUSY` they submit the command work item, not their own.
     */
    method SensorWorkHandler(w: Work, ret: int, o: MainSm.Object)
      requires Valid() && w in {WeightWork, ThermoWork, PressureWork}
      requires o == ctx.obj.(loadcells := o.loadcells, thermocouples := o.thermocouples, pressures := o.pressures)
      requires w == WeightWork ==> o == ctx.obj.(loadcells := o.loadcells)
      requires w == ThermoWork ==> o == ctx.obj.(thermocouples := o.thermocouples)
      requires w == PressureWork ==> o == ctx.obj.(pressures := o.pressures)
      modifies this, ctx
      ensures Valid() && ctx.current == old(ctx.current)
      ensures ReadCheck(ret) == Retry ==> pending == Enqueue(Remove(old(pending), w), CommandWork)
      ensures ReadCheck(ret) == GiveUp ==> pending == Remove(old(pending), w)
      ensures ReadCheck(ret) != Proceed ==> ctx.obj == old(ctx.obj) && runScheduled == old(runScheduled)
      ensures ReadCheck(ret) == Proceed ==>
        ctx.obj == o && runScheduled && pending == Scheduled(Remove(old(pending), w), old(runScheduled))
    {
      pending := Remove(pending, w);
      var verdict := ReadCheck(ret);
      if verdict == Retry {
        pending := Enqueue(pending, CommandWork);
        return;
      } else if verdict == GiveUp {
        return;
      }
      ctx.obj := o;
      ScheduleRun();
    }

    /** `weight_work_handler`: the load cells are replaced. */
    method WeightWorkHandler(ret: int, weights: MainSm.Loadcells)
      requires Valid()
      modifies this, ctx
      ensures Valid() && ctx.current == old(ctx.current)
      ensures ctx.obj == if ReadCheck(ret) == Proceed then old(ctx.obj).(loadcells := weights) else old(ctx.obj)
      ensures ReadCheck(ret) == Retry ==> pending == Enqueue(Remove(old(pending), WeightWork), CommandWork)
      ensures ReadCheck(ret) == GiveUp ==> pending == Remove(old(pending), WeightWork) && runScheduled == old(runScheduled)
      ensures ReadCheck(ret) == Proceed ==>
        runScheduled && pending == Scheduled(Remove(old(pending), WeightWork), old(runScheduled))
    {
      SensorWorkHandler(WeightWork, ret, ctx.obj.(loadcells := weights));
    }

    /** `thermo_work_handler`: the thermocouples are replaced. */
    method ThermoWorkHandler(ret: int, thermos: MainSm.Thermocouples)
      requires Valid()
      modifies this, ctx
      ensures Valid() && ctx.current == old(ctx.current)
      ensures ctx.obj == if ReadCheck(ret) == Proceed then old(ctx.obj).(thermocouples := thermos) else old(ctx.obj)
      ensures ReadCheck(ret) == Retry ==> pending == Enqueue(Remove(old(pending), ThermoWork), CommandWork)
      ensures ReadCheck(ret) == GiveUp ==> pending == Remove(old(pending), ThermoWork) && runScheduled == old(runScheduled)
      ensures ReadCheck(ret) == Proceed ==>
        runScheduled && pending == Scheduled(Remove(old(pending), ThermoWork), old(runScheduled))
    {
      SensorWorkHandler(ThermoWork, ret, ctx.obj.(thermocouples := thermos));
    }

    /** `pressure_work_handler`: the pressures are replaced. */
    method PressureWorkHandler(ret: int, pressures: MainSm.Pressures)
      requires Valid()
      modifies this, ctx
      ensures Valid() && ctx.current == old(ctx.current)
      ensures ctx.obj == if ReadCheck(ret) == Proceed then old(ctx.obj).(pressures := pressures) else old(ctx.obj)
      ensures ReadCheck(ret) == Retry ==> pending == Enqueue(Remove(old(pending), PressureWork), CommandWork)
      ensures ReadCheck(ret) == GiveUp ==> pending == Remove(old(pending), PressureWork) && runScheduled == old(runScheduled)
      ensures ReadCheck(ret) == Proceed ==>
        runScheduled && pending == Scheduled(Remove(old(pending), PressureWork), old(runScheduled))
    {
      SensorWorkHandler(PressureWork, ret, ctx.obj.(pressures := pressures));
    }

    /**
     * `state_machine_work_handler`: clears the flag, steps the machine once
     * and clears both commands; the valves stay closed outside ABORT.
     */
    method StateMachineWorkHandler()
      requires Valid()
      modifies this, ctx
      ensures Valid() && !runScheduled && pending == Remove(old(pending), StateMachineWork)
      ensures Smf.WellFormed(MainSm.Machine())
      ensures ctx.current == Smf.Step(MainSm.Machine(), old(ctx.current), old(ctx.obj)).0
      ensures ctx.obj == Smf.Step(MainSm.Machine(), old(ctx.current), old(ctx.obj)).1.(command := 0, fillCommand := 0)
    {
      pending := Remove(pending, StateMachineWork);
      runScheduled := false;
      MainSm.MachineWellFormed();
      MainSm.StepKeepsValvesClosed(ctx.current, ctx.obj);
      ctx.RunState();
      ctx.obj := ctx.obj.(command := 0, fillCommand := 0);
    }
  }

  /** The queue after `SCHEDULE_SM_RUN` with the flag as it was. */
  function Scheduled(q: seq<Work>, wasScheduled: bool): seq<Work> {
    if wasScheduled then q else q + [StateMachineWork]
  }

  /**
   * From IDLE, one pre-pressurizing packet only takes the machine to FILL:
   * IDLE's run reads the command and not the fill program. The same packet
   * sent again is read by FILL's run and reaches PRE_PRESS.
   */
  method PrePressNeedsTwoPackets(o: MainSm.Object, h: Header, p: PressureParams, pad: seq<u8>)
    returns (afterFirst: MainSm.State, afterSecond: MainSm.State, valves: set<MainSm.Valve>)
    requires h.commandId == CMD_FILL_EXEC && |pad| == PAYLOAD_BYTES - 5
    ensures afterFirst == MainSm.Fill && afterSecond == MainSm.PrePress && valves == {}
  {
    var service := new Service.Setup(o);
    var packet := PressurePacket(h, CMD_FILL_PRE_PRESS, p, pad);
    service.Listener(ChanPackets);
    PrePressPacketSetsLimits(service.ctx.obj, h, p, pad);
    service.CommandWorkHandler(0, packet);
    MainSm.IdleFillExec(service.ctx.obj);
    service.StateMachineWorkHandler();
    afterFirst := service.ctx.current;
    service.Listener(ChanPackets);
    PrePressPacketSetsLimits(service.ctx.obj, h, p, pad);
    service.CommandWorkHandler(0, packet);
    MainSm.FillProgram(MainSm.Fill, service.ctx.obj);
    service.StateMachineWorkHandler();
    afterSecond := service.ctx.current;
    valves := service.ctx.obj.actuators.valves;
  }
}

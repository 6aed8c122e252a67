/**
 * The newer on-board state machine (`services/state_machine/main_sm.c` with
 * the fill sub-states of `filling_sm.c`): the mode states IDLE, FILL, READY,
 * ARMED, FLIGHT and ABORT below ROOT, and the filling groups below FILL.
 *
 * Two facts about the state table drive what this machine actually does. No
 * state other than ROOT names an initial child, so a transition to a filling
 * group stops at the group; and no transition from FILL or a group names a
 * filling leaf. The filling leaves are therefore never entered from
 * `sm_init`, and outside ABORT every valve stays closed
 * (`StepKeepsValvesClosed`).
 */
module MainSm {
  import opened Bytes
  import opened Packets
  import Smf

  // ---------------------------------------------------------------------------
  // Actuators
  // ---------------------------------------------------------------------------

  datatype Valve =
    | N2oFill | N2oPurge | N2Fill | N2Purge | N2oQuickDc | N2QuickDc
    | Pressurizing | MainValve | Vent | AbortValve

  /** `valve_t`: `_VALVE_NONE` is 0 and the valves are numbered from 1. */
  const VALVE_NONE: int := 0
  const VALVE_N2O_FILL: int := 1
  const VALVE_N2O_PURGE: int := 2
  const VALVE_N2_FILL: int := 3
  const VALVE_N2_PURGE: int := 4
  const VALVE_N2O_QUICK_DC: int := 5
  const VALVE_N2_QUICK_DC: int := 6
  const VALVE_PRESSURIZING: int := 7
  const VALVE_MAIN: int := 8
  const VALVE_VENT: int := 9
  const VALVE_ABORT: int := 10

  /**
   * The actuator bit-field of `data_models.h`: the ten valve bits as the set
   * of open valves, and the three e-match bits.
   */
  datatype Actuators = Actuators(valves: set<Valve>, ematchIgnition: bool, ematchDrogue: bool, ematchMain: bool)

  /** The valve a `valve_t` value names, if any. */
  function ValveOf(id: int): Option<Valve> {
    if id == VALVE_N2O_FILL then Some(N2oFill)
    else if id == VALVE_N2O_PURGE then Some(N2oPurge)
    else if id == VALVE_N2_FILL then Some(N2Fill)
    else if id == VALVE_N2_PURGE then Some(N2Purge)
    else if id == VALVE_N2O_QUICK_DC then Some(N2oQuickDc)
    else if id == VALVE_N2_QUICK_DC then Some(N2QuickDc)
    else if id == VALVE_PRESSURIZING then Some(Pressurizing)
    else if id == VALVE_MAIN then Some(MainValve)
    else if id == VALVE_VENT then Some(Vent)
    else if id == VALVE_ABORT then Some(AbortValve)
    else None
  }

  /** The `valve_t` value of each valve. */
  function ValveId(v: Valve): (id: int)
    ensures ValveOf(id) == Some(v)
    ensures VALVE_N2O_FILL <= id <= VALVE_ABORT
  {
    match v
    case N2oFill => VALVE_N2O_FILL
    case N2oPurge => VALVE_N2O_PURGE
    case N2Fill => VALVE_N2_FILL
    case N2Purge => VALVE_N2_PURGE
    case N2oQuickDc => VALVE_N2O_QUICK_DC
    case N2QuickDc => VALVE_N2_QUICK_DC
    case Pressurizing => VALVE_PRESSURIZING
    case MainValve => VALVE_MAIN
    case Vent => VALVE_VENT
    case AbortValve => VALVE_ABORT
  }

  /** Exactly the values 1 to 10 name a valve, and each names the valve numbered with it. */
  lemma ValveNumbering(id: int)
    ensures ValveOf(id).Some? <==> VALVE_N2O_FILL <= id <= VALVE_ABORT
    ensures ValveOf(id).Some? ==> ValveId(ValveOf(id).value) == id
  {
  }

  /**
   * `set_valve`: opens or closes the named valve; `_VALVE_NONE` and any other
   * value outside the enumeration change nothing.
   */
  function SetValve(a: Actuators, id: int, open: bool): (r: Actuators)
    ensures ValveOf(id).None? ==> r == a
    ensures ValveOf(id).Some? ==> (ValveOf(id).value in r.valves <==> open)
    ensures ValveOf(id).Some? ==> r.valves - {ValveOf(id).value} == a.valves - {ValveOf(id).value}
    ensures r.(valves := a.valves) == a
  {
    match ValveOf(id)
    case None => a
    case Some(v) => a.(valves := if open then a.valves + {v} else a.valves - {v})
  }

  /** `close_all_valves`: every valve closed, the e-match bits kept. */
  function CloseAllValves(a: Actuators): (r: Actuators)
    ensures r.valves == {}
    ensures r.(valves := a.valves) == a
  {
    a.(valves := {})
  }

  /** `open_single_valve`: closes every valve, then opens the named one. */
  function OpenSingleValve(a: Actuators, id: int): (r: Actuators)
    ensures r.valves == if ValveOf(id).Some? then {ValveOf(id).value} else {}
    ensures r.(valves := a.valves) == a
  {
    SetValve(CloseAllValves(a), id, true)
  }

  /**
   * The valve toggle the N2O vent entry calls; the header declares it as
   * `valve_toggle` with an explicit state, the source file calls it with
   * none, so it is read as flipping the valve.
   */
  function ToggleValve(a: Actuators, id: int): (r: Actuators)
    ensures ValveOf(id).Some? ==> (ValveOf(id).value in r.valves <==> ValveOf(id).value !in a.valves)
    ensures ValveOf(id).None? ==> r == a
    ensures ValveOf(id).Some? ==> r.valves - {ValveOf(id).value} == a.valves - {ValveOf(id).value}
    ensures r.(valves := a.valves) == a
  {
    match ValveOf(id)
    case None => a
    case Some(v) => SetValve(a, id, v !in a.valves)
  }

  /** `set_valve` then reading the valve back gives what was written, and the other valves keep their state. */
  lemma SetValveOnlyTouchesItsValve(a: Actuators, id: int, open: bool, w: Valve)
    ensures w in SetValve(a, id, open).valves <==> (if ValveOf(id) == Some(w) then open else w in a.valves)
  {
    var r := SetValve(a, id, open);
    if ValveOf(id).Some? && ValveOf(id).value != w {
      assert w in r.valves <==> w in r.valves - {ValveOf(id).value};
    }
  }

  // ---------------------------------------------------------------------------
  // The object
  // ---------------------------------------------------------------------------

  datatype PressConfig = PressConfig(targetN2oTankPressure: u16, triggerN2oTankPressure: u16)
  datatype CopvConfig = CopvConfig(targetN2TankPressure: u16, triggerN2TankPressure: u16)
  datatype N2oConfig = N2oConfig(
    targetN2oTankWeight: u16, targetN2oTankPressure: u16,
    triggerN2oTankPressure: u16, triggerN2oTankTemperature: u16)

  /** `struct filling_sm_config`. */
  datatype FillingConfig = FillingConfig(
    safePause: PressConfig, fCopv: CopvConfig, preP: PressConfig, fN2o: N2oConfig, postP: PressConfig)

  /** `struct flight_sm_config`, with the thresholds `flight_sm.c` reads that the header does not declare. */
  datatype FlightConfig = FlightConfig(
    minChamberLaunchTemp: u16, mainChuteDeployAltitude: u16,
    boostVerticalSpeed: int, coastVerticalSpeed: int, touchdownAltitude: int)

  datatype Config = Config(filling: FillingConfig, flight: FlightConfig)

  /**
   * The pressure readings the runs compare: the N2O tank pressure of
   * `union pressures_u`, and the N2 tank pressure and N2O tank temperature the
   * runs read without a declaration (plain integers here).
   */
  datatype Pressures = Pressures(n2oTankPressure: u16, n2TankPressure: int, n2oTankTemperature: int)

  /** The thermocouple reading the runs compare: `chamber_thermo` of `union thermocouples_u`. */
  datatype Thermocouples = Thermocouples(chamberThermo: i16)

  /** The load cell reading the runs compare: `n2o_loadcell` of `union loadcell_weights_u`. */
  datatype Loadcells = Loadcells(n2oLoadcell: u16)

  /** The navigation estimates the flight phases read, which no header declares. */
  datatype Kalman = Kalman(verticalSpeed: int, altitude: int)

  /**
   * `struct sm_object` without its SMF context: the command and fill
   * command, the actuators, the sensor sections the runs compare and the
   * configuration.
   */
  datatype Object = Object(
    command: u8,
    fillCommand: u8,
    actuators: Actuators,
    pressures: Pressures,
    thermocouples: Thermocouples,
    loadcells: Loadcells,
    kalman: Kalman,
    config: Config)

  /**
   * `CMD_GLOBAL` of `filling_sm.h` applied to the command: its low byte. Every
   * `command_t` value fits in that byte, so it is the whole command.
   */
  function GlobalByte(o: Object): (g: u8)
    ensures g == o.command
  {
    o.command % 0x100
  }

  // ---------------------------------------------------------------------------
  // The state table
  // ---------------------------------------------------------------------------

  datatype State =
    | Root | Idle | Fill | Ready | Armed | Flight | Abort
    | SafePause | SafePauseIdle | SafePauseVent
    | FillN2 | FillN2Idle | FillN2Fill
    | PrePress | PrePressIdle | PrePressFillN2 | PrePressVent
    | FillN2o | FillN2oIdle | FillN2oFill | FillN2oVent
    | PostPress | PostPressIdle | PostPressFillN2 | PostPressVent

  /** `root_run`: STOP goes to IDLE and ABORT to ABORT; any other command is left alone. */
  function RootRun(o: Object): Smf.Outcome<State> {
    if o.command == 0 then Smf.Propagate
    else if o.command == CMD_STOP then Smf.Transition(Idle)
    else if o.command == CMD_ABORT then Smf.Transition(Abort)
    else Smf.Propagate
  }

  /** `idle_run`: FILL_EXEC goes to FILL, READY to READY, and every other command is marked handled. */
  function IdleRun(o: Object): Smf.Outcome<State> {
    if o.command == 0 then Smf.Propagate
    else if o.command == CMD_FILL_EXEC then Smf.Transition(Fill)
    else if o.command == CMD_READY then Smf.Transition(Ready)
    else Smf.Handled
  }

  /**
   * `fill_run`, which reads the fill command: the N2 program re-enters FILL
   * itself, the other three programs go to their groups, and an unknown
   * program is marked handled.
   */
  function FillRun(o: Object): Smf.Outcome<State> {
    if o.fillCommand == 0 then Smf.Propagate
    else if o.fillCommand == CMD_FILL_N2 then Smf.Transition(Fill)
    else if o.fillCommand == CMD_FILL_PRE_PRESS then Smf.Transition(PrePress)
    else if o.fillCommand == CMD_FILL_N2O then Smf.Transition(FillN2o)
    else if o.fillCommand == CMD_FILL_POST_PRESS then Smf.Transition(PostPress)
    else Smf.Handled
  }

  /** `ready_run`: ARM goes to ARMED, ABORT to ABORT, anything else is marked handled. */
  function ReadyRun(o: Object): Smf.Outcome<State> {
    if o.command == 0 then Smf.Propagate
    else if o.command == CMD_ARM then Smf.Transition(Armed)
    else if o.command == CMD_ABORT then Smf.Transition(Abort)
    else Smf.Handled
  }

  /** `armed_run`: FIRE goes to FLIGHT only when the chamber is hot enough; everything is handled. */
  function ArmedRun(o: Object): Smf.Outcome<State> {
    if o.command == 0 then Smf.Propagate
    else if o.command == CMD_FIRE && o.thermocouples.chamberThermo > o.config.flight.minChamberLaunchTemp then Smf.Transition(Flight)
    else Smf.Handled
  }

  /** `flight_run`: ABORT goes to ABORT, LAUNCH_OVERRIDE is passed on to ROOT, anything else is handled. */
  function FlightRun(o: Object): Smf.Outcome<State> {
    if o.command == 0 then Smf.Propagate
    else if o.command == CMD_LAUNCH_OVERRIDE then Smf.Propagate
    else if o.command == CMD_ABORT then Smf.Transition(Abort)
    else Smf.Handled
  }

  /** `abort_run`: READY or STOP goes to IDLE, anything else is marked handled. */
  function AbortRun(o: Object): Smf.Outcome<State> {
    if o.command == 0 then Smf.Propagate
    else if o.command == CMD_READY || o.command == CMD_STOP then Smf.Transition(Idle)
    else Smf.Handled
  }

  /** `safe_pause_run`: RESUME goes to IDLE, anything else is marked handled. */
  function SafePauseRun(o: Object): Smf.Outcome<State> {
    if o.command == 0 then Smf.Propagate
    else if o.command == CMD_RESUME then Smf.Transition(Idle)
    else Smf.Handled
  }

  /** The condition each filling leaf checks, as the state it asks for (None when it asks for none). */
  function LeafCondition(s: State, o: Object): Option<State> {
    var f := o.config.filling;
    match s
    case SafePauseIdle =>
      if o.pressures.n2oTankPressure > f.safePause.triggerN2oTankPressure then Some(SafePauseVent) else None
    case SafePauseVent =>
      if o.pressures.n2oTankPressure <= f.safePause.targetN2oTankPressure then Some(SafePauseIdle) else None
    case FillN2Idle =>
      if o.pressures.n2TankPressure <= f.fCopv.targetN2TankPressure then Some(FillN2Fill) else None
    case FillN2Fill =>
      if o.pressures.n2TankPressure >= f.fCopv.targetN2TankPressure then Some(FillN2Idle) else None
    case PrePressIdle =>
      if o.pressures.n2oTankPressure > f.preP.triggerN2oTankPressure then Some(PrePressVent)
      else if o.pressures.n2oTankPressure < f.preP.targetN2oTankPressure then Some(PrePressFillN2)
      else None
    case PrePressVent =>
      if o.pressures.n2oTankPressure <= f.preP.targetN2oTankPressure then Some(PrePressIdle) else None
    case PrePressFillN2 =>
      if o.pressures.n2oTankPressure >= f.preP.targetN2oTankPressure then Some(PrePressIdle) else None
    case FillN2oIdle =>
      if o.loadcells.n2oLoadcell < f.fN2o.targetN2oTankWeight then Some(FillN2oFill) else None
    case FillN2oFill =>
      if o.pressures.n2oTankPressure >= f.fN2o.triggerN2oTankPressure && o.pressures.n2oTankTemperature > f.fN2o.triggerN2oTankTemperature then Some(FillN2oVent)
      else if o.loadcells.n2oLoadcell >= f.fN2o.targetN2oTankWeight then Some(FillN2oIdle)
      else None
    case FillN2oVent =>
      if o.pressures.n2oTankPressure <= f.fN2o.targetN2oTankPressure || o.pressures.n2oTankTemperature <= f.fN2o.triggerN2oTankTemperature then Some(FillN2oFill)
      else None
    case PostPressIdle =>
      if o.pressures.n2oTankPressure > f.postP.triggerN2oTankPressure then Some(PostPressVent)
      else if o.pressures.n2oTankPressure < f.postP.targetN2oTankPressure then Some(PostPressFillN2)
      else None
    case PostPressVent =>
      if o.pressures.n2oTankPressure <= f.postP.targetN2oTankPressure then Some(PostPressIdle) else None
    case PostPressFillN2 =>
      if o.pressures.n2oTankPressure >= f.postP.targetN2oTankPressure then Some(PostPressIdle) else None
    case _ => None
  }

  /** A filling leaf's run: nothing while a command is pending, else its condition. */
  function LeafRun(s: State, o: Object): Smf.Outcome<State> {
    if GlobalByte(o) != 0 then Smf.Propagate
    else if LeafCondition(s, o).Some? then Smf.Transition(LeafCondition(s, o).value)
    else Smf.Propagate
  }

  /** The run column of `states`; the filling group parents do nothing. */
  function Run(s: State, o: Object): Smf.Outcome<State> {
    match s
    case Root => RootRun(o)
    case Idle => IdleRun(o)
    case Fill => FillRun(o)
    case Ready => ReadyRun(o)
    case Armed => ArmedRun(o)
    case Flight => FlightRun(o)
    case Abort => AbortRun(o)
    case SafePause => SafePauseRun(o)
    case FillN2 => Smf.Propagate
    case PrePress => Smf.Propagate
    case FillN2o => Smf.Propagate
    case PostPress => Smf.Propagate
    case _ => LeafRun(s, o)
  }

  /** The actuator writes of each entry action, through the valve helpers. */
  function EntryActuators(s: State, a: Actuators): Actuators {
    match s
    case Root => a
    case Ready => a
    case Armed => a
    case Flight => a
    case Abort => SetValve(SetValve(CloseAllValves(a), VALVE_ABORT, true), VALVE_PRESSURIZING, true)
    case SafePauseVent => OpenSingleValve(a, VALVE_VENT)
    case PrePressVent => OpenSingleValve(a, VALVE_VENT)
    case PostPressVent => OpenSingleValve(a, VALVE_VENT)
    case FillN2Fill => OpenSingleValve(a, VALVE_N2_FILL)
    case PostPressFillN2 => OpenSingleValve(a, VALVE_N2_FILL)
    case PrePressFillN2 => OpenSingleValve(a, VALVE_PRESSURIZING)
    case FillN2oFill => OpenSingleValve(a, VALVE_N2O_FILL)
    case FillN2oVent => ToggleValve(ToggleValve(CloseAllValves(a), VALVE_N2O_FILL), VALVE_VENT)
    case _ => CloseAllValves(a)
  }

  function Entry(s: State, o: Object): Object {
    o.(actuators := EntryActuators(s, o.actuators))
  }

  /** Exit actions do nothing. */
  function Exit(s: State, o: Object): Object {
    o
  }

  /**
   * The valves each entry action leaves open, whatever was open before; None
   * for the states whose entry action does nothing.
   */
  function EntryValves(s: State): Option<set<Valve>> {
    match s
    case Root => None
    case Ready => None
    case Armed => None
    case Flight => None
    case Abort => Some({AbortValve, Pressurizing})
    case SafePauseVent => Some({Vent})
    case PrePressVent => Some({Vent})
    case PostPressVent => Some({Vent})
    case FillN2Fill => Some({N2Fill})
    case PostPressFillN2 => Some({N2Fill})
    case PrePressFillN2 => Some({Pressurizing})
    case FillN2oFill => Some({N2oFill})
    case FillN2oVent => Some({N2oFill, Vent})
    case _ => Some({})
  }

  /**
   * Every entry action either does nothing or leaves open exactly the valves
   * of `EntryValves`, and it never touches anything but the valves.
   */
  lemma EntryMatchesTable(s: State, o: Object)
    ensures Entry(s, o) ==
      if EntryValves(s).Some? then o.(actuators := o.actuators.(valves := EntryValves(s).value)) else o
  {
    var a := o.actuators;
    match s
    case Abort =>
      var r := SetValve(SetValve(CloseAllValves(a), VALVE_ABORT, true), VALVE_PRESSURIZING, true);
      assert r.valves == {AbortValve, Pressurizing};
    case FillN2oVent =>
      var r := ToggleValve(ToggleValve(CloseAllValves(a), VALVE_N2O_FILL), VALVE_VENT);
      assert r.valves == {N2oFill, Vent};
    case _ =>
  }

  function Parent(s: State): Option<State> {
    match s
    case Root => None
    case Idle | Fill | Ready | Armed | Flight | Abort => Some(Root)
    case SafePause | FillN2 | PrePress | FillN2o | PostPress => Some(Fill)
    case SafePauseIdle | SafePauseVent => Some(SafePause)
    case FillN2Idle | FillN2Fill => Some(FillN2)
    case PrePressIdle | PrePressFillN2 | PrePressVent => Some(PrePress)
    case FillN2oIdle | FillN2oFill | FillN2oVent => Some(FillN2o)
    case PostPressIdle | PostPressFillN2 | PostPressVent => Some(PostPress)
  }

  /** Only ROOT names an initial child. */
  function Initial(s: State): Option<State> {
    if s == Root then Some(Idle) else None
  }

  function Depth(s: State): nat {
    match s
    case Root => 0
    case Idle | Fill | Ready | Armed | Flight | Abort => 1
    case SafePause | FillN2 | PrePress | FillN2o | PostPress => 2
    case _ => 3
  }

  function Height(s: State): nat {
    if s == Root then 1 else 0
  }

  /** `states`. */
  function Machine(): Smf.Chart<State, Object> {
    Smf.Chart(Parent, Initial, Depth, Height, Run, Entry, Exit)
  }

  /** Each state's entries in the table are consistent with its parent and initial child. */
  lemma TableConsistent(s: State)
    ensures Parent(s).Some? ==> Depth(Parent(s).value) < Depth(s)
    ensures Initial(s).Some? ==> Height(Initial(s).value) < Height(s) && Parent(Initial(s).value) == Some(s)
  {
  }

  lemma MachineWellFormed()
    ensures Smf.WellFormed(Machine())
  {
    var m := Machine();
    forall s ensures m.parent(s).Some? ==> m.depth(m.parent(s).value) < m.depth(s) {
      TableConsistent(s);
    }
    forall s ensures m.initial(s).Some? ==> m.height(m.initial(s).value) < m.height(s) {
      TableConsistent(s);
    }
    forall s ensures m.initial(s).Some? ==> m.parent(m.initial(s).value) == Some(s) {
      TableConsistent(s);
    }
  }

  /** Entering `t` from outside: its valve table, or no change at all. */
  function Enter(t: State, o: Object): Object {
    if EntryValves(t).Some? then o.(actuators := o.actuators.(valves := EntryValves(t).value)) else o
  }

  /** Applying entry actions one after another changes nothing but the valves. */
  lemma {:induction false} EntriesOnlyTouchValves(ss: seq<State>, o: Object)
    ensures Smf.Apply(Entry, ss, o) == o.(actuators := o.actuators.(valves := Smf.Apply(Entry, ss, o).actuators.valves))
    decreases |ss|
  {
    if ss != [] {
      var before := Smf.Apply(Entry, ss[..|ss| - 1], o);
      EntriesOnlyTouchValves(ss[..|ss| - 1], o);
      EntryMatchesTable(ss[|ss| - 1], before);
    }
  }

  /**
   * A step whose run actions decide on a transition to any state but ROOT
   * settles in that state, and leaves open the valves of its entry action
   * (or changes nothing, for a state without one), whatever the ancestors the
   * transition re-enters did first.
   */
  lemma StepTo(s: State, o: Object, t: State)
    requires Smf.WellFormed(Machine()) && Smf.Dispatch(Machine(), s, o) == Smf.Transition(t) && t != Root
    ensures Smf.Step(Machine(), s, o) == (t, Enter(t, o))
  {
    TransitTo(s, o, t);
  }

  /** `StepTo` for a target whose entry action leaves exactly `valves` open. */
  lemma StepToValves(s: State, o: Object, t: State, valves: set<Valve>)
    requires Smf.WellFormed(Machine()) && Smf.Dispatch(Machine(), s, o) == Smf.Transition(t) && t != Root
    requires EntryValves(t) == Some(valves)
    ensures Smf.Step(Machine(), s, o) == (t, o.(actuators := o.actuators.(valves := valves)))
  {
    StepTo(s, o, t);
  }

  /** A transition from `s` to any state but ROOT. */
  lemma TransitTo(s: State, o: Object, t: State)
    requires t != Root
    ensures Smf.WellFormed(Machine()) && Smf.Transit(Machine(), s, t, o) == (t, Enter(t, o))
  {
    if EntryValves(t).Some? {
      TransitToValved(s, o, t);
    } else {
      TransitToTop(s, o, t);
    }
  }

  /** `TransitTo` for a target with an entry action of its own. */
  lemma TransitToValved(s: State, o: Object, t: State)
    requires t != Root && EntryValves(t).Some?
    ensures Smf.WellFormed(Machine()) && Smf.Transit(Machine(), s, t, o) == (t, Enter(t, o))
  {
    MachineWellFormed();
    forall ss ensures Entry(t, Smf.Apply(Entry, ss, o)) == Enter(t, o) {
      ReenteringAncestors(ss, o, t);
    }
    Smf.TransitToAbsorbingLeaf(Machine(), s, t, o, Enter(t, o));
  }

  /** `TransitTo` for a target without an entry action, which sits directly below ROOT. */
  lemma TransitToTop(s: State, o: Object, t: State)
    requires t != Root && EntryValves(t).None?
    ensures Smf.WellFormed(Machine()) && Smf.Transit(Machine(), s, t, o) == (t, Enter(t, o))
  {
    MachineWellFormed();
    NoEntryOnlyAtTop(t);
    EntryMatchesTable(Root, o);
    EntryMatchesTable(t, o);
    assert Entry(t, Entry(Root, o)) == o && Entry(t, o) == o && Enter(t, o) == o;
    Smf.TransitBelowTop(Machine(), s, t, Root, o);
  }

  /** The states besides ROOT whose entry action does nothing all sit directly below ROOT. */
  lemma NoEntryOnlyAtTop(t: State)
    requires t != Root && EntryValves(t).None?
    ensures Parent(t) == Some(Root)
  {
  }

  /** Whatever ancestors of `t` are re-entered first, entering `t` itself ends as `Enter` says. */
  lemma ReenteringAncestors(ss: seq<State>, o: Object, t: State)
    requires t != Root && (EntryValves(t).None? ==> ss == [] || ss == [Root])
    ensures Entry(t, Smf.Apply(Entry, ss, o)) == Enter(t, o)
  {
    var before := Smf.Apply(Entry, ss, o);
    EntriesOnlyTouchValves(ss, o);
    EntryMatchesTable(t, before);
    if EntryValves(t).None? && ss == [Root] {
      assert before == Entry(Root, Smf.Apply(Entry, [], o));
    }
  }

  /** A step whose run actions decide on no transition. */
  lemma StepStays(s: State, o: Object)
    requires Smf.WellFormed(Machine()) && !Smf.Dispatch(Machine(), s, o).Transition?
    ensures Smf.Step(Machine(), s, o) == (s, o)
  {
  }

  /** A mode state's run decides, or ROOT's does. */
  lemma DispatchFromMode(s: State, o: Object)
    requires Parent(s) == Some(Root)
    ensures Smf.WellFormed(Machine())
    ensures Smf.Dispatch(Machine(), s, o) == if Run(s, o).Propagate? then RootRun(o) else Run(s, o)
  {
    MachineWellFormed();
    if Run(s, o).Propagate? {
      Smf.DispatchParent(Machine(), s, o);
      Smf.DispatchTop(Machine(), Root, o);
    } else {
      Smf.DispatchOwn(Machine(), s, o);
    }
  }

  /** A filling group reached from FILL passes every step on to FILL, and FILL to ROOT. */
  lemma DispatchFromGroup(s: State, o: Object)
    requires s in {FillN2, PrePress, FillN2o, PostPress}
    ensures Smf.WellFormed(Machine())
    ensures Smf.Dispatch(Machine(), s, o) == if FillRun(o).Propagate? then RootRun(o) else FillRun(o)
  {
    MachineWellFormed();
    var m := Machine();
    assert Run(s, o).Propagate? && Parent(s) == Some(Fill);
    Smf.DispatchParent(m, s, o);
    DispatchFromMode(Fill, o);
  }

  // ---------------------------------------------------------------------------
  // The mode states
  // ---------------------------------------------------------------------------

  /** In IDLE, FILL_EXEC goes to FILL and closes every valve. */
  lemma IdleFillExec(o: Object)
    requires o.command == CMD_FILL_EXEC
    ensures Smf.WellFormed(Machine()) && Smf.Step(Machine(), Idle, o) == (Fill, o.(actuators := o.actuators.(valves := {})))
  {
    DispatchFromMode(Idle, o);
    StepTo(Idle, o, Fill);
  }

  /** In IDLE, READY goes to READY, whose entry action does nothing. */
  lemma IdleReady(o: Object)
    requires o.command == CMD_READY
    ensures Smf.WellFormed(Machine()) && Smf.Step(Machine(), Idle, o) == (Ready, o)
  {
    DispatchFromMode(Idle, o);
    StepTo(Idle, o, Ready);
  }

  /**
   * In IDLE every other command changes nothing: IDLE marks it handled, so
   * ROOT never sees STOP or ABORT there.
   */
  lemma IdleSwallowsOtherCommands(o: Object)
    requires o.command != CMD_FILL_EXEC && o.command != CMD_READY
    ensures Smf.WellFormed(Machine()) && Smf.Step(Machine(), Idle, o) == (Idle, o)
  {
    DispatchFromMode(Idle, o);
    StepStays(Idle, o);
  }

  /** In READY, ARM goes to ARMED. */
  lemma ReadyArm(o: Object)
    requires o.command == CMD_ARM
    ensures Smf.WellFormed(Machine()) && Smf.Step(Machine(), Ready, o) == (Armed, o)
  {
    assert Run(Ready, o) == Smf.Transition(Armed);
    assert Enter(Armed, o) == o;
    DispatchFromMode(Ready, o);
    StepTo(Ready, o, Armed);
  }

  /** In READY, ABORT goes to ABORT, leaving exactly the abort and pressurizing valves open. */
  lemma ReadyAbort(o: Object)
    requires o.command == CMD_ABORT
    ensures Smf.WellFormed(Machine())
    ensures Smf.Step(Machine(), Ready, o) == (Abort, o.(actuators := o.actuators.(valves := {AbortValve, Pressurizing})))
  {
    DispatchFromMode(Ready, o);
    StepToValves(Ready, o, Abort, {AbortValve, Pressurizing});
  }

  /** In READY every other command, STOP included, is swallowed. */
  lemma ReadySwallowsOtherCommands(o: Object)
    requires o.command != CMD_ARM && o.command != CMD_ABORT
    ensures Smf.WellFormed(Machine()) && Smf.Step(Machine(), Ready, o) == (Ready, o)
  {
    DispatchFromMode(Ready, o);
    StepStays(Ready, o);
  }

  /**
   * In ARMED, the machine moves to FLIGHT exactly when FIRE arrives with the
   * chamber hotter than the launch minimum; nothing else, ABORT included,
   * changes anything.
   */
  lemma ArmedFire(o: Object)
    ensures Smf.WellFormed(Machine())
    ensures Smf.Step(Machine(), Armed, o) ==
      if o.command == CMD_FIRE && o.thermocouples.chamberThermo > o.config.flight.minChamberLaunchTemp then (Flight, o) else (Armed, o)
  {
    if o.command == CMD_FIRE && o.thermocouples.chamberThermo > o.config.flight.minChamberLaunchTemp {
      ArmedFires(o);
    } else {
      ArmedWaits(o);
    }
  }

  /** `ArmedFire` when FIRE arrives with the chamber hot enough. */
  lemma ArmedFires(o: Object)
    requires o.command == CMD_FIRE && o.thermocouples.chamberThermo > o.config.flight.minChamberLaunchTemp
    ensures Smf.WellFormed(Machine()) && Smf.Step(Machine(), Armed, o) == (Flight, o)
  {
    assert Run(Armed, o) == Smf.Transition(Flight);
    assert Enter(Flight, o) == o;
    DispatchFromMode(Armed, o);
    StepTo(Armed, o, Flight);
  }

  /** `ArmedFire` for every other command. */
  lemma ArmedWaits(o: Object)
    requires !(o.command == CMD_FIRE && o.thermocouples.chamberThermo > o.config.flight.minChamberLaunchTemp)
    ensures Smf.WellFormed(Machine()) && Smf.Step(Machine(), Armed, o) == (Armed, o)
  {
    assert Run(Armed, o).Propagate? ==> o.command == 0 && RootRun(o) == Smf.Propagate;
    assert !Run(Armed, o).Transition?;
    DispatchFromMode(Armed, o);
    StepStays(Armed, o);
  }

  /** In FLIGHT, ABORT goes to ABORT. */
  lemma FlightAbort(o: Object)
    requires o.command == CMD_ABORT
    ensures Smf.WellFormed(Machine())
    ensures Smf.Step(Machine(), Flight, o) == (Abort, o.(actuators := o.actuators.(valves := {AbortValve, Pressurizing})))
  {
    DispatchFromMode(Flight, o);
    StepToValves(Flight, o, Abort, {AbortValve, Pressurizing});
  }

  /** In FLIGHT nothing but ABORT changes anything; LAUNCH_OVERRIDE reaches ROOT, which ignores it. */
  lemma FlightIgnoresOtherCommands(o: Object)
    requires o.command != CMD_ABORT
    ensures Smf.WellFormed(Machine()) && Smf.Step(Machine(), Flight, o) == (Flight, o)
  {
    DispatchFromMode(Flight, o);
    StepStays(Flight, o);
  }

  /** In ABORT, READY or STOP goes to IDLE and closes every valve. */
  lemma AbortToIdle(o: Object)
    requires o.command == CMD_READY || o.command == CMD_STOP
    ensures Smf.WellFormed(Machine()) && Smf.Step(Machine(), Abort, o) == (Idle, o.(actuators := o.actuators.(valves := {})))
  {
    DispatchFromMode(Abort, o);
    StepToValves(Abort, o, Idle, {});
  }

  /** In ABORT every other command is swallowed. */
  lemma AbortSwallowsOtherCommands(o: Object)
    requires o.command != CMD_READY && o.command != CMD_STOP
    ensures Smf.WellFormed(Machine()) && Smf.Step(Machine(), Abort, o) == (Abort, o)
  {
    DispatchFromMode(Abort, o);
    StepStays(Abort, o);
  }

  // ---------------------------------------------------------------------------
  // FILL and the filling groups
  // ---------------------------------------------------------------------------

  /** The state each known fill program asks FILL for. */
  function ProgramState(fillCommand: u8): (s: Option<State>)
    ensures s.Some? <==> CMD_FILL_N2 <= fillCommand <= CMD_FILL_POST_PRESS
    ensures s.Some? ==> s.value in {Fill, PrePress, FillN2o, PostPress}
  {
    if fillCommand == CMD_FILL_N2 then Some(Fill)
    else if fillCommand == CMD_FILL_PRE_PRESS then Some(PrePress)
    else if fillCommand == CMD_FILL_N2O then Some(FillN2o)
    else if fillCommand == CMD_FILL_POST_PRESS then Some(PostPress)
    else None
  }

  /** FILL and the groups it reaches. */
  predicate InFill(s: State) {
    s in {Fill, PrePress, FillN2o, PostPress}
  }

  lemma DispatchInFill(s: State, o: Object)
    requires InFill(s)
    ensures Smf.WellFormed(Machine())
    ensures Smf.Dispatch(Machine(), s, o) == if FillRun(o).Propagate? then RootRun(o) else FillRun(o)
  {
    if s == Fill {
      DispatchFromMode(Fill, o);
    } else {
      DispatchFromGroup(s, o);
    }
  }

  /**
   * In FILL or one of its groups, a known fill program moves to the state it
   * names, with every valve closed; the N2 program re-enters FILL itself
   * rather than the N2 group.
   */
  lemma FillProgram(s: State, o: Object)
    requires InFill(s) && ProgramState(o.fillCommand).Some?
    ensures Smf.WellFormed(Machine())
    ensures Smf.Step(Machine(), s, o) == (ProgramState(o.fillCommand).value, o.(actuators := o.actuators.(valves := {})))
  {
    DispatchInFill(s, o);
    StepToValves(s, o, ProgramState(o.fillCommand).value, {});
  }

  /** An unknown fill program is marked handled and changes nothing, whatever the command. */
  lemma FillUnknownProgram(s: State, o: Object)
    requires InFill(s) && o.fillCommand != 0 && ProgramState(o.fillCommand).None?
    ensures Smf.WellFormed(Machine()) && Smf.Step(Machine(), s, o) == (s, o)
  {
    DispatchInFill(s, o);
    StepStays(s, o);
  }

  /** Without a fill program, STOP leaves FILL for IDLE and closes every valve. */
  lemma FillStop(s: State, o: Object)
    requires InFill(s) && o.fillCommand == 0 && o.command == CMD_STOP
    ensures Smf.WellFormed(Machine()) && Smf.Step(Machine(), s, o) == (Idle, o.(actuators := o.actuators.(valves := {})))
  {
    DispatchInFill(s, o);
    StepToValves(s, o, Idle, {});
  }

  /** Without a fill program, ABORT leaves FILL for ABORT. */
  lemma FillAbort(s: State, o: Object)
    requires InFill(s) && o.fillCommand == 0 && o.command == CMD_ABORT
    ensures Smf.WellFormed(Machine())
    ensures Smf.Step(Machine(), s, o) == (Abort, o.(actuators := o.actuators.(valves := {AbortValve, Pressurizing})))
  {
    DispatchInFill(s, o);
    StepToValves(s, o, Abort, {AbortValve, Pressurizing});
  }

  /** Without a fill program, any other command leaves FILL and its groups as they are. */
  lemma FillIgnoresOtherCommands(s: State, o: Object)
    requires InFill(s) && o.fillCommand == 0 && o.command != CMD_STOP && o.command != CMD_ABORT
    ensures Smf.WellFormed(Machine()) && Smf.Step(Machine(), s, o) == (s, o)
  {
    DispatchInFill(s, o);
    StepStays(s, o);
  }

  // ---------------------------------------------------------------------------
  // The filling leaves
  // ---------------------------------------------------------------------------

  /** The filling leaves, one level below their groups. */
  predicate IsFillingLeaf(s: State) {
    Depth(s) == 3
  }

  /** SAFE_PAUSE's run decides, or else FILL's and ROOT's. */
  lemma DispatchFromSafePause(o: Object)
    ensures Smf.WellFormed(Machine())
    ensures Smf.Dispatch(Machine(), SafePause, o) ==
      if !SafePauseRun(o).Propagate? then SafePauseRun(o)
      else if FillRun(o).Propagate? then RootRun(o) else FillRun(o)
  {
    MachineWellFormed();
    if SafePauseRun(o).Propagate? {
      Smf.DispatchParent(Machine(), SafePause, o);
      DispatchFromMode(Fill, o);
    } else {
      Smf.DispatchOwn(Machine(), SafePause, o);
    }
  }

  /** While a command is pending, a filling leaf leaves the decision to its group. */
  lemma LeafDefersPendingCommand(s: State, o: Object)
    requires IsFillingLeaf(s) && o.command != 0
    ensures Smf.WellFormed(Machine())
    ensures Parent(s).Some? && Smf.Dispatch(Machine(), s, o) == Smf.Dispatch(Machine(), Parent(s).value, o)
  {
    MachineWellFormed();
    assert Run(s, o).Propagate?;
    Smf.DispatchParent(Machine(), s, o);
  }

  /** The state a filling leaf asks for is always a leaf of its own group. */
  lemma LeafConditionStaysInGroup(s: State, o: Object)
    requires IsFillingLeaf(s) && LeafCondition(s, o).Some?
    ensures IsFillingLeaf(LeafCondition(s, o).value) && Parent(LeafCondition(s, o).value) == Parent(s)
    ensures LeafCondition(s, o).value != s
  {
  }

  /**
   * With no command pending, a filling leaf moves to the state its condition
   * asks for, leaving open that state's valves, or else nothing changes.
   */
  lemma LeafStep(s: State, o: Object)
    requires IsFillingLeaf(s) && o.command == 0 && o.fillCommand == 0
    ensures Smf.WellFormed(Machine())
    ensures Smf.Step(Machine(), s, o) ==
      if LeafCondition(s, o).Some? then (LeafCondition(s, o).value, Enter(LeafCondition(s, o).value, o)) else (s, o)
  {
    if LeafCondition(s, o).Some? {
      LeafMoves(s, o, LeafCondition(s, o).value);
    } else {
      LeafWaits(s, o);
    }
  }

  lemma LeafMoves(s: State, o: Object, t: State)
    requires IsFillingLeaf(s) && o.command == 0 && LeafCondition(s, o) == Some(t)
    ensures Smf.WellFormed(Machine()) && Smf.Step(Machine(), s, o) == (t, Enter(t, o))
  {
    MachineWellFormed();
    assert Run(s, o) == Smf.Transition(t);
    Smf.DispatchOwn(Machine(), s, o);
    StepTo(s, o, t);
  }

  lemma LeafWaits(s: State, o: Object)
    requires IsFillingLeaf(s) && o.command == 0 && o.fillCommand == 0 && LeafCondition(s, o).None?
    ensures Smf.WellFormed(Machine()) && Smf.Step(Machine(), s, o) == (s, o)
  {
    var g := Parent(s).value;
    assert Run(s, o).Propagate? && Run(g, o).Propagate? && Parent(g) == Some(Fill);
    MachineWellFormed();
    var m := Machine();
    Smf.DispatchParent(m, s, o);
    Smf.DispatchParent(m, g, o);
    DispatchFromMode(Fill, o);
    StepStays(s, o);
  }

  /**
   * The filling leaves keep the valves in line with their state: from a leaf
   * whose valves are those of its entry action, a step with no command pending
   * stays among the leaves of the same group, the valves again those of the
   * new leaf, and nothing but the valves changes.
   */
  lemma LeafValvesFollowState(s: State, o: Object)
    requires IsFillingLeaf(s) && o.command == 0 && o.fillCommand == 0
    requires EntryValves(s) == Some(o.actuators.valves)
    ensures Smf.WellFormed(Machine())
    ensures IsFillingLeaf(Smf.Step(Machine(), s, o).0) && Parent(Smf.Step(Machine(), s, o).0) == Parent(s)
    ensures EntryValves(Smf.Step(Machine(), s, o).0) == Some(Smf.Step(Machine(), s, o).1.actuators.valves)
    ensures Smf.Step(Machine(), s, o).1 == o.(actuators := o.actuators.(valves := Smf.Step(Machine(), s, o).1.actuators.valves))
  {
    var c := LeafCondition(s, o);
    if c.Some? {
      var t := c.value;
      LeafConditionStaysInGroup(s, o);
      assert EntryValves(t).Some?;
      assert Enter(t, o) == o.(actuators := o.actuators.(valves := EntryValves(t).value));
      LeafMoves(s, o, t);
    } else {
      LeafWaits(s, o);
    }
  }

  /** SAFE_PAUSE: vent above the trigger pressure, stop venting at or below the target. */
  lemma SafePauseBand(o: Object)
    requires o.command == 0 && o.fillCommand == 0
    ensures Smf.WellFormed(Machine())
    ensures Smf.Step(Machine(), SafePauseIdle, o).0 ==
      if o.pressures.n2oTankPressure > o.config.filling.safePause.triggerN2oTankPressure then SafePauseVent else SafePauseIdle
    ensures Smf.Step(Machine(), SafePauseVent, o).0 ==
      if o.pressures.n2oTankPressure <= o.config.filling.safePause.targetN2oTankPressure then SafePauseIdle else SafePauseVent
  {
    LeafStep(SafePauseIdle, o);
    LeafStep(SafePauseVent, o);
  }

  /** The N2 (COPV) fill: fill at or below the target pressure, stop at or above it. */
  lemma CopvHysteresis(o: Object)
    requires o.command == 0 && o.fillCommand == 0
    ensures Smf.WellFormed(Machine())
    ensures Smf.Step(Machine(), FillN2Idle, o).0 ==
      if o.pressures.n2TankPressure <= o.config.filling.fCopv.targetN2TankPressure then FillN2Fill else FillN2Idle
    ensures Smf.Step(Machine(), FillN2Fill, o).0 ==
      if o.pressures.n2TankPressure >= o.config.filling.fCopv.targetN2TankPressure then FillN2Idle else FillN2Fill
  {
    LeafStep(FillN2Idle, o);
    LeafStep(FillN2Fill, o);
  }

  /** Pre-pressurizing idle: the vent check comes first; only then the fill check. */
  lemma PrePressIdleOrder(o: Object)
    requires o.command == 0 && o.fillCommand == 0
    ensures Smf.WellFormed(Machine())
    ensures Smf.Step(Machine(), PrePressIdle, o).0 ==
      if o.pressures.n2oTankPressure > o.config.filling.preP.triggerN2oTankPressure then PrePressVent
      else if o.pressures.n2oTankPressure < o.config.filling.preP.targetN2oTankPressure then PrePressFillN2
      else PrePressIdle
  {
    var c := LeafCondition(PrePressIdle, o);
    assert c == if o.pressures.n2oTankPressure > o.config.filling.preP.triggerN2oTankPressure then Some(PrePressVent)
      else if o.pressures.n2oTankPressure < o.config.filling.preP.targetN2oTankPressure then Some(PrePressFillN2)
      else None;
    LeafStep(PrePressIdle, o);
  }

  /** Post-pressurizing idle: the same order as pre-pressurizing, with its own limits. */
  lemma PostPressIdleOrder(o: Object)
    requires o.command == 0 && o.fillCommand == 0
    ensures Smf.WellFormed(Machine())
    ensures Smf.Step(Machine(), PostPressIdle, o).0 ==
      if o.pressures.n2oTankPressure > o.config.filling.postP.triggerN2oTankPressure then PostPressVent
      else if o.pressures.n2oTankPressure < o.config.filling.postP.targetN2oTankPressure then PostPressFillN2
      else PostPressIdle
  {
    var c := LeafCondition(PostPressIdle, o);
    assert c == if o.pressures.n2oTankPressure > o.config.filling.postP.triggerN2oTankPressure then Some(PostPressVent)
      else if o.pressures.n2oTankPressure < o.config.filling.postP.targetN2oTankPressure then Some(PostPressFillN2)
      else None;
    LeafStep(PostPressIdle, o);
  }

  /**
   * N2O filling: the vent check (pressure at or above the trigger and
   * temperature above the trigger) comes before the weight check.
   */
  lemma N2oFillOrder(o: Object)
    requires o.command == 0 && o.fillCommand == 0
    ensures Smf.WellFormed(Machine())
    ensures Smf.Step(Machine(), FillN2oFill, o).0 ==
      if o.pressures.n2oTankPressure >= o.config.filling.fN2o.triggerN2oTankPressure
         && o.pressures.n2oTankTemperature > o.config.filling.fN2o.triggerN2oTankTemperature then FillN2oVent
      else if o.loadcells.n2oLoadcell >= o.config.filling.fN2o.targetN2oTankWeight then FillN2oIdle
      else FillN2oFill
  {
    var f := o.config.filling.fN2o;
    var c := LeafCondition(FillN2oFill, o);
    assert c == if o.pressures.n2oTankPressure >= f.triggerN2oTankPressure && o.pressures.n2oTankTemperature > f.triggerN2oTankTemperature then Some(FillN2oVent)
      else if o.loadcells.n2oLoadcell >= f.targetN2oTankWeight then Some(FillN2oIdle)
      else None;
    LeafStep(FillN2oFill, o);
  }

  /** N2O venting opens the N2O fill and vent valves and nothing else. */
  lemma N2oVentOpensFillAndVent(o: Object)
    requires o.command == 0 && o.fillCommand == 0
    requires o.pressures.n2oTankPressure >= o.config.filling.fN2o.triggerN2oTankPressure
    requires o.pressures.n2oTankTemperature > o.config.filling.fN2o.triggerN2oTankTemperature
    ensures Smf.WellFormed(Machine())
    ensures Smf.Step(Machine(), FillN2oFill, o) == (FillN2oVent, o.(actuators := o.actuators.(valves := {N2oFill, Vent})))
  {
    assert LeafCondition(FillN2oFill, o) == Some(FillN2oVent);
    assert Enter(FillN2oVent, o) == o.(actuators := o.actuators.(valves := {N2oFill, Vent}));
    LeafStep(FillN2oFill, o);
  }

  /** In SAFE_PAUSE or one of its leaves, RESUME goes to IDLE and closes every valve. */
  lemma SafePauseResume(s: State, o: Object)
    requires s in {SafePause, SafePauseIdle, SafePauseVent} && o.command == CMD_RESUME
    ensures Smf.WellFormed(Machine()) && Smf.Step(Machine(), s, o) == (Idle, o.(actuators := o.actuators.(valves := {})))
  {
    DispatchFromSafePause(o);
    if s != SafePause {
      LeafDefersPendingCommand(s, o);
    }
    StepToValves(s, o, Idle, {});
  }

  /** In SAFE_PAUSE or one of its leaves, every other command, STOP and ABORT included, is swallowed. */
  lemma SafePauseSwallowsOtherCommands(s: State, o: Object)
    requires s in {SafePause, SafePauseIdle, SafePauseVent} && o.command != 0 && o.command != CMD_RESUME
    ensures Smf.WellFormed(Machine()) && Smf.Step(Machine(), s, o) == (s, o)
  {
    DispatchFromSafePause(o);
    if s != SafePause {
      LeafDefersPendingCommand(s, o);
    }
    StepStays(s, o);
  }

  /** Outside SAFE_PAUSE, STOP without a fill program takes a filling leaf to IDLE with every valve closed. */
  lemma LeafStop(s: State, o: Object)
    requires IsFillingLeaf(s) && Parent(s) != Some(SafePause) && o.command == CMD_STOP && o.fillCommand == 0
    ensures Smf.WellFormed(Machine()) && Smf.Step(Machine(), s, o) == (Idle, o.(actuators := o.actuators.(valves := {})))
  {
    LeafDefersPendingCommand(s, o);
    DispatchFromGroup(Parent(s).value, o);
    StepToValves(s, o, Idle, {});
  }

  // ---------------------------------------------------------------------------
  // What the machine can reach
  // ---------------------------------------------------------------------------

  /** The states a run can be in after `sm_init`: the filling leaves and SAFE_PAUSE are not among them. */
  predicate Reachable(s: State) {
    s in {Idle, Fill, Ready, Armed, Flight, Abort, PrePress, FillN2o, PostPress}
  }

  /** A reachable state, with the abort and pressurizing valves open in ABORT and every valve closed elsewhere. */
  predicate ValvesClosed(s: State, o: Object) {
    Reachable(s) && o.actuators.valves == if s == Abort then {AbortValve, Pressurizing} else {}
  }

  /** From a reachable state every transition goes to a reachable state, and from ABORT only to IDLE. */
  lemma ReachableTargets(s: State, o: Object)
    requires Reachable(s)
    ensures Smf.WellFormed(Machine())
    ensures Smf.Dispatch(Machine(), s, o).Transition? ==>
      Reachable(Smf.Dispatch(Machine(), s, o).target) && (s == Abort ==> Smf.Dispatch(Machine(), s, o).target == Idle)
  {
    if InFill(s) {
      DispatchInFill(s, o);
    } else {
      DispatchFromMode(s, o);
    }
  }

  /**
   * Whatever the command, fill command and readings, a step keeps the machine
   * among the reachable states with the valves closed outside ABORT, and
   * changes nothing but the valves.
   */
  lemma StepKeepsValvesClosed(s: State, o: Object)
    requires ValvesClosed(s, o)
    ensures Smf.WellFormed(Machine())
    ensures ValvesClosed(Smf.Step(Machine(), s, o).0, Smf.Step(Machine(), s, o).1)
    ensures Smf.Step(Machine(), s, o).1 == o.(actuators := o.actuators.(valves := Smf.Step(Machine(), s, o).1.actuators.valves))
  {
    ReachableTargets(s, o);
    var d := Smf.Dispatch(Machine(), s, o);
    if d.Transition? {
      EnterKeepsValvesClosed(s, d.target, o);
      StepTo(s, o, d.target);
    } else {
      StepStays(s, o);
    }
  }

  lemma EnterKeepsValvesClosed(s: State, t: State, o: Object)
    requires ValvesClosed(s, o) && Reachable(t) && (s == Abort ==> t == Idle)
    ensures ValvesClosed(t, Enter(t, o))
  {
  }

  // ---------------------------------------------------------------------------
  // Initialisation
  // ---------------------------------------------------------------------------

  /** `sm_init`: ROOT and IDLE are entered, so the machine is in IDLE with every valve closed. */
  method SmInit(ctx: Smf.Context<State, Object>)
    requires ctx.chart == Machine()
    modifies ctx
    ensures ctx.current == Idle && ctx.obj == old(ctx.obj).(actuators := old(ctx.obj).actuators.(valves := {}))
  {
    MachineWellFormed();
    var m := Machine();
    assert Smf.Path(m, Idle) + Smf.InitialChain(m, Idle) == [Root, Idle];
    assert Smf.Apply(m.entry, [Root, Idle], ctx.obj) == Entry(Idle, Smf.Apply(m.entry, [Root], ctx.obj));
    assert Smf.Apply(m.entry, [Root], ctx.obj) == ctx.obj;
    Smf.LeafOfLeaf(m, Idle);
    ctx.SetInitial(Idle);
  }

  /** Sets the command and the fill command, and runs one step. */
  method RunWithCommand(ctx: Smf.Context<State, Object>, command: u8, fillCommand: u8)
    requires ctx.chart == Machine()
    modifies ctx
    ensures Smf.WellFormed(Machine())
    ensures (ctx.current, ctx.obj) == Smf.Step(Machine(), old(ctx.current), old(ctx.obj).(command := command, fillCommand := fillCommand))
  {
    MachineWellFormed();
    ctx.obj := ctx.obj.(command := command, fillCommand := fillCommand);
    ctx.RunState();
  }

  /**
   * After initialisation READY, ARM and FIRE (with the chamber hot enough)
   * take the machine to FLIGHT with every valve closed; ABORT then opens the
   * abort and pressurizing valves.
   */
  method LaunchThenAbort(o: Object) returns (afterInit: State, afterReady: State, afterArm: State, afterFire: State, afterAbort: State, valves: set<Valve>)
    requires o.thermocouples.chamberThermo > o.config.flight.minChamberLaunchTemp
    ensures afterInit == Idle && afterReady == Ready && afterArm == Armed && afterFire == Flight && afterAbort == Abort
    ensures valves == {AbortValve, Pressurizing}
  {
    MachineWellFormed();
    var ctx := new Smf.Context(Machine(), Idle, o);
    SmInit(ctx);
    afterInit := ctx.current;
    IdleReady(ctx.obj.(command := CMD_READY, fillCommand := 0));
    RunWithCommand(ctx, CMD_READY, 0);
    afterReady := ctx.current;
    ReadyArm(ctx.obj.(command := CMD_ARM, fillCommand := 0));
    RunWithCommand(ctx, CMD_ARM, 0);
    afterArm := ctx.current;
    ArmedFire(ctx.obj.(command := CMD_FIRE, fillCommand := 0));
    RunWithCommand(ctx, CMD_FIRE, 0);
    afterFire := ctx.current;
    FlightAbort(ctx.obj.(command := CMD_ABORT, fillCommand := 0));
    RunWithCommand(ctx, CMD_ABORT, 0);
    afterAbort := ctx.current;
    valves := ctx.obj.actuators.valves;
  }
}

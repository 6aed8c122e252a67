/**
 * The flight phases of `services/state_machine/flight_sm.c`: IGNITION,
 * BOOST, COAST, APOGEE, DROGUE_CHUTE, MAIN_CHUTE and TOUCHDOWN. Each run
 * compares one reading of the shared state machine object against the flight
 * configuration and, when its condition holds, asks for the next phase; entry
 * and exit actions do nothing. The phases sit side by side with no parent and
 * no initial child, so they form a chart of their own over the same object
 * as the main machine.
 */
module FlightSm {
  import opened Bytes
  import MainSm
  import Smf

  datatype Phase = Ignition | Boost | Coast | Apogee | DrogueChute | MainChute | Touchdown

  /** The order of the phases during a flight. */
  function Rank(p: Phase): nat {
    match p
    case Ignition => 0
    case Boost => 1
    case Coast => 2
    case Apogee => 3
    case DrogueChute => 4
    case MainChute => 5
    case Touchdown => 6
  }

  /** `ignition_run` … `touchdown_run`; a run that asks for nothing leaves the step unhandled. */
  function Run(p: Phase, o: MainSm.Object): Smf.Outcome<Phase> {
    var f := o.config.flight;
    match p
    case Ignition => if o.thermocouples.chamberThermo > f.minChamberLaunchTemp then Smf.Transition(Boost) else Smf.Propagate
    case Boost => if o.kalman.verticalSpeed < f.boostVerticalSpeed then Smf.Transition(Coast) else Smf.Propagate
    case Coast => if o.kalman.verticalSpeed < f.coastVerticalSpeed then Smf.Transition(Apogee) else Smf.Propagate
    case Apogee => if o.actuators.ematchDrogue then Smf.Transition(DrogueChute) else Smf.Propagate
    case DrogueChute => if o.kalman.altitude < f.mainChuteDeployAltitude then Smf.Transition(MainChute) else Smf.Propagate
    case MainChute => if o.kalman.altitude < f.touchdownAltitude then Smf.Transition(Touchdown) else Smf.Propagate
    case Touchdown => Smf.Propagate
  }

  /** Every entry and exit action of a flight phase leaves the object alone. */
  function Unchanged(p: Phase, o: MainSm.Object): MainSm.Object {
    o
  }

  function Machine(): Smf.Chart<Phase, MainSm.Object> {
    Smf.Chart(_ => None, _ => None, _ => 0, _ => 0, Run, Unchanged, Unchanged)
  }

  lemma MachineWellFormed()
    ensures Smf.WellFormed(Machine())
  {
  }

  /**
   * One step in a flight phase: the phase the run asks for, or the same
   * phase, and the object as it was.
   */
  lemma PhaseStep(p: Phase, o: MainSm.Object)
    ensures Smf.WellFormed(Machine())
    ensures Smf.Step(Machine(), p, o) == (if Run(p, o).Transition? then Run(p, o).target else p, o)
  {
    var m := Machine();
    MachineWellFormed();
    Smf.DispatchTop(m, p, o);
    Smf.StepState(m, p, o);
    Smf.StepKeepsObject(m, p, o);
    if Run(p, o).Transition? {
      Smf.LeafOfLeaf(m, Run(p, o).target);
    }
  }

  /** A step never goes back: the phase moves at most one place forward, and the object is never changed. */
  lemma StepMovesForward(p: Phase, o: MainSm.Object)
    ensures Smf.WellFormed(Machine())
    ensures var q := Smf.Step(Machine(), p, o).0; Rank(q) == Rank(p) || Rank(q) == Rank(p) + 1
    ensures Smf.Step(Machine(), p, o).1 == o
  {
    RunMovesForward(p, o);
    PhaseStep(p, o);
  }

  lemma RunMovesForward(p: Phase, o: MainSm.Object)
    ensures Run(p, o).Transition? ==> Rank(Run(p, o).target) == Rank(p) + 1
  {
  }

  /** IGNITION goes to BOOST exactly when the chamber is hotter than the launch minimum. */
  lemma IgnitionToBoost(o: MainSm.Object)
    ensures Smf.WellFormed(Machine())
    ensures Smf.Step(Machine(), Ignition, o).0 == Boost <==> o.thermocouples.chamberThermo > o.config.flight.minChamberLaunchTemp
    ensures Smf.Step(Machine(), Ignition, o).0 in {Ignition, Boost}
  {
    PhaseStep(Ignition, o);
  }

  /** BOOST goes to COAST exactly when the vertical speed falls below the boost threshold. */
  lemma BoostToCoast(o: MainSm.Object)
    ensures Smf.WellFormed(Machine())
    ensures Smf.Step(Machine(), Boost, o).0 == Coast <==> o.kalman.verticalSpeed < o.config.flight.boostVerticalSpeed
    ensures Smf.Step(Machine(), Boost, o).0 in {Boost, Coast}
  {
    PhaseStep(Boost, o);
  }

  /** COAST goes to APOGEE exactly when the vertical speed falls below the coast threshold. */
  lemma CoastToApogee(o: MainSm.Object)
    ensures Smf.WellFormed(Machine())
    ensures Smf.Step(Machine(), Coast, o).0 == Apogee <==> o.kalman.verticalSpeed < o.config.flight.coastVerticalSpeed
    ensures Smf.Step(Machine(), Coast, o).0 in {Coast, Apogee}
  {
    PhaseStep(Coast, o);
  }

  /** APOGEE goes to DROGUE_CHUTE exactly when the drogue e-match bit is set. */
  lemma ApogeeToDrogue(o: MainSm.Object)
    ensures Smf.WellFormed(Machine())
    ensures Smf.Step(Machine(), Apogee, o).0 == DrogueChute <==> o.actuators.ematchDrogue
    ensures Smf.Step(Machine(), Apogee, o).0 in {Apogee, DrogueChute}
  {
    PhaseStep(Apogee, o);
  }

  /** DROGUE_CHUTE goes to MAIN_CHUTE exactly when the altitude is below the main chute deploy altitude. */
  lemma DrogueToMain(o: MainSm.Object)
    ensures Smf.WellFormed(Machine())
    ensures Smf.Step(Machine(), DrogueChute, o).0 == MainChute <==> o.kalman.altitude < o.config.flight.mainChuteDeployAltitude
    ensures Smf.Step(Machine(), DrogueChute, o).0 in {DrogueChute, MainChute}
  {
    PhaseStep(DrogueChute, o);
  }

  /** MAIN_CHUTE goes to TOUCHDOWN exactly when the altitude is below the touchdown altitude. */
  lemma MainToTouchdown(o: MainSm.Object)
    ensures Smf.WellFormed(Machine())
    ensures Smf.Step(Machine(), MainChute, o).0 == Touchdown <==> o.kalman.altitude < o.config.flight.touchdownAltitude
    ensures Smf.Step(Machine(), MainChute, o).0 in {MainChute, Touchdown}
  {
    PhaseStep(MainChute, o);
  }

  /** TOUCHDOWN is terminal: no reading moves it or changes the object. */
  lemma TouchdownIsTerminal(o: MainSm.Object)
    ensures Smf.WellFormed(Machine()) && Smf.Step(Machine(), Touchdown, o) == (Touchdown, o)
  {
    PhaseStep(Touchdown, o);
  }

  /** The phase after one step per reading, in order. */
  function Fly(p: Phase, readings: seq<MainSm.Object>): Phase
    decreases |readings|
  {
    MachineWellFormed();
    if readings == [] then p else Fly(Smf.Step(Machine(), p, readings[0]).0, readings[1..])
  }

  /**
   * Over any run of readings the phase never goes back and gains at most one
   * place per reading; once TOUCHDOWN is reached it stays.
   */
  lemma {:induction false} FlightIsMonotone(p: Phase, readings: seq<MainSm.Object>)
    ensures Rank(p) <= Rank(Fly(p, readings)) <= Rank(p) + |readings|
    ensures p == Touchdown ==> Fly(p, readings) == Touchdown
    decreases |readings|
  {
    if readings != [] {
      MachineWellFormed();
      var q := Smf.Step(Machine(), p, readings[0]).0;
      StepMovesForward(p, readings[0]);
      if p == Touchdown {
        TouchdownIsTerminal(readings[0]);
      }
      FlightIsMonotone(q, readings[1..]);
    }
  }

  /**
   * One work-queue tick in flight: the object takes the new readings and the
   * current phase's run executes.
   */
  method Tick(ctx: Smf.Context<Phase, MainSm.Object>, readings: MainSm.Object)
    requires ctx.chart == Machine()
    modifies ctx
    ensures ctx.obj == readings
    ensures ctx.current == Fly(old(ctx.current), [readings])
    ensures Rank(old(ctx.current)) <= Rank(ctx.current) <= Rank(old(ctx.current)) + 1
  {
    MachineWellFormed();
    ctx.obj := readings;
    ctx.RunState();
    StepMovesForward(old(ctx.current), readings);
    assert [readings][1..] == [];
  }
}

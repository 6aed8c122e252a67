/**
 * The rocket-state filling machine (`services/rocket_state/main_sm.c`): the
 * same ROOT-rooted layout and command switches as the flight computer's
 * filling machine, but every leaf registers an entry action, and each entry
 * action first closes every valve and then opens exactly its own valves. As a
 * result the open valves always match the state the machine is in.
 *
 * The file reads its commands through the CMD_GLOBAL, CMD_IDLE and CMD_OTHER
 * masks of `filling_sm.h`; the valve bit-field union it writes is not
 * declared in any header, so the valves are a set of names.
 */
module RocketState {
  import opened Bytes
  import opened FillCommands
  import Smf

  datatype State =
    | Root | Idle | Abort
    | SafePause | SafePauseIdle | SafePauseVent
    | FillingN2 | FillingN2Idle | FillingN2Fill
    | PrePress | PrePressIdle | PrePressVent | PrePressFillN2
    | FillingN2o | FillingN2oIdle | FillingN2oFill | FillingN2oVent
    | PostPress | PostPressIdle | PostPressVent | PostPressFillN2

  /** The valve flags the entry actions set. */
  datatype Valve = N2oFill | N2Fill | Pressurizing | Vent | AbortValve

  datatype PressConfig = PressConfig(targetN2oPressure: u16, triggerN2oPressure: u16)
  datatype N2oConfig = N2oConfig(targetWeight: u16, targetPressure: u16, triggerPressure: u16, triggerTemperature: u16)

  /** The command, the four filling readings, the open valves and the configuration. */
  datatype Object = Object(
    command: Cmd,
    n2TankPressure: u16, n2oTankPressure: u16, n2oTankWeight: u16, n2oTankTemperature: u16,
    valves: set<Valve>,
    safePause: PressConfig,
    copvTargetN2Pressure: u16,
    preP: PressConfig,
    fN2o: N2oConfig,
    postP: PressConfig)

  /** `root_run`: STOP, ABORT and PAUSE set a state; any other global byte only logs. */
  function RootRun(o: Object): Smf.Outcome<State> {
    var cmd := CmdGlobal(o.command);
    if cmd == 0 then Smf.Propagate
    else if cmd == CMD_STOP then Smf.Transition(Idle)
    else if cmd == CMD_ABORT then Smf.Transition(Abort)
    else if cmd == CMD_PAUSE then Smf.Transition(SafePause)
    else Smf.Propagate
  }

  /** `idle_run`: an empty idle byte goes on to ROOT; an unknown one is marked handled. */
  function IdleRun(o: Object): Smf.Outcome<State> {
    var cmd := CmdIdle(o.command);
    if cmd == 0 then Smf.Propagate
    else if cmd == CMD_FILL_COPV then Smf.Transition(FillingN2)
    else if cmd == CMD_PRE_PRESSURIZE then Smf.Transition(PrePress)
    else if cmd == CMD_FILL_N2O then Smf.Transition(FillingN2o)
    else if cmd == CMD_POST_PRESSURIZE then Smf.Transition(PostPress)
    else Smf.Handled
  }

  /** `abort_run`: READY goes to IDLE, RESUME breaks out to ROOT, anything else is handled. */
  function AbortRun(o: Object): Smf.Outcome<State> {
    var cmd := CmdOther(o.command);
    if cmd == 0 then Smf.Propagate
    else if cmd == CMD_READY then Smf.Transition(Idle)
    else if cmd == CMD_RESUME then Smf.Propagate
    else Smf.Handled
  }

  /** `safe_pause_run`: READY breaks out to ROOT, RESUME goes to IDLE, anything else is handled. */
  function SafePauseRun(o: Object): Smf.Outcome<State> {
    var cmd := CmdOther(o.command);
    if cmd == 0 then Smf.Propagate
    else if cmd == CMD_READY then Smf.Propagate
    else if cmd == CMD_RESUME then Smf.Transition(Idle)
    else Smf.Handled
  }

  /** The condition each group leaf checks, as the state it asks for (None when it asks for none). */
  function LeafCondition(s: State, o: Object): Option<State> {
    match s
    case SafePauseIdle =>
      if o.n2oTankPressure > o.safePause.triggerN2oPressure then Some(SafePauseVent) else None
    case SafePauseVent =>
      if o.n2oTankPressure <= o.safePause.targetN2oPressure then Some(SafePauseIdle) else None
    case FillingN2Idle =>
      if o.n2TankPressure <= o.copvTargetN2Pressure then Some(FillingN2Fill) else None
    case FillingN2Fill =>
      if o.n2TankPressure >= o.copvTargetN2Pressure then Some(FillingN2Idle) else None
    case PrePressIdle =>
      if o.n2oTankPressure > o.preP.triggerN2oPressure then Some(PrePressVent)
      else if o.n2oTankPressure < o.preP.targetN2oPressure then Some(PrePressFillN2)
      else None
    case PrePressFillN2 =>
      if o.n2oTankPressure >= o.preP.targetN2oPressure then Some(PrePressIdle) else None
    case PrePressVent =>
      if o.n2oTankPressure <= o.preP.targetN2oPressure then Some(PrePressIdle) else None
    case FillingN2oIdle =>
      if o.n2oTankWeight < o.fN2o.targetWeight then Some(FillingN2oFill) else None
    case FillingN2oFill =>
      if o.n2oTankPressure >= o.fN2o.triggerPressure && o.n2oTankTemperature > o.fN2o.triggerTemperature then Some(FillingN2oVent)
      else if o.n2oTankWeight >= o.fN2o.targetWeight then Some(FillingN2oIdle)
      else None
    case FillingN2oVent =>
      if o.n2oTankPressure <= o.fN2o.targetPressure || o.n2oTankTemperature <= o.fN2o.triggerTemperature then Some(FillingN2oFill)
      else None
    case PostPressIdle =>
      if o.n2oTankPressure > o.postP.triggerN2oPressure then Some(PostPressVent)
      else if o.n2oTankPressure < o.postP.targetN2oPressure then Some(PostPressFillN2)
      else None
    case PostPressFillN2 =>
      if o.n2oTankPressure >= o.postP.targetN2oPressure then Some(PostPressIdle) else None
    case PostPressVent =>
      if o.n2oTankPressure <= o.postP.targetN2oPressure then Some(PostPressIdle) else None
    case _ => None
  }

  /** A group leaf's run: nothing while a global command is pending, else its condition. */
  function LeafRun(s: State, o: Object): Smf.Outcome<State> {
    if CmdGlobal(o.command) != 0 then Smf.Propagate
    else if LeafCondition(s, o).Some? then Smf.Transition(LeafCondition(s, o).value)
    else Smf.Propagate
  }

  /** The run column of `filling_states`; the group parents do nothing. */
  function Run(s: State, o: Object): Smf.Outcome<State> {
    match s
    case Root => RootRun(o)
    case Idle => IdleRun(o)
    case Abort => AbortRun(o)
    case SafePause => SafePauseRun(o)
    case FillingN2 => Smf.Propagate
    case PrePress => Smf.Propagate
    case FillingN2o => Smf.Propagate
    case PostPress => Smf.Propagate
    case _ => LeafRun(s, o)
  }

  /**
   * The entry column, as the valves each entry action leaves open after
   * clearing them all; None for a state without an entry action.
   */
  function EntryValves(s: State): Option<set<Valve>> {
    match s
    case Idle => Some({})
    case Abort => Some({AbortValve, Pressurizing})
    case SafePauseIdle => Some({})
    case SafePauseVent => Some({Vent})
    case FillingN2Idle => Some({})
    case FillingN2Fill => Some({N2Fill})
    case PrePressIdle => Some({})
    case PrePressFillN2 => Some({Pressurizing})
    case PrePressVent => Some({Vent})
    case FillingN2oIdle => Some({})
    case FillingN2oFill => Some({N2oFill})
    case FillingN2oVent => Some({N2oFill, Vent})
    case PostPressIdle => Some({})
    case PostPressFillN2 => Some({N2Fill})
    case PostPressVent => Some({Vent})
    case _ => None
  }

  function Entry(s: State, o: Object): Object {
    if EntryValves(s).Some? then o.(valves := EntryValves(s).value) else o
  }

  /** Exit actions only log. */
  function Exit(s: State, o: Object): Object {
    o
  }

  function Parent(s: State): Option<State> {
    match s
    case Root => None
    case Idle | Abort | SafePause | FillingN2 | PrePress | FillingN2o | PostPress => Some(Root)
    case SafePauseIdle | SafePauseVent => Some(SafePause)
    case FillingN2Idle | FillingN2Fill => Some(FillingN2)
    case PrePressIdle | PrePressVent | PrePressFillN2 => Some(PrePress)
    case FillingN2oIdle | FillingN2oFill | FillingN2oVent => Some(FillingN2o)
    case PostPressIdle | PostPressVent | PostPressFillN2 => Some(PostPress)
  }

  function Initial(s: State): Option<State> {
    match s
    case Root => Some(Idle)
    case SafePause => Some(SafePauseIdle)
    case FillingN2 => Some(FillingN2Idle)
    case PrePress => Some(PrePressIdle)
    case FillingN2o => Some(FillingN2oIdle)
    case PostPress => Some(PostPressIdle)
    case _ => None
  }

  function Depth(s: State): nat {
    match s
    case Root => 0
    case Idle | Abort | SafePause | FillingN2 | PrePress | FillingN2o | PostPress => 1
    case _ => 2
  }

  function Height(s: State): nat {
    if Initial(s).Some? then 1 else 0
  }

  /** `filling_states`. */
  function Machine(): Smf.Chart<State, Object> {
    Smf.Chart(Parent, Initial, Depth, Height, Run, Entry, Exit)
  }

  /** Each state's entries in the table are consistent with its parent and initial child. */
  lemma TableConsistent(s: State)
    ensures Parent(s).Some? ==> Depth(Parent(s).value) < Depth(s)
    ensures Initial(s).Some? ==> Height(Initial(s).value) < Height(s) && Parent(Initial(s).value) == Some(s)
  {
  }

  lemma MachineWellFormed()
    ensures Smf.WellFormed(Machine())
  {
    var m := Machine();
    forall s ensures m.parent(s).Some? ==> m.depth(m.parent(s).value) < m.depth(s) {
      TableConsistent(s);
    }
    forall s ensures m.initial(s).Some? ==> m.height(m.initial(s).value) < m.height(s) {
      TableConsistent(s);
    }
    forall s ensures m.initial(s).Some? ==> m.parent(m.initial(s).value) == Some(s) {
      TableConsistent(s);
    }
  }

  /** A state without an initial child: the only kind a step settles in. */
  predicate IsLeaf(s: State) {
    Initial(s).None?
  }

  /** A state whose parent is a group parent other than ROOT. */
  predicate InGroup(s: State) {
    Parent(s).Some? && Parent(s).value != Root
  }

  /** Where a transition to `t` settles. */
  function Settle(t: State): State {
    if Initial(t).Some? then Initial(t).value else t
  }

  /** The entry actions a transition to `t` runs: `t`'s own, then its initial child's. */
  function Enter(t: State, o: Object): Object {
    if Initial(t).Some? then Entry(Initial(t).value, Entry(t, o)) else Entry(t, o)
  }

  /** Exactly the states a step can settle in have an entry action. */
  lemma EntryActionsOnLeavesOnly(s: State)
    ensures EntryValves(s).Some? <==> IsLeaf(s)
  {
  }

  /** The path of a state directly below ROOT. */
  lemma TopPath(t: State)
    requires Parent(t) == Some(Root)
    ensures Smf.WellFormed(Machine()) && Smf.Path(Machine(), t) == [Root, t]
  {
    MachineWellFormed();
  }

  /** The path of a leaf inside a group. */
  lemma GroupPath(t: State)
    requires InGroup(t)
    ensures Smf.WellFormed(Machine()) && Smf.Path(Machine(), t) == [Root, Parent(t).value, t]
  {
    TopPath(Parent(t).value);
  }

  /** The proper ancestors of a state are ROOT and at most one group parent. */
  lemma AncestorsAreParents(t: State)
    ensures Smf.WellFormed(Machine())
    ensures forall s :: s in Smf.Path(Machine(), t) && s != t ==> !IsLeaf(s)
  {
    assert !IsLeaf(Root);
    if InGroup(t) {
      GroupParentIsNoLeaf(t);
      GroupPath(t);
    } else if Parent(t).Some? {
      TopPath(t);
    } else {
      MachineWellFormed();
    }
  }

  /** A group parent has an initial child. */
  lemma GroupParentIsNoLeaf(t: State)
    requires InGroup(t)
    ensures !IsLeaf(Parent(t).value)
  {
  }

  /** The ancestors of a state have no entry action. */
  lemma AncestorsHaveNoEntry(t: State)
    ensures Smf.WellFormed(Machine())
    ensures forall s, x :: s in Smf.Path(Machine(), t) && s != t ==> Entry(s, x) == x
  {
    AncestorsAreParents(t);
    forall s, x | s in Smf.Path(Machine(), t) && s != t
      ensures Entry(s, x) == x
    {
      EntryActionsOnLeavesOnly(s);
    }
  }

  lemma Settles(t: State)
    ensures Smf.WellFormed(Machine()) && Smf.Leaf(Machine(), t) == Settle(t)
  {
    MachineWellFormed();
    if Initial(t).Some? {
      Smf.LeafOfParent(Machine(), t);
    } else {
      Smf.LeafOfLeaf(Machine(), t);
    }
  }

  /**
   * The shape of every step: a transition to `t` settles in `t`'s initial
   * child (or `t`) and changes the object only by the entry actions of those
   * two states; any other step changes nothing.
   */
  lemma StepShape(s: State, o: Object)
    ensures Smf.WellFormed(Machine())
    ensures Smf.Step(Machine(), s, o) ==
      match Smf.Dispatch(Machine(), s, o)
      case Transition(t) => (Settle(t), Enter(t, o))
      case _ => (s, o)
  {
    MachineWellFormed();
    var m := Machine();
    match Smf.Dispatch(m, s, o)
    case Transition(t) =>
      Settles(t);
      AncestorsHaveNoEntry(t);
      Smf.TransitEffect(m, s, t, o);
      if Initial(t).Some? {
        assert Smf.InitialChain(m, t) == [Initial(t).value];
        assert Smf.Apply(m.entry, [Initial(t).value], Entry(t, o)) == Enter(t, o);
      }
    case _ =>
  }

  /** A step whose run actions decide on a transition to `t`. */
  lemma StepTo(s: State, o: Object, t: State)
    requires Smf.WellFormed(Machine()) && Smf.Dispatch(Machine(), s, o) == Smf.Transition(t)
    ensures Smf.Step(Machine(), s, o) == (Settle(t), Enter(t, o))
  {
    StepShape(s, o);
  }

  /** A step whose run actions decide on no transition. */
  lemma StepStays(s: State, o: Object)
    requires Smf.WellFormed(Machine()) && !Smf.Dispatch(Machine(), s, o).Transition?
    ensures Smf.Step(Machine(), s, o) == (s, o)
  {
    StepShape(s, o);
  }

  /** Entering `t` leaves open exactly the valves of the leaf it settles in, and changes nothing else. */
  lemma EnterSetsLeafValves(t: State, o: Object)
    ensures IsLeaf(Settle(t)) && EntryValves(Settle(t)).Some?
    ensures Enter(t, o) == o.(valves := EntryValves(Settle(t)).value)
  {
  }

  /**
   * The open valves always match the state: if they match before a step
   * they match after it, and a step changes nothing but the valves.
   */
  lemma ValvesFollowState(s: State, o: Object)
    requires IsLeaf(s) && EntryValves(s) == Some(o.valves)
    ensures Smf.WellFormed(Machine())
    ensures IsLeaf(Smf.Step(Machine(), s, o).0)
    ensures EntryValves(Smf.Step(Machine(), s, o).0) == Some(Smf.Step(Machine(), s, o).1.valves)
    ensures Smf.Step(Machine(), s, o).1 == o.(valves := Smf.Step(Machine(), s, o).1.valves)
  {
    MachineWellFormed();
    match Smf.Dispatch(Machine(), s, o)
    case Transition(t) =>
      EnterSetsLeafValves(t, o);
      StepTo(s, o, t);
    case _ =>
      StepStays(s, o);
  }

  /** `filling_sm_init`: ROOT and IDLE are entered, so the machine is in IDLE with every valve closed. */
  method FillingSmInit(ctx: Smf.Context<State, Object>)
    requires ctx.chart == Machine()
    modifies ctx
    ensures ctx.current == Idle && ctx.obj == old(ctx.obj).(valves := {})
  {
    MachineWellFormed();
    var m := Machine();
    assert Smf.Path(m, Idle) + Smf.InitialChain(m, Idle) == [Root, Idle];
    assert Smf.Apply(m.entry, [Root, Idle], ctx.obj) == Entry(Idle, Smf.Apply(m.entry, [Root], ctx.obj));
    assert Smf.Apply(m.entry, [Root], ctx.obj) == ctx.obj;
    Smf.LeafOfLeaf(m, Idle);
    ctx.SetInitial(Idle);
  }

  /** A group leaf never looks at its condition while a global command is pending. */
  lemma LeafDefersToGlobal(s: State, o: Object)
    requires IsLeaf(s) && InGroup(s)
    ensures Run(s, o).Transition? ==> CmdGlobal(o.command) == 0
    ensures CmdGlobal(o.command) != 0 ==> Run(s, o).Propagate?
  {
  }

  /** A command whose idle and other bytes are empty reaches ROOT from every state a step can settle in. */
  lemma GlobalReachesRoot(s: State, o: Object)
    requires IsLeaf(s)
    requires CmdGlobal(o.command) != 0 && CmdIdle(o.command) == 0 && CmdOther(o.command) == 0
    ensures Smf.WellFormed(Machine()) && Smf.Dispatch(Machine(), s, o) == RootRun(o)
  {
    assert Run(s, o).Propagate? && Parent(s).Some?;
    var p := Parent(s).value;
    assert p != Root ==> Run(p, o).Propagate? && Parent(p) == Some(Root);
    MachineWellFormed();
    var m := Machine();
    Smf.DispatchParent(m, s, o);
    if p != Root {
      Smf.DispatchParent(m, p, o);
    }
    Smf.DispatchTop(m, Root, o);
  }

  /** A step that ROOT decides on a transition to `t`. */
  lemma RootDecides(s: State, o: Object, t: State)
    requires IsLeaf(s)
    requires CmdGlobal(o.command) != 0 && CmdIdle(o.command) == 0 && CmdOther(o.command) == 0
    requires RootRun(o) == Smf.Transition(t)
    ensures Smf.WellFormed(Machine()) && Smf.Step(Machine(), s, o) == (Settle(t), Enter(t, o))
  {
    GlobalReachesRoot(s, o);
    StepTo(s, o, t);
  }

  /**
   * From every state a step can settle in, a command that reads as STOP in
   * the global byte and has empty idle and other bytes ends in IDLE with every
   * valve closed.
   */
  lemma StopCommand(s: State, o: Object)
    requires IsLeaf(s)
    requires CmdGlobal(o.command) == CMD_STOP && CmdIdle(o.command) == 0 && CmdOther(o.command) == 0
    ensures Smf.WellFormed(Machine()) && Smf.Step(Machine(), s, o) == (Idle, o.(valves := {}))
  {
    assert Settle(Idle) == Idle && Enter(Idle, o) == o.(valves := {});
    RootDecides(s, o, Idle);
  }

  /** Likewise ABORT ends in ABORT with exactly the abort and pressurizing valves open. */
  lemma AbortCommand(s: State, o: Object)
    requires IsLeaf(s)
    requires CmdGlobal(o.command) == CMD_ABORT && CmdIdle(o.command) == 0 && CmdOther(o.command) == 0
    ensures Smf.WellFormed(Machine()) && Smf.Step(Machine(), s, o) == (Abort, o.(valves := {AbortValve, Pressurizing}))
  {
    assert Settle(Abort) == Abort && Enter(Abort, o) == o.(valves := {AbortValve, Pressurizing});
    RootDecides(s, o, Abort);
  }

  /** Likewise PAUSE ends in SAFE_PAUSE's initial child SAFE_PAUSE_IDLE with every valve closed. */
  lemma PauseCommand(s: State, o: Object)
    requires IsLeaf(s)
    requires CmdGlobal(o.command) == CMD_PAUSE && CmdIdle(o.command) == 0 && CmdOther(o.command) == 0
    ensures Smf.WellFormed(Machine()) && Smf.Step(Machine(), s, o) == (SafePauseIdle, o.(valves := {}))
  {
    assert Settle(SafePause) == SafePauseIdle && Enter(SafePause, o) == o.(valves := {});
    RootDecides(s, o, SafePause);
  }

  /**
   * Any command whose idle byte reads as FILL_COPV takes IDLE into FILLING_N2
   * and its initial child FILLING_N2_IDLE, with every valve closed. By
   * `IdleCommandsCollapse` that is every idle command.
   */
  lemma IdleCommandsAllFillN2(o: Object)
    requires CmdIdle(o.command) == CMD_FILL_COPV
    ensures Smf.WellFormed(Machine()) && Smf.Step(Machine(), Idle, o) == (FillingN2Idle, o.(valves := {}))
  {
    MachineWellFormed();
    var m := Machine();
    assert IdleRun(o) == Smf.Transition(FillingN2);
    assert m.run(Idle, o) == Smf.Transition(FillingN2);
    assert Settle(FillingN2) == FillingN2Idle;
    assert Enter(FillingN2, o) == o.(valves := {});
    Smf.DispatchOwn(m, Idle, o);
    StepTo(Idle, o, FillingN2);
  }

  /** An unknown idle byte is marked handled by IDLE, so ROOT never sees the command. */
  lemma IdleUnknownHandled(o: Object)
    requires CmdIdle(o.command) !in {0, CMD_FILL_COPV}
    ensures Smf.WellFormed(Machine()) && Smf.Step(Machine(), Idle, o) == (Idle, o)
  {
    MachineWellFormed();
    IdleCasesAfterFirstUnreachable(o.command);
    assert IdleRun(o) == Smf.Handled;
    Smf.DispatchOwn(Machine(), Idle, o);
    StepStays(Idle, o);
  }

  /**
   * In ABORT, a command whose other byte reads as READY goes to IDLE and
   * closes every valve; RESUME is such a command (`ResumeCollapses`), so
   * ABORT's RESUME case is never reached.
   */
  lemma AbortReady(o: Object)
    requires CmdOther(o.command) == CMD_READY
    ensures Smf.WellFormed(Machine()) && Smf.Step(Machine(), Abort, o) == (Idle, o.(valves := {}))
  {
    MachineWellFormed();
    assert AbortRun(o) == Smf.Transition(Idle);
    assert Settle(Idle) == Idle && Enter(Idle, o) == o.(valves := {});
    Smf.DispatchOwn(Machine(), Abort, o);
    StepTo(Abort, o, Idle);
  }

  /** Any other non-empty other byte is marked handled in ABORT and changes nothing. */
  lemma AbortUnknownHandled(o: Object)
    requires CmdOther(o.command) !in {0, CMD_READY}
    ensures Smf.WellFormed(Machine()) && Smf.Step(Machine(), Abort, o) == (Abort, o)
  {
    MachineWellFormed();
    OtherResumeCaseUnreachable(o.command);
    assert AbortRun(o) == Smf.Handled;
    Smf.DispatchOwn(Machine(), Abort, o);
    StepStays(Abort, o);
  }

  /**
   * In the SAFE_PAUSE group, a command whose other byte reads as READY and
   * whose global byte reads as STOP, as RESUME does, ends in IDLE with every
   * valve closed: SAFE_PAUSE lets READY through and ROOT acts on STOP.
   */
  lemma SafePauseResume(s: State, o: Object)
    requires s in {SafePauseIdle, SafePauseVent}
    requires CmdOther(o.command) == CMD_READY && CmdGlobal(o.command) == CMD_STOP
    ensures Smf.WellFormed(Machine()) && Smf.Step(Machine(), s, o) == (Idle, o.(valves := {}))
  {
    MachineWellFormed();
    var m := Machine();
    assert Run(s, o).Propagate? && SafePauseRun(o).Propagate?;
    assert RootRun(o) == Smf.Transition(Idle);
    assert Settle(Idle) == Idle && Enter(Idle, o) == o.(valves := {});
    Smf.DispatchParent(m, s, o);
    Smf.DispatchParent(m, SafePause, o);
    StepTo(s, o, Idle);
  }

  /** A leaf's condition only ever names a sibling leaf. */
  lemma LeafConditionStaysInGroup(s: State, o: Object)
    requires LeafCondition(s, o).Some?
    ensures Parent(LeafCondition(s, o).value) == Parent(s) && IsLeaf(LeafCondition(s, o).value)
  {
  }

  /**
   * With no global byte pending, a group leaf moves exactly where its own
   * condition asks, opening that leaf's valves, and stays put otherwise.
   */
  lemma LeafStep(s: State, o: Object)
    requires IsLeaf(s) && InGroup(s)
    requires CmdGlobal(o.command) == 0
    ensures Smf.WellFormed(Machine())
    ensures Smf.Step(Machine(), s, o) ==
      if LeafCondition(s, o).Some? then (LeafCondition(s, o).value, Entry(LeafCondition(s, o).value, o))
      else (s, o)
  {
    if LeafCondition(s, o).Some? {
      LeafMoves(s, o, LeafCondition(s, o).value);
    } else {
      LeafWaits(s, o);
    }
  }

  lemma LeafMoves(s: State, o: Object, t: State)
    requires IsLeaf(s) && InGroup(s) && CmdGlobal(o.command) == 0 && LeafCondition(s, o) == Some(t)
    ensures Smf.WellFormed(Machine()) && Smf.Step(Machine(), s, o) == (t, Entry(t, o))
  {
    assert Run(s, o) == Smf.Transition(t);
    LeafConditionStaysInGroup(s, o);
    assert Settle(t) == t && Enter(t, o) == Entry(t, o);
    MachineWellFormed();
    Smf.DispatchOwn(Machine(), s, o);
    StepTo(s, o, t);
  }

  lemma LeafWaits(s: State, o: Object)
    requires IsLeaf(s) && InGroup(s) && CmdGlobal(o.command) == 0 && LeafCondition(s, o).None?
    ensures Smf.WellFormed(Machine()) && Smf.Step(Machine(), s, o) == (s, o)
  {
    var p := Parent(s).value;
    assert Run(s, o).Propagate? && RootRun(o).Propagate? && Parent(p) == Some(Root);
    MachineWellFormed();
    var m := Machine();
    Smf.DispatchParent(m, s, o);
    if Run(p, o).Propagate? {
      Smf.DispatchParent(m, p, o);
      Smf.DispatchTop(m, Root, o);
    } else {
      Smf.DispatchOwn(m, p, o);
    }
    StepStays(s, o);
  }

  /** N2 hysteresis: fill at or below the target, stop at or above it. */
  lemma N2Hysteresis(o: Object)
    requires CmdGlobal(o.command) == 0
    ensures Smf.WellFormed(Machine())
    ensures Smf.Step(Machine(), FillingN2Idle, o).0 == (if o.n2TankPressure <= o.copvTargetN2Pressure then FillingN2Fill else FillingN2Idle)
    ensures Smf.Step(Machine(), FillingN2Fill, o).0 == (if o.n2TankPressure >= o.copvTargetN2Pressure then FillingN2Idle else FillingN2Fill)
  {
    LeafStep(FillingN2Idle, o);
    LeafStep(FillingN2Fill, o);
  }

  /** Pre-pressurizing idle: the vent check comes first and returns; only then the fill check. */
  lemma PrePressIdleOrder(o: Object)
    requires CmdGlobal(o.command) == 0
    ensures Smf.WellFormed(Machine())
    ensures Smf.Step(Machine(), PrePressIdle, o).0 ==
      if o.n2oTankPressure > o.preP.triggerN2oPressure then PrePressVent
      else if o.n2oTankPressure < o.preP.targetN2oPressure then PrePressFillN2
      else PrePressIdle
  {
    LeafStep(PrePressIdle, o);
    var c := LeafCondition(PrePressIdle, o);
    assert c == if o.n2oTankPressure > o.preP.triggerN2oPressure then Some(PrePressVent)
      else if o.n2oTankPressure < o.preP.targetN2oPressure then Some(PrePressFillN2)
      else None;
  }

  /** N2O venting opens the N2O fill and vent valves and nothing else. */
  lemma N2oVentOpensFillAndVent(o: Object)
    requires CmdGlobal(o.command) == 0
    requires o.n2oTankPressure >= o.fN2o.triggerPressure && o.n2oTankTemperature > o.fN2o.triggerTemperature
    ensures Smf.WellFormed(Machine())
    ensures Smf.Step(Machine(), FillingN2oFill, o) == (FillingN2oVent, o.(valves := {N2oFill, Vent}))
  {
    assert LeafCondition(FillingN2oFill, o) == Some(FillingN2oVent);
    assert Entry(FillingN2oVent, o) == o.(valves := {N2oFill, Vent});
    LeafStep(FillingN2oFill, o);
  }

  /** Sets the command word and runs one step. */
  method RunWithCommand(ctx: Smf.Context<State, Object>, cmd: Cmd)
    requires ctx.chart == Machine()
    modifies ctx
    ensures Smf.WellFormed(Machine()) && (ctx.current, ctx.obj) == Smf.Step(Machine(), old(ctx.current), old(ctx.obj).(command := cmd))
  {
    MachineWellFormed();
    ctx.obj := ctx.obj.(command := cmd);
    ctx.RunState();
  }

  /**
   * After initialisation the machine is in IDLE; PRE_PRESSURIZE (read as
   * FILL_COPV) takes it to FILLING_N2_IDLE, and ABORT then to ABORT with the
   * abort and pressurizing valves open.
   */
  method PrePressurizeThenAbort(o: Object) returns (afterInit: State, afterPrePress: State, afterAbort: State, valves: set<Valve>)
    ensures afterInit == Idle && afterPrePress == FillingN2Idle && afterAbort == Abort
    ensures valves == {AbortValve, Pressurizing}
  {
    MachineWellFormed();
    var ctx := new Smf.Context(Machine(), Idle, o);
    FillingSmInit(ctx);
    afterInit := ctx.current;
    IdleCommandsCollapse();
    IdleCommandsAllFillN2(ctx.obj.(command := CMD_PRE_PRESSURIZE));
    RunWithCommand(ctx, CMD_PRE_PRESSURIZE);
    afterPrePress := ctx.current;
    GlobalCommandsProject(CMD_ABORT);
    AbortCommand(FillingN2Idle, ctx.obj.(command := CMD_ABORT));
    RunWithCommand(ctx, CMD_ABORT);
    afterAbort := ctx.current;
    valves := ctx.obj.valves;
  }
}

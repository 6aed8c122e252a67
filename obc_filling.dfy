/**
 * The filling state machine of the second flight computer
 * (`invictus2/obc/src/filling_sm.c`). A ROOT state is the parent of IDLE,
 * ABORT, SAFE_PAUSE and the four filling groups and handles the global
 * commands. IDLE, ABORT and SAFE_PAUSE switch on their own command class
 * first and only let the command through to ROOT when that class is empty;
 * the group leaves skip their own checks whenever the global byte is set.
 *
 * Only IDLE and ABORT have entry actions in the state table; the entry
 * functions written for the group leaves are not registered and never run.
 */
module ObcFilling {
  import opened Bytes
  import opened FillCommands
  import Smf

  datatype State =
    | Root | Idle | Abort | ManualOp
    | SafePause | SafePauseIdle | SafePauseVent
    | FillingCopv | FillingCopvIdle | FillingCopvFill
    | PrePressurizing | PrePressurizingIdle | PrePressurizingVent | PrePressurizingFillN
    | FillingN2o | FillingN2oIdle | FillingN2oFill | FillingN2oVent
    | PostPressurizing | PostPressurizingIdle | PostPressurizingVent | PostPressurizingFillN

  /**
   * The valves named by the entry actions. `TankTop` stands for
   * VALVE_TANK_TOP, which the valve enumeration does not declare.
   */
  datatype Valve =
    | N2oFill | N2oPurge | NFill | NPurge | N2oQuickDc | N2QuickDc
    | Pressurizing | Main | Vent | AbortValve | TankTop

  datatype SafePauseConfig = SafePauseConfig(targetPre: u16, triggerPre: u16)
  datatype PressurizingConfig = PressurizingConfig(targetMain: u16, triggerMain: u16)
  datatype N2oConfig = N2oConfig(targetMainWeight: u16, triggerMainPressure: u16, triggerMainTemp: u16)

  /**
   * `struct filling_sm_object` without the SMF context: the command, the
   * readings the run actions compare, the open valves and the configuration.
   */
  datatype Object = Object(
    command: Cmd,
    preTankPressure: u16, mainTankPressure: u16, mainTankWeight: u16, mainTankTemperature: u16,
    valves: set<Valve>,
    safePause: SafePauseConfig,
    copvTargetPre: u16,
    preP: PressurizingConfig,
    fN2o: N2oConfig,
    postP: PressurizingConfig)

  /** `root_run`: STOP, ABORT and PAUSE set a state; any other global byte only logs. */
  function RootRun(o: Object): Smf.Outcome<State> {
    var cmd := CmdGlobal(o.command);
    if cmd == 0 then Smf.Propagate
    else if cmd == CMD_STOP then Smf.Transition(Idle)
    else if cmd == CMD_ABORT then Smf.Transition(Abort)
    else if cmd == CMD_PAUSE then Smf.Transition(SafePause)
    else Smf.Propagate
  }

  /** `idle_run`: an empty idle byte goes on to ROOT; an unknown one is marked handled. */
  function IdleRun(o: Object): Smf.Outcome<State> {
    var cmd := CmdIdle(o.command);
    if cmd == 0 then Smf.Propagate
    else if cmd == CMD_FILL_COPV then Smf.Transition(FillingCopv)
    else if cmd == CMD_PRE_PRESSURIZE then Smf.Transition(PrePressurizing)
    else if cmd == CMD_FILL_N2O then Smf.Transition(FillingN2o)
    else if cmd == CMD_POST_PRESSURIZE then Smf.Transition(PostPressurizing)
    else Smf.Handled
  }

  /** `abort_run`: READY goes to IDLE, RESUME breaks out to ROOT, anything else is handled. */
  function AbortRun(o: Object): Smf.Outcome<State> {
    var cmd := CmdOther(o.command);
    if cmd == 0 then Smf.Propagate
    else if cmd == CMD_READY then Smf.Transition(Idle)
    else if cmd == CMD_RESUME then Smf.Propagate
    else Smf.Handled
  }

  /** `safe_pause_run`: READY breaks out to ROOT, RESUME goes to IDLE, anything else is handled. */
  function SafePauseRun(o: Object): Smf.Outcome<State> {
    var cmd := CmdOther(o.command);
    if cmd == 0 then Smf.Propagate
    else if cmd == CMD_READY then Smf.Propagate
    else if cmd == CMD_RESUME then Smf.Transition(Idle)
    else Smf.Handled
  }

  /** The condition each group leaf checks, as the state it asks for (None when it asks for none). */
  function LeafCondition(s: State, o: Object): Option<State> {
    match s
    case SafePauseIdle =>
      if o.preTankPressure > o.safePause.triggerPre then Some(SafePauseVent) else None
    case SafePauseVent =>
      if o.preTankPressure <= o.safePause.targetPre then Some(SafePauseIdle) else None
    case FillingCopvIdle =>
      if o.preTankPressure <= o.copvTargetPre then Some(FillingCopvFill) else None
    case FillingCopvFill =>
      if o.preTankPressure >= o.copvTargetPre then Some(FillingCopvIdle) else None
    case PrePressurizingIdle =>
      if o.preTankPressure > o.preP.triggerMain then Some(PrePressurizingVent)
      else if o.mainTankPressure < o.preP.targetMain then Some(PrePressurizingFillN)
      else None
    case PrePressurizingFillN =>
      if o.mainTankPressure >= o.preP.targetMain then Some(PrePressurizingIdle) else None
    case PrePressurizingVent =>
      if o.preTankPressure <= o.preP.targetMain then Some(PrePressurizingIdle) else None
    case FillingN2oIdle =>
      if o.mainTankWeight < o.fN2o.targetMainWeight then Some(FillingN2oFill) else None
    case FillingN2oFill =>
      if o.mainTankPressure >= o.fN2o.triggerMainPressure && o.mainTankTemperature > o.fN2o.triggerMainTemp then Some(FillingN2oVent)
      else if o.mainTankWeight >= o.fN2o.targetMainWeight then Some(FillingN2oIdle)
      else None
    case FillingN2oVent =>
      if o.mainTankPressure <= o.fN2o.targetMainWeight || o.mainTankTemperature <= o.fN2o.triggerMainTemp then Some(FillingN2oFill)
      else None
    case PostPressurizingIdle =>
      if o.preTankPressure > o.postP.triggerMain then Some(PostPressurizingVent)
      else if o.mainTankPressure < o.postP.targetMain then Some(PostPressurizingFillN)
      else None
    case PostPressurizingFillN =>
      if o.mainTankPressure >= o.postP.targetMain then Some(PostPressurizingIdle) else None
    case PostPressurizingVent =>
      if o.preTankPressure <= o.postP.targetMain then Some(PostPressurizingIdle) else None
    case _ => None
  }

  /** A group leaf's run: nothing while a global command is pending, else its condition. */
  function LeafRun(s: State, o: Object): Smf.Outcome<State> {
    if CmdGlobal(o.command) != 0 then Smf.Propagate
    else if LeafCondition(s, o).Some? then Smf.Transition(LeafCondition(s, o).value)
    else Smf.Propagate
  }

  /** The run column of `filling_states`; MANUAL_OP and the group parents do nothing. */
  function Run(s: State, o: Object): Smf.Outcome<State> {
    match s
    case Root => RootRun(o)
    case Idle => IdleRun(o)
    case Abort => AbortRun(o)
    case ManualOp => Smf.Propagate
    case SafePause => SafePauseRun(o)
    case FillingCopv => Smf.Propagate
    case PrePressurizing => Smf.Propagate
    case FillingN2o => Smf.Propagate
    case PostPressurizing => Smf.Propagate
    case _ => LeafRun(s, o)
  }

  /** The entry column: only IDLE and ABORT are registered. */
  function Entry(s: State, o: Object): Object {
    match s
    case Idle => o.(valves := {})
    case Abort => o.(valves := {AbortValve, TankTop})
    case _ => o
  }

  /** Exit actions only log. */
  function Exit(s: State, o: Object): Object {
    o
  }

  function Parent(s: State): Option<State> {
    match s
    case Root | ManualOp => None
    case Idle | Abort | SafePause | FillingCopv | PrePressurizing | FillingN2o | PostPressurizing => Some(Root)
    case SafePauseIdle | SafePauseVent => Some(SafePause)
    case FillingCopvIdle | FillingCopvFill => Some(FillingCopv)
    case PrePressurizingIdle | PrePressurizingVent | PrePressurizingFillN => Some(PrePressurizing)
    case FillingN2oIdle | FillingN2oFill | FillingN2oVent => Some(FillingN2o)
    case PostPressurizingIdle | PostPressurizingVent | PostPressurizingFillN => Some(PostPressurizing)
  }

  function Initial(s: State): Option<State> {
    match s
    case Root => Some(Idle)
    case SafePause => Some(SafePauseIdle)
    case FillingCopv => Some(FillingCopvIdle)
    case PrePressurizing => Some(PrePressurizingIdle)
    case FillingN2o => Some(FillingN2oIdle)
    case PostPressurizing => Some(PostPressurizingIdle)
    case _ => None
  }

  function Depth(s: State): nat {
    match s
    case Root | ManualOp => 0
    case Idle | Abort | SafePause | FillingCopv | PrePressurizing | FillingN2o | PostPressurizing => 1
    case _ => 2
  }

  function Height(s: State): nat {
    if Initial(s).Some? then 1 else 0
  }

  /** `filling_states`. */
  function Machine(): Smf.Chart<State, Object> {
    Smf.Chart(Parent, Initial, Depth, Height, Run, Entry, Exit)
  }

  /** Each state's entries in the table are consistent with its parent and initial child. */
  lemma TableConsistent(s: State)
    ensures Parent(s).Some? ==> Depth(Parent(s).value) < Depth(s)
    ensures Initial(s).Some? ==> Height(Initial(s).value) < Height(s) && Parent(Initial(s).value) == Some(s)
  {
  }

  lemma MachineWellFormed()
    ensures Smf.WellFormed(Machine())
  {
    var m := Machine();
    forall s ensures m.parent(s).Some? ==> m.depth(m.parent(s).value) < m.depth(s) {
      TableConsistent(s);
    }
    forall s ensures m.initial(s).Some? ==> m.height(m.initial(s).value) < m.height(s) {
      TableConsistent(s);
    }
    forall s ensures m.initial(s).Some? ==> m.parent(m.initial(s).value) == Some(s) {
      TableConsistent(s);
    }
  }

  /** A state without an initial child: the only kind a step settles in. */
  predicate IsLeaf(s: State) {
    Initial(s).None?
  }

  /** A state whose parent is a group parent other than ROOT. */
  predicate InGroup(s: State) {
    Parent(s).Some? && Parent(s).value != Root
  }

  /** Where a transition to `t` settles. */
  function Settle(t: State): State {
    if Initial(t).Some? then Initial(t).value else t
  }

  /** The entry actions a transition to `t` runs: `t`'s own, then its initial child's. */
  function Enter(t: State, o: Object): Object {
    if Initial(t).Some? then Entry(Initial(t).value, Entry(t, o)) else Entry(t, o)
  }

  /** The path of a state directly below ROOT. */
  lemma TopPath(t: State)
    requires Parent(t) == Some(Root)
    ensures Smf.WellFormed(Machine()) && Smf.Path(Machine(), t) == [Root, t]
  {
    MachineWellFormed();
  }

  /** The path of a leaf inside a group. */
  lemma GroupPath(t: State)
    requires InGroup(t)
    ensures Smf.WellFormed(Machine()) && Smf.Path(Machine(), t) == [Root, Parent(t).value, t]
  {
    TopPath(Parent(t).value);
  }

  /** The proper ancestors of a state are ROOT and at most one group parent. */
  lemma AncestorsAreParents(t: State)
    ensures Smf.WellFormed(Machine())
    ensures forall s :: s in Smf.Path(Machine(), t) && s != t ==> !IsLeaf(s)
  {
    assert !IsLeaf(Root);
    if InGroup(t) {
      GroupParentIsNoLeaf(t);
      GroupPath(t);
    } else if Parent(t).Some? {
      TopPath(t);
    } else {
      MachineWellFormed();
    }
  }

  /** A group parent has an initial child. */
  lemma GroupParentIsNoLeaf(t: State)
    requires InGroup(t)
    ensures !IsLeaf(Parent(t).value)
  {
  }

  /** The ancestors of a state have no entry action. */
  lemma AncestorsHaveNoEntry(t: State)
    ensures Smf.WellFormed(Machine())
    ensures forall s, x :: s in Smf.Path(Machine(), t) && s != t ==> Entry(s, x) == x
  {
    AncestorsAreParents(t);
  }

  /**
   * The shape of every step: a transition to `t` settles in `t`'s initial
   * child (or `t`) and changes the object only by the entry actions of those
   * two states, so only entering IDLE (all valves closed) or ABORT (the abort
   * and tank-top valves open) changes the valves; any other step changes
   * nothing.
   */
  lemma StepShape(s: State, o: Object)
    ensures Smf.WellFormed(Machine())
    ensures Smf.Step(Machine(), s, o) ==
      match Smf.Dispatch(Machine(), s, o)
      case Transition(t) => (Settle(t), Enter(t, o))
      case _ => (s, o)
  {
    MachineWellFormed();
    var m := Machine();
    match Smf.Dispatch(m, s, o)
    case Transition(t) =>
      Settles(t);
      AncestorsHaveNoEntry(t);
      Smf.TransitEffect(m, s, t, o);
      if Initial(t).Some? {
        assert Smf.InitialChain(m, t) == [Initial(t).value];
        assert Smf.Apply(m.entry, [Initial(t).value], Entry(t, o)) == Enter(t, o);
      }
    case _ =>
  }

  lemma Settles(t: State)
    ensures Smf.WellFormed(Machine()) && Smf.Leaf(Machine(), t) == Settle(t)
  {
    MachineWellFormed();
    if Initial(t).Some? {
      Smf.LeafOfParent(Machine(), t);
    } else {
      Smf.LeafOfLeaf(Machine(), t);
    }
  }

  /** `filling_sm_init`: ROOT and IDLE are entered, so the machine is in IDLE with every valve closed. */
  method FillingSmInit(ctx: Smf.Context<State, Object>)
    requires ctx.chart == Machine()
    modifies ctx
    ensures ctx.current == Idle && ctx.obj == old(ctx.obj).(valves := {})
  {
    MachineWellFormed();
    var m := Machine();
    assert Smf.Path(m, Idle) + Smf.InitialChain(m, Idle) == [Root, Idle];
    assert Smf.Apply(m.entry, [Root, Idle], ctx.obj) == Entry(Idle, Smf.Apply(m.entry, [Root], ctx.obj));
    assert Smf.Apply(m.entry, [Root], ctx.obj) == ctx.obj;
    Smf.LeafOfLeaf(m, Idle);
    ctx.SetInitial(Idle);
  }

  /** A group leaf never looks at its condition while a global command is pending. */
  lemma LeafDefersToGlobal(s: State, o: Object)
    requires IsLeaf(s) && InGroup(s)
    ensures Run(s, o).Transition? ==> CmdGlobal(o.command) == 0
    ensures CmdGlobal(o.command) != 0 ==> Run(s, o).Propagate?
  {
  }

  /**
   * A command whose idle and other bytes are empty reaches ROOT from every
   * state a step can settle in, except MANUAL_OP.
   */
  lemma GlobalReachesRoot(s: State, o: Object)
    requires IsLeaf(s) && s != ManualOp
    requires CmdGlobal(o.command) != 0 && CmdIdle(o.command) == 0 && CmdOther(o.command) == 0
    ensures Smf.WellFormed(Machine()) && Smf.Dispatch(Machine(), s, o) == RootRun(o)
  {
    assert Run(s, o).Propagate? && Parent(s).Some?;
    var p := Parent(s).value;
    assert p != Root ==> Run(p, o).Propagate? && Parent(p) == Some(Root);
    MachineWellFormed();
    var m := Machine();
    Smf.DispatchParent(m, s, o);
    if p != Root {
      Smf.DispatchParent(m, p, o);
    }
    Smf.DispatchTop(m, Root, o);
  }

  /** A step whose run actions decide on a transition to `t`. */
  lemma StepTo(s: State, o: Object, t: State)
    requires Smf.WellFormed(Machine()) && Smf.Dispatch(Machine(), s, o) == Smf.Transition(t)
    ensures Smf.Step(Machine(), s, o) == (Settle(t), Enter(t, o))
  {
    StepShape(s, o);
  }

  /** A step whose run actions decide on no transition. */
  lemma StepStays(s: State, o: Object)
    requires Smf.WellFormed(Machine()) && !Smf.Dispatch(Machine(), s, o).Transition?
    ensures Smf.Step(Machine(), s, o) == (s, o)
  {
    StepShape(s, o);
  }

  /** A step that ROOT decides on a transition to `t`. */
  lemma RootDecides(s: State, o: Object, t: State)
    requires IsLeaf(s) && s != ManualOp
    requires CmdGlobal(o.command) != 0 && CmdIdle(o.command) == 0 && CmdOther(o.command) == 0
    requires RootRun(o) == Smf.Transition(t)
    ensures Smf.WellFormed(Machine()) && Smf.Step(Machine(), s, o) == (Settle(t), Enter(t, o))
  {
    GlobalReachesRoot(s, o);
    StepTo(s, o, t);
  }

  /**
   * From every state a step can settle in (MANUAL_OP apart), a command that
   * reads as STOP in the global byte and has empty idle and other bytes (as
   * CMD_STOP itself does) ends in IDLE with every valve closed.
   */
  lemma StopCommand(s: State, o: Object)
    requires IsLeaf(s) && s != ManualOp
    requires CmdGlobal(o.command) == CMD_STOP && CmdIdle(o.command) == 0 && CmdOther(o.command) == 0
    ensures Smf.WellFormed(Machine()) && Smf.Step(Machine(), s, o) == (Idle, o.(valves := {}))
  {
    assert Settle(Idle) == Idle && Enter(Idle, o) == o.(valves := {});
    RootDecides(s, o, Idle);
  }

  /** Likewise ABORT ends in ABORT with exactly the abort and tank-top valves open. */
  lemma AbortCommand(s: State, o: Object)
    requires IsLeaf(s) && s != ManualOp
    requires CmdGlobal(o.command) == CMD_ABORT && CmdIdle(o.command) == 0 && CmdOther(o.command) == 0
    ensures Smf.WellFormed(Machine()) && Smf.Step(Machine(), s, o) == (Abort, o.(valves := {AbortValve, TankTop}))
  {
    assert Settle(Abort) == Abort && Enter(Abort, o) == o.(valves := {AbortValve, TankTop});
    RootDecides(s, o, Abort);
  }

  /** Likewise PAUSE ends in SAFE_PAUSE_IDLE with the valves as they were. */
  lemma PauseCommand(s: State, o: Object)
    requires IsLeaf(s) && s != ManualOp
    requires CmdGlobal(o.command) == CMD_PAUSE && CmdIdle(o.command) == 0 && CmdOther(o.command) == 0
    ensures Smf.WellFormed(Machine()) && Smf.Step(Machine(), s, o) == (SafePauseIdle, o)
  {
    assert Settle(SafePause) == SafePauseIdle && Enter(SafePause, o) == o;
    RootDecides(s, o, SafePause);
  }

  /** A global byte other than STOP, ABORT and PAUSE, alone in the command, changes nothing. */
  lemma UnknownGlobalIgnored(s: State, o: Object)
    requires IsLeaf(s) && s != ManualOp
    requires CmdGlobal(o.command) !in {0, CMD_STOP, CMD_ABORT, CMD_PAUSE}
    requires CmdIdle(o.command) == 0 && CmdOther(o.command) == 0
    ensures Smf.WellFormed(Machine()) && Smf.Step(Machine(), s, o) == (s, o)
  {
    GlobalReachesRoot(s, o);
    StepStays(s, o);
  }

  /**
   * Any command whose idle byte reads as FILL_COPV takes IDLE to
   * FILLING_COPV_IDLE, whatever its global byte: IDLE's switch runs before
   * ROOT sees the low byte. By `IdleCommandsCollapse` that is every idle
   * command, not only FILL_COPV. The valves are left as they were.
   */
  lemma IdleCommandsAllFillCopv(o: Object)
    requires CmdIdle(o.command) == CMD_FILL_COPV
    ensures Smf.WellFormed(Machine()) && Smf.Step(Machine(), Idle, o) == (FillingCopvIdle, o)
  {
    MachineWellFormed();
    var m := Machine();
    assert IdleRun(o) == Smf.Transition(FillingCopv);
    assert m.run(Idle, o) == Smf.Transition(FillingCopv);
    assert Settle(FillingCopv) == FillingCopvIdle;
    assert Enter(FillingCopv, o) == o;
    Smf.DispatchOwn(m, Idle, o);
    StepTo(Idle, o, FillingCopv);
  }

  /**
   * An unknown idle byte is marked handled by IDLE, so ROOT never sees the
   * command, whatever its global byte says.
   */
  lemma IdleUnknownHandled(o: Object)
    requires CmdIdle(o.command) !in {0, CMD_FILL_COPV}
    ensures Smf.WellFormed(Machine()) && Smf.Step(Machine(), Idle, o) == (Idle, o)
  {
    MachineWellFormed();
    IdleCasesAfterFirstUnreachable(o.command);
    assert IdleRun(o) == Smf.Handled;
    Smf.DispatchOwn(Machine(), Idle, o);
    StepStays(Idle, o);
  }

  /**
   * In ABORT, a command whose other byte reads as READY goes to IDLE and
   * closes every valve. By `ResumeCollapses` RESUME is such a command, so it
   * does the same, and ABORT's RESUME case is never reached.
   */
  lemma AbortReady(o: Object)
    requires CmdOther(o.command) == CMD_READY
    ensures Smf.WellFormed(Machine()) && Smf.Step(Machine(), Abort, o) == (Idle, o.(valves := {}))
  {
    MachineWellFormed();
    assert AbortRun(o) == Smf.Transition(Idle);
    assert Settle(Idle) == Idle && Enter(Idle, o) == o.(valves := {});
    Smf.DispatchOwn(Machine(), Abort, o);
    StepTo(Abort, o, Idle);
  }

  /**
   * Any other non-empty other byte is marked handled in ABORT and changes
   * nothing, even when the global byte asks for STOP.
   */
  lemma AbortUnknownHandled(o: Object)
    requires CmdOther(o.command) !in {0, CMD_READY}
    ensures Smf.WellFormed(Machine()) && Smf.Step(Machine(), Abort, o) == (Abort, o)
  {
    MachineWellFormed();
    OtherResumeCaseUnreachable(o.command);
    assert AbortRun(o) == Smf.Handled;
    Smf.DispatchOwn(Machine(), Abort, o);
    StepStays(Abort, o);
  }

  /**
   * In the SAFE_PAUSE group, a command whose other byte reads as READY and
   * whose global byte reads as STOP ends in IDLE with every valve closed:
   * SAFE_PAUSE lets READY through and ROOT acts on STOP. RESUME is such a
   * command (`ResumeCollapses`); SAFE_PAUSE's own RESUME case is never reached.
   */
  lemma SafePauseResume(s: State, o: Object)
    requires s in {SafePauseIdle, SafePauseVent}
    requires CmdOther(o.command) == CMD_READY && CmdGlobal(o.command) == CMD_STOP
    ensures Smf.WellFormed(Machine()) && Smf.Step(Machine(), s, o) == (Idle, o.(valves := {}))
  {
    MachineWellFormed();
    var m := Machine();
    assert Run(s, o).Propagate? && SafePauseRun(o).Propagate?;
    assert RootRun(o) == Smf.Transition(Idle);
    assert Settle(Idle) == Idle && Enter(Idle, o) == o.(valves := {});
    Smf.DispatchParent(m, s, o);
    Smf.DispatchParent(m, SafePause, o);
    StepTo(s, o, Idle);
  }

  /** READY alone changes nothing in the SAFE_PAUSE group unless the leaf's own condition fires. */
  lemma SafePauseReady(s: State, o: Object)
    requires s in {SafePauseIdle, SafePauseVent}
    requires CmdOther(o.command) == CMD_READY && CmdGlobal(o.command) == 0
    ensures Smf.WellFormed(Machine())
    ensures Smf.Step(Machine(), s, o) == (if LeafCondition(s, o).Some? then LeafCondition(s, o).value else s, o)
  {
    LeafStep(s, o);
  }

  /** A leaf's condition only ever names a sibling leaf. */
  lemma LeafConditionStaysInGroup(s: State, o: Object)
    requires LeafCondition(s, o).Some?
    ensures Parent(LeafCondition(s, o).value) == Parent(s) && IsLeaf(LeafCondition(s, o).value)
  {
  }

  /**
   * With no global byte pending, a group leaf moves exactly where its own
   * condition asks and stays put otherwise; the object is unchanged either way.
   */
  lemma LeafStep(s: State, o: Object)
    requires IsLeaf(s) && InGroup(s)
    requires CmdGlobal(o.command) == 0
    ensures Smf.WellFormed(Machine())
    ensures Smf.Step(Machine(), s, o) == (if LeafCondition(s, o).Some? then LeafCondition(s, o).value else s, o)
  {
    if LeafCondition(s, o).Some? {
      LeafMoves(s, o, LeafCondition(s, o).value);
    } else {
      LeafWaits(s, o);
    }
  }

  lemma LeafMoves(s: State, o: Object, t: State)
    requires IsLeaf(s) && InGroup(s) && CmdGlobal(o.command) == 0 && LeafCondition(s, o) == Some(t)
    ensures Smf.WellFormed(Machine()) && Smf.Step(Machine(), s, o) == (t, o)
  {
    assert Run(s, o) == Smf.Transition(t);
    LeafConditionStaysInGroup(s, o);
    assert Settle(t) == t && Enter(t, o) == o;
    MachineWellFormed();
    Smf.DispatchOwn(Machine(), s, o);
    StepTo(s, o, t);
  }

  lemma LeafWaits(s: State, o: Object)
    requires IsLeaf(s) && InGroup(s) && CmdGlobal(o.command) == 0 && LeafCondition(s, o).None?
    ensures Smf.WellFormed(Machine()) && Smf.Step(Machine(), s, o) == (s, o)
  {
    var p := Parent(s).value;
    assert Run(s, o).Propagate? && RootRun(o).Propagate? && Parent(p) == Some(Root);
    MachineWellFormed();
    var m := Machine();
    Smf.DispatchParent(m, s, o);
    if Run(p, o).Propagate? {
      Smf.DispatchParent(m, p, o);
      Smf.DispatchTop(m, Root, o);
    } else {
      Smf.DispatchOwn(m, p, o);
    }
    StepStays(s, o);
  }

  /** Pre-pressurizing idle: the pre-tank vent check comes first, then the main-tank fill check. */
  lemma PrePressurizingIdleOrder(o: Object)
    requires CmdGlobal(o.command) == 0
    ensures Smf.WellFormed(Machine())
    ensures Smf.Step(Machine(), PrePressurizingIdle, o).0 ==
      if o.preTankPressure > o.preP.triggerMain then PrePressurizingVent
      else if o.mainTankPressure < o.preP.targetMain then PrePressurizingFillN
      else PrePressurizingIdle
  {
    LeafStep(PrePressurizingIdle, o);
    var c := LeafCondition(PrePressurizingIdle, o);
    assert c == if o.preTankPressure > o.preP.triggerMain then Some(PrePressurizingVent)
      else if o.mainTankPressure < o.preP.targetMain then Some(PrePressurizingFillN)
      else None;
  }

  /** N2O filling: venting needs both high pressure and high temperature, else a heavy enough tank stops filling. */
  lemma N2oFillStep(o: Object)
    requires CmdGlobal(o.command) == 0
    ensures Smf.WellFormed(Machine())
    ensures Smf.Step(Machine(), FillingN2oFill, o).0 ==
      if o.mainTankPressure >= o.fN2o.triggerMainPressure && o.mainTankTemperature > o.fN2o.triggerMainTemp then FillingN2oVent
      else if o.mainTankWeight >= o.fN2o.targetMainWeight then FillingN2oIdle
      else FillingN2oFill
  {
    LeafStep(FillingN2oFill, o);
    var c := LeafCondition(FillingN2oFill, o);
    assert c == if o.mainTankPressure >= o.fN2o.triggerMainPressure && o.mainTankTemperature > o.fN2o.triggerMainTemp then Some(FillingN2oVent)
      else if o.mainTankWeight >= o.fN2o.targetMainWeight then Some(FillingN2oIdle)
      else None;
  }

  /**
   * N2O venting resumes filling when the main-tank pressure is at most the
   * configured target WEIGHT, or the temperature is at most its trigger: the
   * pressure reading is compared with the weight setting.
   */
  lemma N2oVentComparesPressureWithWeight(o: Object)
    requires CmdGlobal(o.command) == 0
    ensures Smf.WellFormed(Machine())
    ensures Smf.Step(Machine(), FillingN2oVent, o).0 ==
      if o.mainTankPressure <= o.fN2o.targetMainWeight || o.mainTankTemperature <= o.fN2o.triggerMainTemp then FillingN2oFill
      else FillingN2oVent
  {
    LeafStep(FillingN2oVent, o);
  }

  /** COPV filling alternates around one target: fill at or below it, stop at or above it. */
  lemma CopvHysteresis(o: Object)
    requires CmdGlobal(o.command) == 0
    ensures Smf.WellFormed(Machine())
    ensures Smf.Step(Machine(), FillingCopvIdle, o).0 == (if o.preTankPressure <= o.copvTargetPre then FillingCopvFill else FillingCopvIdle)
    ensures Smf.Step(Machine(), FillingCopvFill, o).0 == (if o.preTankPressure >= o.copvTargetPre then FillingCopvIdle else FillingCopvFill)
  {
    LeafStep(FillingCopvIdle, o);
    LeafStep(FillingCopvFill, o);
  }

  /** MANUAL_OP has no actions and no parent: no command ever leaves it. */
  lemma ManualOpIsInert(o: Object)
    ensures Smf.WellFormed(Machine()) && Smf.Step(Machine(), ManualOp, o) == (ManualOp, o)
  {
    MachineWellFormed();
    Smf.DispatchTop(Machine(), ManualOp, o);
    StepShape(ManualOp, o);
  }

  /** Sets the command word and runs one step, as the unit tests do. */
  method RunWithCommand(ctx: Smf.Context<State, Object>, cmd: Cmd)
    requires ctx.chart == Machine()
    modifies ctx
    ensures Smf.WellFormed(Machine()) && (ctx.current, ctx.obj) == Smf.Step(Machine(), old(ctx.current), old(ctx.obj).(command := cmd))
  {
    MachineWellFormed();
    ctx.obj := ctx.obj.(command := cmd);
    ctx.RunState();
  }

  /**
   * The unit test: after initialisation the machine is in IDLE, FILL_COPV
   * takes it to FILLING_COPV_IDLE and STOP brings it back to IDLE; every
   * valve is closed throughout.
   */
  method FillCopvThenStop(o: Object) returns (afterInit: State, afterFill: State, afterStop: State, valves: set<Valve>)
    ensures afterInit == Idle && afterFill == FillingCopvIdle && afterStop == Idle && valves == {}
  {
    MachineWellFormed();
    var ctx := new Smf.Context(Machine(), Idle, o);
    FillingSmInit(ctx);
    afterInit := ctx.current;
    IdleCommandsCollapse();
    IdleCommandsAllFillCopv(ctx.obj.(command := CMD_FILL_COPV));
    RunWithCommand(ctx, CMD_FILL_COPV);
    afterFill := ctx.current;
    GlobalCommandsProject(CMD_STOP);
    StopCommand(FillingCopvIdle, ctx.obj.(command := CMD_STOP));
    RunWithCommand(ctx, CMD_STOP);
    afterStop := ctx.current;
    valves := ctx.obj.valves;
  }
}

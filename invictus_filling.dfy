/**
 * The first filling state machine (`invictus/src/filling_sm.c`). There is no
 * common root state: IDLE, ABORT, MANUAL_OP and the four filling groups with
 * SAFE_PAUSE are top-level states, and every run action of IDLE, ABORT, the
 * SAFE_PAUSE group and the group leaves starts with the global command check
 * `transition_global`. Entry and exit actions only log, so the object is
 * never changed by the machine; the command word is never cleared by it
 * either.
 */
module InvictusFilling {
  import opened Bytes
  import opened FillCommands
  import Smf

  datatype State =
    | Idle | Abort | ManualOp
    | SafePause | SafePauseIdle | SafePauseVent
    | FillingCopv | FillingCopvIdle | FillingCopvFill
    | PrePressurizing | PrePressurizingIdle | PrePressurizingVent | PrePressurizingFillN
    | FillingN2o | FillingN2oIdle | FillingN2oFill | FillingN2oVent
    | PostPressurizing | PostPressurizingIdle | PostPressurizingVent | PostPressurizingFillN

  // The configuration groups of `struct filling_sm_object`.
  datatype SafePauseConfig = SafePauseConfig(targetNp: u16, triggerNp: u16)
  datatype PressurizingConfig = PressurizingConfig(targetN2op: u16, triggerN2op: u16)
  datatype N2oConfig = N2oConfig(targetN2op: u16, targetWeight: u16, triggerN2op: u16, triggerTemp: u16)

  /** `struct filling_sm_object` without the SMF context: the command, four readings and the configuration. */
  datatype Object = Object(
    command: Cmd,
    nPressure: u16, n2oPressure: u16, n2oWeight: u16, temperature: u16,
    spConfig: SafePauseConfig,
    copvTargetNp: u16,
    prePConfig: PressurizingConfig,
    fN2oConfig: N2oConfig,
    postPConfig: PressurizingConfig)

  /**
   * `transition_global`: None when the low byte of the command is zero;
   * otherwise the decision the caller returns with, which is a transition for
   * STOP, ABORT and PAUSE and no transition for any other non-zero byte.
   */
  function TransitionGlobal(o: Object): (r: Option<Smf.Outcome<State>>)
    ensures r.None? <==> CmdGlobal(o.command) == 0
    ensures r.Some? && r.value.Transition? <==> CmdGlobal(o.command) in {CMD_STOP, CMD_ABORT, CMD_PAUSE}
  {
    var cmd := CmdGlobal(o.command);
    if cmd == 0 then None
    else if cmd == CMD_STOP then Some(Smf.Transition(Idle))
    else if cmd == CMD_ABORT then Some(Smf.Transition(Abort))
    else if cmd == CMD_PAUSE then Some(Smf.Transition(SafePause))
    else Some(Smf.Propagate)
  }

  /** `idle_run`: the idle commands, switched on CMD_IDLE of the command. */
  function IdleRun(o: Object): Smf.Outcome<State> {
    if TransitionGlobal(o).Some? then TransitionGlobal(o).value
    else
      var cmd := CmdIdle(o.command);
      if cmd == CMD_FILL_COPV then Smf.Transition(FillingCopv)
      else if cmd == CMD_PRE_PRESSURIZE then Smf.Transition(PrePressurizing)
      else if cmd == CMD_FILL_N2O then Smf.Transition(FillingN2o)
      else if cmd == CMD_POST_PRESSURIZE then Smf.Transition(PostPressurizing)
      else Smf.Propagate
  }

  /** `abort_run`: READY goes to IDLE; RESUME is logged and changes nothing. */
  function AbortRun(o: Object): Smf.Outcome<State> {
    if TransitionGlobal(o).Some? then TransitionGlobal(o).value
    else if CmdOther(o.command) == CMD_READY then Smf.Transition(Idle)
    else Smf.Propagate
  }

  /** `safe_pause_run`: RESUME goes to IDLE; READY is logged and changes nothing. */
  function SafePauseRun(o: Object): Smf.Outcome<State> {
    if TransitionGlobal(o).Some? then TransitionGlobal(o).value
    else if CmdOther(o.command) == CMD_RESUME then Smf.Transition(Idle)
    else Smf.Propagate
  }

  /**
   * A leaf run: the global check first, then the leaf's own condition, given
   * here as the transition it asks for (None when it asks for none).
   */
  function LeafRun(o: Object, own: Option<State>): Smf.Outcome<State> {
    if TransitionGlobal(o).Some? then TransitionGlobal(o).value
    else if own.Some? then Smf.Transition(own.value)
    else Smf.Propagate
  }

  /** The condition each leaf run checks once the command's low byte is zero. */
  function LeafCondition(s: State, o: Object): Option<State> {
    match s
    case SafePauseIdle =>
      if o.nPressure > o.spConfig.triggerNp then Some(SafePauseVent) else None
    case SafePauseVent =>
      if o.nPressure <= o.spConfig.targetNp then Some(SafePauseIdle) else None
    case FillingCopvIdle =>
      if o.nPressure <= o.copvTargetNp then Some(FillingCopvFill) else None
    case FillingCopvFill =>
      if o.nPressure >= o.copvTargetNp then Some(FillingCopvIdle) else None
    case PrePressurizingIdle =>
      if o.nPressure > o.prePConfig.triggerN2op then Some(PrePressurizingVent)
      else if o.n2oPressure < o.prePConfig.targetN2op then Some(PrePressurizingFillN)
      else None
    case PrePressurizingFillN =>
      if o.n2oPressure >= o.prePConfig.targetN2op then Some(PrePressurizingIdle) else None
    case PrePressurizingVent =>
      if o.nPressure <= o.prePConfig.targetN2op then Some(PrePressurizingIdle) else None
    case FillingN2oIdle =>
      if o.n2oWeight < o.fN2oConfig.targetWeight then Some(FillingN2oFill) else None
    case FillingN2oFill =>
      if o.n2oPressure >= o.fN2oConfig.triggerN2op && o.temperature > o.fN2oConfig.triggerTemp then Some(FillingN2oVent)
      else if o.n2oWeight >= o.fN2oConfig.targetWeight then Some(FillingN2oIdle)
      else None
    case FillingN2oVent =>
      if o.n2oPressure <= o.fN2oConfig.targetN2op || o.temperature <= o.fN2oConfig.triggerTemp then Some(FillingN2oFill)
      else None
    case PostPressurizingIdle =>
      if o.nPressure > o.postPConfig.triggerN2op then Some(PostPressurizingVent)
      else if o.n2oPressure < o.postPConfig.targetN2op then Some(PostPressurizingFillN)
      else None
    case PostPressurizingFillN =>
      if o.n2oPressure >= o.postPConfig.targetN2op then Some(PostPressurizingIdle) else None
    case PostPressurizingVent =>
      if o.nPressure <= o.postPConfig.targetN2op then Some(PostPressurizingIdle) else None
    case _ => None
  }

  /** The run column of `filling_states`; MANUAL_OP and the group parents do nothing. */
  function Run(s: State, o: Object): Smf.Outcome<State> {
    match s
    case Idle => IdleRun(o)
    case Abort => AbortRun(o)
    case ManualOp => Smf.Propagate
    case SafePause => SafePauseRun(o)
    case FillingCopv => Smf.Propagate
    case PrePressurizing => Smf.Propagate
    case FillingN2o => Smf.Propagate
    case PostPressurizing => Smf.Propagate
    case _ => LeafRun(o, LeafCondition(s, o))
  }

  /** The parent column of `filling_states`. */
  function Parent(s: State): Option<State> {
    match s
    case SafePauseIdle | SafePauseVent => Some(SafePause)
    case FillingCopvIdle | FillingCopvFill => Some(FillingCopv)
    case PrePressurizingIdle | PrePressurizingVent | PrePressurizingFillN => Some(PrePressurizing)
    case FillingN2oIdle | FillingN2oFill | FillingN2oVent => Some(FillingN2o)
    case PostPressurizingIdle | PostPressurizingVent | PostPressurizingFillN => Some(PostPressurizing)
    case _ => None
  }

  /** The initial-child column of `filling_states`. */
  function Initial(s: State): Option<State> {
    match s
    case SafePause => Some(SafePauseIdle)
    case FillingCopv => Some(FillingCopvIdle)
    case PrePressurizing => Some(PrePressurizingIdle)
    case FillingN2o => Some(FillingN2oIdle)
    case PostPressurizing => Some(PostPressurizingIdle)
    case _ => None
  }

  function Depth(s: State): nat {
    if Parent(s).Some? then 1 else 0
  }

  function Height(s: State): nat {
    if Initial(s).Some? then 1 else 0
  }

  /** Entry and exit actions only log. */
  function NoAction(s: State, o: Object): Object {
    o
  }

  /** `filling_states`. */
  function Machine(): Smf.Chart<State, Object> {
    Smf.Chart(Parent, Initial, Depth, Height, Run, NoAction, NoAction)
  }

  /** Each state's entries in the table are consistent with its parent and initial child. */
  lemma TableConsistent(s: State)
    ensures Parent(s).Some? ==> Depth(Parent(s).value) < Depth(s)
    ensures Initial(s).Some? ==> Height(Initial(s).value) < Height(s) && Parent(Initial(s).value) == Some(s)
  {
  }

  lemma MachineWellFormed()
    ensures Smf.WellFormed(Machine())
  {
    var m := Machine();
    forall s ensures m.parent(s).Some? ==> m.depth(m.parent(s).value) < m.depth(s) {
      TableConsistent(s);
    }
    forall s ensures m.initial(s).Some? ==> m.height(m.initial(s).value) < m.height(s) {
      TableConsistent(s);
    }
    forall s ensures m.initial(s).Some? ==> m.parent(m.initial(s).value) == Some(s) {
      TableConsistent(s);
    }
  }

  /** A leaf is a state without an initial child: the only kind a step settles in. */
  predicate IsLeaf(s: State) {
    Initial(s).None?
  }

  /** `filling_sm_init`: the machine starts in IDLE and the object is unchanged. */
  method FillingSmInit(ctx: Smf.Context<State, Object>)
    requires ctx.chart == Machine()
    modifies ctx
    ensures ctx.current == Idle && ctx.obj == old(ctx.obj)
  {
    MachineWellFormed();
    Smf.StartSingle(Machine(), Idle, ctx.obj);
    ctx.SetInitial(Idle);
  }

  /** No step changes the object. */
  lemma StepKeepsObject(s: State, o: Object)
    ensures Smf.WellFormed(Machine()) && Smf.Step(Machine(), s, o).1 == o
  {
    MachineWellFormed();
    Smf.StepKeepsObject(Machine(), s, o);
  }

  /** Every leaf with a run action starts with the global check. */
  lemma LeafRunsCheckGlobalFirst(s: State, o: Object)
    requires IsLeaf(s) && s != ManualOp && TransitionGlobal(o).Some?
    ensures Run(s, o) == TransitionGlobal(o).value
  {
  }

  /** Where each target of a transition settles. */
  lemma Settles(t: State)
    ensures Smf.WellFormed(Machine())
    ensures Smf.Leaf(Machine(), t) == (if Initial(t).Some? then Initial(t).value else t)
  {
    MachineWellFormed();
    if Initial(t).Some? {
      Smf.LeafOfParent(Machine(), t);
    } else {
      Smf.LeafOfLeaf(Machine(), t);
    }
  }

  /** A step whose deciding run action is the state's own. */
  lemma OwnDecision(s: State, o: Object)
    requires Run(s, o).Transition?
    ensures Smf.WellFormed(Machine())
    ensures Smf.Step(Machine(), s, o) == (Smf.Leaf(Machine(), Run(s, o).target), o)
  {
    MachineWellFormed();
    Smf.DispatchOwn(Machine(), s, o);
    Smf.StepState(Machine(), s, o);
    StepKeepsObject(s, o);
  }

  /**
   * From every state with a run action, STOP ends in IDLE, ABORT in ABORT and
   * PAUSE in SAFE_PAUSE's initial child SAFE_PAUSE_IDLE.
   */
  lemma GlobalCommands(s: State, o: Object)
    requires IsLeaf(s) && s != ManualOp
    ensures Smf.WellFormed(Machine())
    ensures CmdGlobal(o.command) == CMD_STOP ==> Smf.Step(Machine(), s, o) == (Idle, o)
    ensures CmdGlobal(o.command) == CMD_ABORT ==> Smf.Step(Machine(), s, o) == (Abort, o)
    ensures CmdGlobal(o.command) == CMD_PAUSE ==> Smf.Step(Machine(), s, o) == (SafePauseIdle, o)
  {
    MachineWellFormed();
    if CmdGlobal(o.command) in {CMD_STOP, CMD_ABORT, CMD_PAUSE} {
      LeafRunsCheckGlobalFirst(s, o);
      OwnDecision(s, o);
      Settles(Run(s, o).target);
    }
  }

  /**
   * Any other non-zero low byte is consumed by the global check without a
   * transition: no state and no object changes.
   */
  lemma UnknownGlobalFreezes(s: State, o: Object)
    requires CmdGlobal(o.command) !in {0, CMD_STOP, CMD_ABORT, CMD_PAUSE}
    ensures Smf.WellFormed(Machine()) && Smf.Step(Machine(), s, o) == (s, o)
  {
    assert Run(s, o).Propagate?;
    assert Parent(s).Some? ==> Run(Parent(s).value, o).Propagate? && Parent(Parent(s).value).None?;
    MachineWellFormed();
    var m := Machine();
    if Parent(s).Some? {
      assert Run(Parent(s).value, o).Propagate?;
      Smf.DispatchParent(m, s, o);
      Smf.DispatchTop(m, Parent(s).value, o);
    } else {
      Smf.DispatchTop(m, s, o);
    }
    Smf.StepState(m, s, o);
  }

  /** IDLE with FILL_COPV enters FILLING_COPV and settles in its initial child FILLING_COPV_IDLE. */
  lemma IdleFillCopv(o: Object)
    requires o.command == CMD_FILL_COPV
    ensures Smf.WellFormed(Machine()) && Smf.Step(Machine(), Idle, o) == (FillingCopvIdle, o)
  {
    Settles(FillingCopv);
    assert Smf.Leaf(Machine(), FillingCopv) == FillingCopvIdle;
    assert Run(Idle, o) == Smf.Transition(FillingCopv);
    OwnDecision(Idle, o);
  }

  /**
   * The other idle commands never reach IDLE's switch: their low byte is
   * 1, 2 or 3, so they act as STOP, ABORT and PAUSE.
   */
  lemma IdleCommandsActGlobally(o: Object)
    ensures Smf.WellFormed(Machine())
    ensures o.command == CMD_PRE_PRESSURIZE ==> Smf.Step(Machine(), Idle, o) == (Idle, o)
    ensures o.command == CMD_FILL_N2O ==> Smf.Step(Machine(), Idle, o) == (Abort, o)
    ensures o.command == CMD_POST_PRESSURIZE ==> Smf.Step(Machine(), Idle, o) == (SafePauseIdle, o)
  {
    IdleCommandsCollapse();
    GlobalCommands(Idle, o);
  }

  /** In ABORT, READY goes to IDLE; RESUME does too, through its low byte (STOP). */
  lemma AbortCommands(o: Object)
    ensures Smf.WellFormed(Machine())
    ensures o.command == CMD_READY ==> Smf.Step(Machine(), Abort, o) == (Idle, o)
    ensures o.command == CMD_RESUME ==> Smf.Step(Machine(), Abort, o) == (Idle, o)
  {
    ResumeCollapses();
    GlobalCommands(Abort, o);
    if o.command == CMD_READY {
      assert Run(Abort, o) == Smf.Transition(Idle);
      OwnDecision(Abort, o);
      Settles(Idle);
    }
  }

  /** SAFE_PAUSE's RESUME case is dead code: CMD_OTHER clears the low byte that tells RESUME from READY. */
  lemma SafePauseResumeCaseUnreachable(o: Object)
    ensures CmdGlobal(o.command) == 0 ==> SafePauseRun(o).Propagate?
  {
    assert CmdOther(o.command) & 0xFF == 0;
  }

  /**
   * With no global command pending, a leaf of a group moves exactly to what
   * its own condition asks for, and stays put otherwise: the group parents
   * add nothing.
   */
  lemma LeafStep(s: State, o: Object)
    requires IsLeaf(s) && Parent(s).Some?
    requires CmdGlobal(o.command) == 0
    ensures Smf.WellFormed(Machine())
    ensures Smf.Step(Machine(), s, o) == (if LeafCondition(s, o).Some? then LeafCondition(s, o).value else s, o)
  {
    if LeafCondition(s, o).Some? {
      LeafMoves(s, o, LeafCondition(s, o).value);
    } else {
      LeafWaits(s, o);
    }
  }

  lemma LeafMoves(s: State, o: Object, t: State)
    requires IsLeaf(s) && CmdGlobal(o.command) == 0 && LeafCondition(s, o) == Some(t)
    ensures Smf.WellFormed(Machine()) && Smf.Step(Machine(), s, o) == (t, o)
  {
    assert Run(s, o) == Smf.Transition(t);
    assert Initial(t).None?;
    Settles(t);
    OwnDecision(s, o);
  }

  lemma LeafWaits(s: State, o: Object)
    requires IsLeaf(s) && Parent(s).Some? && CmdGlobal(o.command) == 0 && LeafCondition(s, o).None?
    ensures Smf.WellFormed(Machine()) && Smf.Step(Machine(), s, o) == (s, o)
  {
    var p := Parent(s).value;
    SafePauseResumeCaseUnreachable(o);
    assert Run(s, o).Propagate? && Run(p, o).Propagate? && Parent(p).None?;
    MachineWellFormed();
    var m := Machine();
    Smf.DispatchParent(m, s, o);
    Smf.DispatchTop(m, p, o);
    Smf.StepState(m, s, o);
  }

  /**
   * In the SAFE_PAUSE group, RESUME goes to IDLE (through its low byte) and
   * READY changes nothing unless the leaf's own pressure condition fires.
   */
  lemma SafePauseCommands(s: State, o: Object)
    requires s in {SafePauseIdle, SafePauseVent}
    ensures Smf.WellFormed(Machine())
    ensures o.command == CMD_RESUME ==> Smf.Step(Machine(), s, o) == (Idle, o)
    ensures o.command == CMD_READY && LeafCondition(s, o).None? ==> Smf.Step(Machine(), s, o) == (s, o)
  {
    ResumeCollapses();
    GlobalCommands(s, o);
    if o.command == CMD_READY {
      LeafStep(s, o);
    }
  }

  /**
   * COPV hysteresis: the idle leaf starts filling at or below the target and
   * the fill leaf stops at or above it, so at exactly the target the two
   * alternate on every step.
   */
  lemma CopvHysteresis(o: Object)
    requires CmdGlobal(o.command) == 0
    ensures Smf.WellFormed(Machine())
    ensures Smf.Step(Machine(), FillingCopvIdle, o).0 == (if o.nPressure <= o.copvTargetNp then FillingCopvFill else FillingCopvIdle)
    ensures Smf.Step(Machine(), FillingCopvFill, o).0 == (if o.nPressure >= o.copvTargetNp then FillingCopvIdle else FillingCopvFill)
  {
    LeafStep(FillingCopvIdle, o);
    LeafStep(FillingCopvFill, o);
  }

  /** Pre-pressurizing idle: the vent check on the N line comes first, then the fill check on the N2O pressure. */
  lemma PrePressurizingIdleOrder(o: Object)
    requires CmdGlobal(o.command) == 0
    ensures Smf.WellFormed(Machine())
    ensures o.nPressure > o.prePConfig.triggerN2op ==> Smf.Step(Machine(), PrePressurizingIdle, o).0 == PrePressurizingVent
    ensures o.nPressure <= o.prePConfig.triggerN2op ==>
      Smf.Step(Machine(), PrePressurizingIdle, o).0 ==
        (if o.n2oPressure < o.prePConfig.targetN2op then PrePressurizingFillN else PrePressurizingIdle)
  {
    LeafStep(PrePressurizingIdle, o);
  }

  /** N2O filling: venting needs both high pressure and high temperature, else a full tank stops filling. */
  lemma N2oFill(o: Object)
    requires CmdGlobal(o.command) == 0
    ensures Smf.WellFormed(Machine())
    ensures Smf.Step(Machine(), FillingN2oFill, o).0 ==
      if o.n2oPressure >= o.fN2oConfig.triggerN2op && o.temperature > o.fN2oConfig.triggerTemp then FillingN2oVent
      else if o.n2oWeight >= o.fN2oConfig.targetWeight then FillingN2oIdle
      else FillingN2oFill
  {
    LeafStep(FillingN2oFill, o);
  }

  /** N2O venting: either the pressure or the temperature dropping resumes filling. */
  lemma N2oVent(o: Object)
    requires CmdGlobal(o.command) == 0
    ensures Smf.WellFormed(Machine())
    ensures Smf.Step(Machine(), FillingN2oVent, o).0 ==
      if o.n2oPressure <= o.fN2oConfig.targetN2op || o.temperature <= o.fN2oConfig.triggerTemp then FillingN2oFill
      else FillingN2oVent
  {
    LeafStep(FillingN2oVent, o);
  }

  /** Sets the command word and runs one step, as the unit tests do. */
  method RunWithCommand(ctx: Smf.Context<State, Object>, cmd: Cmd)
    requires ctx.chart == Machine()
    modifies ctx
    ensures ctx.obj == old(ctx.obj).(command := cmd)
    ensures Smf.WellFormed(Machine()) && ctx.current == Smf.Step(Machine(), old(ctx.current), ctx.obj).0
  {
    MachineWellFormed();
    ctx.obj := ctx.obj.(command := cmd);
    StepKeepsObject(ctx.current, ctx.obj);
    ctx.RunState();
  }

  /** The unit test: FILL_COPV from IDLE settles in FILLING_COPV_IDLE, and STOP brings it back to IDLE. */
  method FillCopvThenStop(o: Object) returns (afterInit: State, afterFill: State, afterStop: State)
    ensures afterInit == Idle && afterFill == FillingCopvIdle && afterStop == Idle
  {
    GlobalCommands(FillingCopvIdle, o.(command := CMD_STOP));
    IdleFillCopv(o.(command := CMD_FILL_COPV));
    var ctx := new Smf.Context(Machine(), Idle, o);
    FillingSmInit(ctx);
    afterInit := ctx.current;
    assert afterInit == Idle && ctx.obj == o;
    RunWithCommand(ctx, CMD_FILL_COPV);
    afterFill := ctx.current;
    assert afterFill == FillingCopvIdle && ctx.obj == o.(command := CMD_FILL_COPV);
    RunWithCommand(ctx, CMD_STOP);
    afterStop := ctx.current;
  }
}

/**
 * The filling machine's command word (`filling_sm.h`): a 32-bit value whose
 * three low bytes are read through the CMD_GLOBAL, CMD_IDLE and CMD_OTHER
 * masks. The enumerations count up from the first value of each class, so a
 * later member of a class differs from the first one in the LOW byte, which
 * the masks of the idle and other classes do not keep.
 */
module FillCommands {
  type Cmd = bv32

  const CMD_OTHER_MASK: Cmd := 0x00FF_0000
  const CMD_IDLE_MASK: Cmd := 0x0000_FF00
  const CMD_GLOBAL_MASK: Cmd := 0x0000_00FF

  // `enum cmd_global`
  const CMD_STOP: Cmd := 0x1
  const CMD_ABORT: Cmd := 0x2
  const CMD_PAUSE: Cmd := 0x3

  // `enum cmd_idle`
  const CMD_FILL_COPV: Cmd := 0x100
  const CMD_PRE_PRESSURIZE: Cmd := 0x101
  const CMD_FILL_N2O: Cmd := 0x102
  const CMD_POST_PRESSURIZE: Cmd := 0x103

  // `enum cmd_other`
  const CMD_READY: Cmd := 0x1_0000
  const CMD_RESUME: Cmd := 0x1_0001

  /** `CMD_GLOBAL(x)`: the value of the lowest byte. */
  function CmdGlobal(x: Cmd): Cmd
  {
    x & CMD_GLOBAL_MASK
  }

  /** `CMD_IDLE(x)`: the second byte, left in place. */
  function CmdIdle(x: Cmd): Cmd
  {
    x & CMD_IDLE_MASK
  }

  /** `CMD_OTHER(x)`: the third byte, left in place. */
  function CmdOther(x: Cmd): Cmd
  {
    x & CMD_OTHER_MASK
  }

  /** No bit is kept by two of the masks. */
  lemma MasksDisjoint(x: Cmd)
    ensures CmdGlobal(x) & CmdIdle(x) == 0
    ensures CmdGlobal(x) & CmdOther(x) == 0
    ensures CmdIdle(x) & CmdOther(x) == 0
  {
  }

  /** Together the three masks keep exactly the low 24 bits; bits 24 to 31 are seen by none. */
  lemma MasksCoverLowBits(x: Cmd)
    ensures CmdGlobal(x) | CmdIdle(x) | CmdOther(x) == x & 0x00FF_FFFF
  {
  }

  /** A global command is seen only by CMD_GLOBAL, and as itself. */
  lemma GlobalCommandsProject(x: Cmd)
    requires x in {CMD_STOP, CMD_ABORT, CMD_PAUSE}
    ensures CmdGlobal(x) == x && CmdIdle(x) == 0 && CmdOther(x) == 0
  {
  }

  /**
   * Every idle command reads as CMD_FILL_COPV through CMD_IDLE, and the three
   * after the first also read as STOP, ABORT and PAUSE through CMD_GLOBAL.
   */
  lemma IdleCommandsCollapse()
    ensures CmdIdle(CMD_FILL_COPV) == CMD_FILL_COPV && CmdGlobal(CMD_FILL_COPV) == 0
    ensures CmdIdle(CMD_PRE_PRESSURIZE) == CMD_FILL_COPV && CmdGlobal(CMD_PRE_PRESSURIZE) == CMD_STOP
    ensures CmdIdle(CMD_FILL_N2O) == CMD_FILL_COPV && CmdGlobal(CMD_FILL_N2O) == CMD_ABORT
    ensures CmdIdle(CMD_POST_PRESSURIZE) == CMD_FILL_COPV && CmdGlobal(CMD_POST_PRESSURIZE) == CMD_PAUSE
  {
  }

  /** RESUME reads as READY through CMD_OTHER and as STOP through CMD_GLOBAL. */
  lemma ResumeCollapses()
    ensures CmdOther(CMD_RESUME) == CMD_READY && CmdGlobal(CMD_RESUME) == CMD_STOP
    ensures CmdOther(CMD_READY) == CMD_READY && CmdGlobal(CMD_READY) == 0 && CmdIdle(CMD_READY) == 0
  {
  }

  /** Any two commands of one class differing only in the low byte look the same to CMD_IDLE and CMD_OTHER. */
  lemma LowByteInvisibleToClassMasks(x: Cmd, y: Cmd)
    requires x & 0xFFFF_FF00 == y & 0xFFFF_FF00
    ensures CmdIdle(x) == CmdIdle(y) && CmdOther(x) == CmdOther(y)
  {
  }

  /**
   * The class masks clear the low byte, so a switch on CMD_IDLE or CMD_OTHER
   * never meets a later member of the class: those cases are dead code.
   */
  lemma IdleCasesAfterFirstUnreachable(x: Cmd)
    ensures CmdIdle(x) !in {CMD_PRE_PRESSURIZE, CMD_FILL_N2O, CMD_POST_PRESSURIZE}
  {
  }

  lemma OtherResumeCaseUnreachable(x: Cmd)
    ensures CmdOther(x) != CMD_RESUME
  {
  }
}

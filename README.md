# Invictus on-board computer: a verified model of its core

This project models, in Dafny, the logic at the heart of the Invictus
hybrid-rocket avionics: the on-board computer (OBC) firmware for the filling
station and the flight, a few of its drivers, and the operator's text command
dispatcher on the ground. Each module follows one source component:

- `Bytes`: the C integer widths, casts and truncating division the firmware relies on.
- `Envelope`, `Packets`, `RadioCommands`: the fixed 128-byte radio frame (a four-byte
  header and a 124-byte payload), the guarded copies `packet_pack`/`packet_unpack` and
  `radio_cmd_pack`/`radio_cmd_unpack` on arrays, their error codes, and the payload layouts.
- `Validators`, `ZbusMessages`: the packet and zbus message validators. They only read
  their constant input, so they are functions.
- `FillCommands`: the `CMD_GLOBAL`/`CMD_IDLE`/`CMD_OTHER` masks of the filling command word,
  and what they do to the enumerated commands.
- `Smf`: a hierarchical state-machine framework with the run, exit and entry order the
  firmware's state tables rely on, and a `Context` class whose methods step a chart.
- `InvictusFilling`, `ObcFilling`, `RocketState`, `MainSm`, `FlightSm`: the four
  generations of the filling machine and the flight phases, each as a chart over its
  state object. Their transitions, entry valve sets and invariants are proved per state.
- `SmWork`: the state machine service: the listener, the work queue, the handlers that
  apply fill-exec packets and sensor data, and the run handler.
- `ModbusStore`, `ModbusConnection`, `Hydra`: the Modbus server register store with
  bit-packed coils and one active server; the slave connection flag; and the HYDRA
  boards' polling and register-to-message mapping.
- `Max31856`, `Pressures`: the thermocouple converter's byte assembly, sign extension,
  micro-degree split and configuration bytes; the millivolt-to-pressure scaling.
- `UartShell`: the LoRa shell's UART line assembler.
- `CommandProcessor`: `process_command` of the OBC monitor script, with its bounded history.

Hardware, the network, the Modbus client, zbus and the UART are collaborators. Their
answers (a return code, the bytes received, whether a lock was taken, whether a send
succeeded) are parameters of the operations that call them.

Where the source's comments and its code disagree, the model follows the code:

- The idle and other command classes collapse under their masks: every idle command
  reads as `CMD_FILL_COPV` and carries a global byte of 1 to 3.
- The second filling machine registers entry actions for IDLE and ABORT only.
- The newer main machine names no initial child below ROOT, so its filling leaves are
  never entered.
- The sensor handlers of `sm_work.c` resubmit the command handler, not themselves,
  when a read is busy.
- The thermocouple resolution is the source's 7812 micro-degrees per bit, not
  7812.5.

## Model

| member | source | states |
|---|---|---|
| `Envelope.ErrorCode` | invictus2/obc/include/packets.h:262-269 | `enum pack_error_e` numbers its errors 0 to 4, and 0 means no error |
| `Envelope.Encode` | invictus2/obc/include/packets.h:22-43 | a packet image is 128 bytes: version first, command id at byte 3, then the 124-byte payload |
| `Envelope.HeaderOf` | invictus2/obc/include/packets.h:22-28 | the header is the four one-byte fields version, sender, target, command id, in that order |
| `Envelope.Decode` | invictus2/obc/include/packets.h:34-43 | every 128-byte image reads as a header plus a 124-byte payload |
| `Envelope.DecodeEncode` | invictus2/obc/include/packets.h:34-43 | reading back the image of a packet gives that packet |
| `Envelope.EncodeDecode` | invictus2/obc/include/packets.h:34-43 | every 128-byte image is the image of the packet read from it |
| `Envelope.CheckArgs` | invictus2/obc/src/packets.c:5-13 | a null packet or buffer gives INVALID_ARG, ahead of the size test; a buffer under 128 bytes gives BUFFER_TOO_SMALL; otherwise no error |
| `Envelope.CheckHeader` | invictus2/obc/src/packets.c:15-23 | a version other than 1 gives UNSUPPORTED_VERSION, ahead of the id test; an id outside (0, max) gives INVALID_CMD_ID; no error exactly when both hold |
| `Envelope.PackOutcome` | invictus2/obc/src/packets.c:25-32 | a pack succeeds exactly when packet and buffer are present, the buffer holds 128 bytes and the header passes |
| `Envelope.UnpackOutcome` | invictus2/obc/src/packets.c:34-41 | an unpack succeeds exactly when both pointers are present, the buffer holds 128 bytes and the copied header passes |
| `Envelope.PackThenUnpack` | invictus2/obc/src/packets.c:25-41 | what a successful pack leaves in a buffer unpacks without error to the packet that was packed |
| `Packets.FillParams` | invictus2/obc/include/packets.h:81-85 | the fill-exec parameters are the 123 payload bytes after the program id |
| `Packets.PressureParamsRoundTrip` | invictus2/obc/include/packets.h:62-72 | the two little-endian `uint16_t` pressure parameters (target, trigger) read back as written |
| `Packets.N2OParamsRoundTrip` | invictus2/obc/include/packets.h:74-78 | the N2O parameters (grams as `uint16_t`, deci-degrees as `int16_t`) read back as written, negative temperatures included |
| `Packets.DecodeValveMs` | invictus2/obc/include/packets.h:116-120 | the valve id is the first byte of the valve-ms payload |
| `Packets.EncodeValveMs` | invictus2/obc/include/packets.h:116-120 | the valve-ms struct is 8 bytes: the id, three padding bytes, then the aligned `uint32_t` duration |
| `Packets.ValveMsRoundTrip` | invictus2/obc/include/packets.h:116-120 | the valve id and the 32-bit duration read back as written, whatever the padding holds |
| `Packets.DecodeAck` | invictus2/obc/include/packets.h:140-145 | the ACK payload is the acknowledged id, the status, then 122 parameter bytes |
| `Packets.EncodeAck` | invictus2/obc/include/packets.h:140-145 | an ACK fills the 124-byte payload exactly |
| `Packets.AckRoundTrip` | invictus2/obc/include/packets.h:140-145 | an ACK payload reads back as written |
| `Packets.PacketPack` | invictus2/obc/src/packets.c:25-32 | returns the guard outcome with ids bounded by `_CMD_MAX` = 15; on success the buffer's first 128 bytes are the packet and the rest is unchanged; on any error the buffer is untouched |
| `Packets.PacketUnpack` | invictus2/obc/src/packets.c:34-41 | returns the guard outcome; once the argument guard passes the packet holds the buffer's first 128 bytes even when the header check then fails; a failed argument guard leaves the packet untouched |
| `RadioCommands.BitOf` | invictus2/obc/include/radio_commands.h:42-73 | each named actuator has one bit below 13, in declaration order from bit 0 |
| `RadioCommands.ActuatorBitsAreALayout` | invictus2/obc/include/radio_commands.h:42-73 | no two actuators share a bit and every bit below 13 is named, so 3 bits remain reserved |
| `RadioCommands.CopvTargetRoundTrip` | invictus2/obc/include/radio_commands.h:164-166 | the COPV fill parameter, a little-endian `uint16_t` deci-bar target, reads back as written |
| `RadioCommands.RadioCmdPack` | invictus2/obc/src/radio_commands.c:25-32 | the same guarded copy as `packet_pack`, with ids bounded by `RCMD_MAX` = 14 |
| `RadioCommands.RadioCmdUnpack` | invictus2/obc/src/radio_commands.c:34-41 | the same copy-then-check as `packet_unpack`, with ids bounded by `RCMD_MAX` = 14 |
| `Validators.ValidateFillExec` | invictus2/obc/src/validators.c:4-39 | a fill-exec payload is accepted exactly when its program id is N2, PRE_PRESS, N2O or POST_PRESS (1 to 4); 0 and every other value are refused |
| `Validators.ValidateManualExec` | invictus2/obc/src/validators.c:41-62 | a manual-exec payload is accepted exactly when its sub-command lies in SD_LOG_START..TANK_TARE (1 to 7); 0, 8 and above are refused |
| `Validators.PacketValidator` | invictus2/obc/src/validators.c:64-107 | a packet passes exactly when it is present, 128 bytes, version 1 with non-zero sender and target, and its id is one of the ten payload-less ids (1 to 10), FILL_EXEC (11) naming program 1 to 4, or MANUAL_EXEC (12) naming sub-command 1 to 7; STATUS_REP, ACK and every other id are refused |
| `Validators.FillExecVerdict` | invictus2/obc/src/validators.c:94-95 | a supported FILL_EXEC packet passes if and only if its program id is 1 to 4 |
| `Validators.ManualExecVerdict` | invictus2/obc/src/validators.c:97-98 | a supported MANUAL_EXEC packet passes if and only if its sub-command is 1 to 7 |
| `Validators.ValidatedPacketsUnpack` | invictus2/obc/src/validators.c:64-104 | whatever the validator accepts also passes `packet_unpack`'s header guard, so it unpacks without error |
| `Validators.OutgoingIdsRefused` | invictus2/obc/src/validators.c:100-103 | STATUS_REP and ACK are refused whatever the rest of the packet |
| `Validators.PayloadIgnoredWithoutPayload` | invictus2/obc/src/validators.c:82-92 | for a payload-less command two packets with the same header get the same verdict |
| `ZbusMessages.CoilWriteMsgValidator` | invictus2/obc/src/zbus_messages.c:4-11 | a coil-write request is valid exactly when present, with slave id > 0, at least one coil and a values pointer; the start address plays no part |
| `ZbusMessages.StartAddressNeverRejected` | invictus2/obc/src/zbus_messages.c:9 | the `start_addr >= 0` test never rejects: changing only the start address never changes the verdict |
| `ZbusMessages.RocketEventMsgValidator` | invictus2/obc/src/zbus_messages.c:13-19 | a rocket event is valid exactly when present and its event is one of the five values 0 to 4 |
| `ZbusMessages.MessageSizeIgnored` | invictus2/obc/src/zbus_messages.c:6 | neither validator depends on the message size it is given |
| `FillCommands.MasksDisjoint` | invictus2/obc/include/filling_sm.h:12-18 | no bit of the command word is kept by two of the three masks |
| `FillCommands.MasksCoverLowBits` | invictus2/obc/include/filling_sm.h:12-18 | together the masks keep exactly bits 0 to 23; bits 24 to 31 are seen by none |
| `FillCommands.GlobalCommandsProject` | invictus2/obc/include/filling_sm.h:20-24 | STOP, ABORT and PAUSE are seen only through CMD_GLOBAL, each as itself |
| `FillCommands.IdleCommandsCollapse` | invictus2/obc/include/filling_sm.h:13-31 | CMD_IDLE maps all four idle commands to 0x100 (CMD_FILL_COPV), and CMD_GLOBAL maps 0x101..0x103 to STOP, ABORT and PAUSE, contrary to the per-command comments |
| `FillCommands.ResumeCollapses` | invictus2/obc/include/filling_sm.h:12-18 | CMD_OTHER maps RESUME to READY and CMD_GLOBAL maps it to STOP; READY is seen only through CMD_OTHER |
| `FillCommands.LowByteInvisibleToClassMasks` | invictus2/obc/include/filling_sm.h:16-17 | two words that differ only in the low byte look alike to CMD_IDLE and CMD_OTHER |
| `FillCommands.IdleCasesAfterFirstUnreachable` | invictus2/obc/include/filling_sm.h:17-31 | no command word makes CMD_IDLE equal to 0x101, 0x102 or 0x103 |
| `FillCommands.OtherResumeCaseUnreachable` | invictus2/obc/include/filling_sm.h:16-36 | no command word makes CMD_OTHER equal to RESUME |
| `Smf.LeafHasNoInitial` | test/filling/test_filling_sm.c:43-53 | a transition always settles in a state without an initial child, as entering FILLING_COPV lands on FILLING_COPV_IDLE |
| `Smf.LeafPathExtends` | test/filling/test_filling_sm.c:43-53 | the settled state lies below the requested target, reached through the target's chain of initial children |
| `Smf.StepLandsBelowTarget` | invictus/tests/filling/test_filling_sm.c:57-67 | after a step that sets a state, the current state's ancestry is the target's ancestry followed by the target's initial children |
| `Smf.StepSettlesInLeaf` | invictus2/obc/src/services/state_machine/sm_work.c:239 | a run step started in a state without an initial child ends in one too |
| `Smf.StepKeepsObject` | invictus/src/filling_sm.c:494-527 | a table whose entry and exit actions do nothing never changes the object during a step |
| `Smf.TransitEffect` | invictus2/obc/src/filling_sm.c:677-710 | when exits do nothing and no proper ancestor of the target has an entry, a transition leaves the object as the target's entry followed by its initial children's entries |
| `Smf.TransitToLeaf` | invictus2/obc/src/services/rocket_state/main_sm.c:634-668 | a transition to a state without initial child settles in it, and the state's own entry runs last, after the re-entered ancestors' |
| `Smf.Context.SetInitial` | invictus2/obc/src/services/state_machine/main_sm.c:378-381 | `smf_set_initial`: enters the state's ancestors outermost first, the state and its initial children, and settles at the end of that chain |
| `Smf.Context.SetState` | invictus2/obc/src/services/state_machine/main_sm.c:122-145 | `smf_set_state`: runs the exits up to the common ancestor, then the entries down to the target and its initial children, and settles there |
| `Smf.Context.RunState` | invictus2/obc/src/services/state_machine/sm_work.c:234-243 | `smf_run_state`: runs actions from the current state outward until one decides, and then the current state and object are those of one `Step` |
| `InvictusFilling.TransitionGlobal` | invictus/src/filling_sm.c:14-39 | `transition_global` reports nothing exactly when the command's low byte is zero, and asks for a transition exactly for STOP, ABORT and PAUSE |
| `InvictusFilling.FillingSmInit` | invictus/src/filling_sm.c:529-533 | `filling_sm_init` starts the machine in IDLE and leaves the object unchanged |
| `InvictusFilling.StepKeepsObject` | invictus/src/filling_sm.c:43-50 | entry and exit actions only log, so no step changes any field of the object |
| `InvictusFilling.LeafRunsCheckGlobalFirst` | invictus/src/filling_sm.c:173-190 | every run action of a state without children returns the global check's decision whenever there is one |
| `InvictusFilling.GlobalCommands` | invictus/src/filling_sm.c:14-39 | from any state with a run action, STOP ends in IDLE, ABORT in ABORT and PAUSE in SAFE_PAUSE_IDLE, the initial child of SAFE_PAUSE |
| `InvictusFilling.UnknownGlobalFreezes` | invictus/src/filling_sm.c:16-38 | a non-zero low byte other than STOP, ABORT and PAUSE is swallowed by the global check: neither state nor object changes |
| `InvictusFilling.IdleFillCopv` | invictus/src/filling_sm.c:52-87 | IDLE with FILL_COPV enters FILLING_COPV and settles in FILLING_COPV_IDLE |
| `InvictusFilling.IdleCommandsActGlobally` | invictus/src/filling_sm.c:52-87 | in IDLE the other three idle commands never reach the switch: they act as STOP, ABORT and PAUSE |
| `InvictusFilling.AbortCommands` | invictus/src/filling_sm.c:107-134 | in ABORT, READY goes to IDLE, and RESUME also goes to IDLE, as STOP, because of its low byte |
| `InvictusFilling.SafePauseResumeCaseUnreachable` | invictus/src/filling_sm.c:145-171 | SAFE_PAUSE's own RESUME case can never fire once the global check has passed |
| `InvictusFilling.LeafStep` | invictus/src/filling_sm.c:173-491 | with no global command pending, a group leaf moves exactly where its own condition asks and stays put otherwise, and the object is unchanged |
| `InvictusFilling.LeafMoves` | invictus/src/filling_sm.c:173-491 | a group leaf whose condition names a state moves there, with the object unchanged |
| `InvictusFilling.LeafWaits` | invictus/src/filling_sm.c:211-218 | a group leaf whose condition names nothing stays put: the group parent's run does nothing |
| `InvictusFilling.SafePauseCommands` | invictus/src/filling_sm.c:145-209 | in the SAFE_PAUSE group RESUME goes to IDLE, and READY changes nothing unless the leaf's pressure condition fires |
| `InvictusFilling.CopvHysteresis` | invictus/src/filling_sm.c:220-256 | COPV_IDLE starts filling when the N pressure is at or below the target, and COPV_FILL returns to idle when it is at or above it |
| `InvictusFilling.PrePressurizingIdleOrder` | invictus/src/filling_sm.c:267-294 | in PRE_PRESSURIZING_IDLE the vent check comes first; only then does an N2O pressure below target start filling |
| `InvictusFilling.N2oFill` | invictus/src/filling_sm.c:366-393 | N2O filling vents exactly when pressure ≥ trigger and temperature > trigger, else goes idle when the weight reaches the target, else continues |
| `InvictusFilling.N2oVent` | invictus/src/filling_sm.c:395-414 | N2O venting resumes filling when the pressure is at or below the target or the temperature at or below the trigger |
| `InvictusFilling.RunWithCommand` | invictus/tests/filling/test_filling_sm.c:58-61 | setting the command and calling `smf_run_state` changes the command and nothing else of the object, and moves to the state one step gives |
| `InvictusFilling.FillCopvThenStop` | invictus/tests/filling/test_filling_sm.c:50-79 | after init the machine is in IDLE, FILL_COPV leads to FILLING_COPV_IDLE, and STOP returns to IDLE |
| `InvictusFilling.IdleRun` | invictus/src/filling_sm.c:52-87 | the global decision first; otherwise the idle byte selects a filling group |
| `InvictusFilling.AbortRun` | invictus/src/filling_sm.c:107-134 | the global decision first; otherwise READY sets IDLE and RESUME only logs |
| `InvictusFilling.SafePauseRun` | invictus/src/filling_sm.c:145-171 | the global decision first; otherwise RESUME sets IDLE and READY only logs |
| `InvictusFilling.LeafRun` | invictus/src/filling_sm.c:173-190 | a leaf returns the global decision first, and otherwise sets the state its own condition names |
| `InvictusFilling.LeafCondition` | invictus/src/filling_sm.c:173-491 | the comparison each leaf makes between a reading and its configured target or trigger, and the sibling it then names |
| `ObcFilling.AncestorsHaveNoEntry` | invictus2/obc/src/filling_sm.c:677-712 | no state that has children (ROOT and the group parents) has a registered entry action |
| `ObcFilling.StepShape` | invictus2/obc/src/filling_sm.c:677-712 | every step either keeps state and object, or settles in the target (or its initial child) with only that state's registered entry applied: IDLE closes every valve, ABORT opens exactly the abort and tank-top valves, anything else leaves them |
| `ObcFilling.FillingSmInit` | invictus2/obc/src/filling_sm.c:714-718 | `filling_sm_init` enters ROOT and IDLE, so the machine starts in IDLE with every valve closed and nothing else changed |
| `ObcFilling.LeafDefersToGlobal` | invictus2/obc/src/filling_sm.c:187-207 | a group leaf asks for no transition while the command's global byte is set, and a leaf transition implies that byte is zero |
| `ObcFilling.GlobalReachesRoot` | invictus2/obc/src/filling_sm.c:14-45 | a command with only its global byte set is decided by ROOT from every state a step can settle in, MANUAL_OP apart |
| `ObcFilling.StopCommand` | invictus2/obc/src/filling_sm.c:14-56 | from every such state STOP ends in IDLE with every valve closed |
| `ObcFilling.AbortCommand` | invictus2/obc/src/filling_sm.c:14-110 | from every such state ABORT ends in ABORT with exactly the abort and tank-top valves open |
| `ObcFilling.PauseCommand` | invictus2/obc/src/filling_sm.c:14-45 | from every such state PAUSE ends in SAFE_PAUSE_IDLE, valves unchanged, because the leaf entry actions are not registered |
| `ObcFilling.UnknownGlobalIgnored` | invictus2/obc/src/filling_sm.c:40-42 | a global byte other than STOP, ABORT and PAUSE, alone in the command, changes neither state nor object |
| `ObcFilling.IdleCommandsAllFillCopv` | invictus2/obc/src/filling_sm.c:58-92 | any command whose idle byte reads as FILL_COPV, which is every idle command, takes IDLE to FILLING_COPV_IDLE whatever its global byte, valves unchanged |
| `ObcFilling.IdleUnknownHandled` | invictus2/obc/src/filling_sm.c:86-89 | an unknown idle byte is marked handled in IDLE, so ROOT never acts, whatever the global byte |
| `ObcFilling.AbortReady` | invictus2/obc/src/filling_sm.c:112-138 | in ABORT a command whose other byte reads as READY, RESUME included, goes to IDLE and closes every valve |
| `ObcFilling.AbortUnknownHandled` | invictus2/obc/src/filling_sm.c:132-135 | any other non-empty other byte is handled in ABORT and changes nothing, even with STOP in the global byte |
| `ObcFilling.SafePauseResume` | invictus2/obc/src/filling_sm.c:147-176 | in the SAFE_PAUSE group RESUME (other byte READY, global byte STOP) ends in IDLE with every valve closed: SAFE_PAUSE lets READY through and ROOT acts on STOP |
| `ObcFilling.SafePauseReady` | invictus2/obc/src/filling_sm.c:147-176 | READY alone in the SAFE_PAUSE group changes nothing unless the leaf's pressure condition fires |
| `ObcFilling.LeafConditionStaysInGroup` | invictus2/obc/src/filling_sm.c:187-674 | every leaf condition names a sibling leaf of the same group |
| `ObcFilling.LeafStep` | invictus2/obc/src/filling_sm.c:187-674 | with no global byte pending a group leaf moves exactly where its own condition asks and stays put otherwise; the object is unchanged |
| `ObcFilling.LeafMoves` | invictus2/obc/src/filling_sm.c:187-674 | a group leaf whose condition names a state moves there with the object unchanged |
| `ObcFilling.LeafWaits` | invictus2/obc/src/filling_sm.c:235-242 | a group leaf whose condition names nothing stays put: the group parent's run and ROOT do nothing |
| `ObcFilling.PrePressurizingIdleOrder` | invictus2/obc/src/filling_sm.c:327-360 | in PRE_PRESSURIZING_IDLE a pre-tank pressure above the trigger goes to VENT first; otherwise a main-tank pressure below target goes to FILL_N |
| `ObcFilling.N2oFillStep` | invictus2/obc/src/filling_sm.c:476-515 | N2O filling vents exactly when pressure ≥ trigger and temperature > trigger, else goes idle when the weight reaches the target |
| `ObcFilling.N2oVentComparesPressureWithWeight` | invictus2/obc/src/filling_sm.c:526-555 | N2O venting resumes filling when the main-tank PRESSURE is at most the target WEIGHT setting, or the temperature at most its trigger |
| `ObcFilling.CopvHysteresis` | invictus2/obc/src/filling_sm.c:253-307 | COPV_IDLE starts filling at or below the target and COPV_FILL stops at or above it |
| `ObcFilling.ManualOpIsInert` | invictus2/obc/src/filling_sm.c:687 | MANUAL_OP has no actions and no parent: no command ever moves it or changes the object |
| `ObcFilling.RunWithCommand` | test/filling/test_filling_sm.c:44-47 | setting the command and calling `smf_run_state` gives exactly one step from the current state with that command |
| `ObcFilling.FillCopvThenStop` | test/filling/test_filling_sm.c:37-65 | after init the machine is in IDLE, FILL_COPV leads to FILLING_COPV_IDLE, and STOP returns to IDLE with every valve closed |
| `ObcFilling.RootRun` | invictus2/obc/src/filling_sm.c:14-45 | STOP sets IDLE, ABORT sets ABORT, PAUSE sets SAFE_PAUSE; any other global byte is left unhandled |
| `ObcFilling.IdleRun` | invictus2/obc/src/filling_sm.c:58-92 | the idle byte selects a filling group; an empty one goes on to ROOT and an unknown one is marked handled |
| `ObcFilling.AbortRun` | invictus2/obc/src/filling_sm.c:112-138 | READY sets IDLE, RESUME goes on to ROOT, any other byte is marked handled |
| `ObcFilling.SafePauseRun` | invictus2/obc/src/filling_sm.c:147-176 | RESUME sets IDLE, READY goes on to ROOT, any other byte is marked handled |
| `ObcFilling.LeafCondition` | invictus2/obc/src/filling_sm.c:187-674 | the comparison each group leaf makes between a tank reading and its configured target or trigger, and the sibling it then names |
| `ObcFilling.LeafRun` | invictus2/obc/src/filling_sm.c:187-207 | a group leaf defers while the global byte is set, and otherwise sets the state its condition names |
| `ObcFilling.Entry` | invictus2/obc/src/filling_sm.c:49-110 | IDLE closes every valve and ABORT opens the abort and tank-top valves; no other entry is registered |
| `RocketState.EntryActionsOnLeavesOnly` | invictus2/obc/src/services/rocket_state/main_sm.c:636-668 | exactly the states without children have an entry action |
| `RocketState.AncestorsHaveNoEntry` | invictus2/obc/src/services/rocket_state/main_sm.c:636-668 | ROOT and the group parents have no entry action |
| `RocketState.StepShape` | invictus2/obc/src/services/rocket_state/main_sm.c:636-668 | every step either keeps state and object, or settles in the target (or its initial child) and applies only that state's entry |
| `RocketState.EnterSetsLeafValves` | invictus2/obc/src/services/rocket_state/main_sm.c:52-609 | entering a state leaves open exactly the listed valves of the leaf it settles in, after clearing all, and changes nothing else |
| `RocketState.ValvesFollowState` | invictus2/obc/src/services/rocket_state/main_sm.c:52-668 | if the open valves match the current leaf before a step, they match the leaf after it, and a step changes nothing but the valves |
| `RocketState.FillingSmInit` | invictus2/obc/src/services/rocket_state/main_sm.c:670-674 | `filling_sm_init` starts in IDLE (RS_FILL_IDLE) with every valve closed |
| `RocketState.LeafDefersToGlobal` | invictus2/obc/src/services/rocket_state/main_sm.c:250-317 | a group leaf asks for no transition while the global byte is set |
| `RocketState.GlobalReachesRoot` | invictus2/obc/src/services/rocket_state/main_sm.c:17-48 | a command with only its global byte set is decided by ROOT from every state a step can settle in |
| `RocketState.StopCommand` | invictus2/obc/src/services/rocket_state/main_sm.c:17-58 | STOP ends in IDLE with every valve closed from every such state |
| `RocketState.AbortCommand` | invictus2/obc/src/services/rocket_state/main_sm.c:17-113 | ABORT ends in ABORT with exactly the abort and pressurizing valves open |
| `RocketState.PauseCommand` | invictus2/obc/src/services/rocket_state/main_sm.c:17-48 | PAUSE ends in SAFE_PAUSE_IDLE, the initial child of SAFE_PAUSE, with every valve closed |
| `RocketState.IdleCommandsAllFillN2` | invictus2/obc/src/services/rocket_state/main_sm.c:60-94 | every command whose idle byte reads as FILL_COPV, which is all four idle commands, takes IDLE to FILLING_N2_IDLE with every valve closed |
| `RocketState.IdleUnknownHandled` | invictus2/obc/src/services/rocket_state/main_sm.c:60-94 | an unknown idle byte is marked handled in IDLE, so nothing changes |
| `RocketState.AbortReady` | invictus2/obc/src/services/rocket_state/main_sm.c:115-141 | in ABORT a command whose other byte reads as READY, RESUME included, goes to IDLE and closes every valve |
| `RocketState.AbortUnknownHandled` | invictus2/obc/src/services/rocket_state/main_sm.c:115-141 | any other non-empty other byte is handled in ABORT and changes nothing |
| `RocketState.SafePauseResume` | invictus2/obc/src/services/rocket_state/main_sm.c:149-175 | in the SAFE_PAUSE group RESUME ends in IDLE with every valve closed, through ROOT's STOP |
| `RocketState.LeafConditionStaysInGroup` | invictus2/obc/src/services/rocket_state/main_sm.c:185-631 | every leaf condition names a sibling leaf of the same group |
| `RocketState.LeafStep` | invictus2/obc/src/services/rocket_state/main_sm.c:185-631 | with no global byte pending a group leaf moves exactly where its condition asks, opening that leaf's valves, and stays put otherwise |
| `RocketState.LeafMoves` | invictus2/obc/src/services/rocket_state/main_sm.c:185-631 | a group leaf whose condition names a state moves there and applies that state's entry |
| `RocketState.LeafWaits` | invictus2/obc/src/services/rocket_state/main_sm.c:231-235 | a group leaf whose condition names nothing stays put with the object unchanged |
| `RocketState.N2Hysteresis` | invictus2/obc/src/services/rocket_state/main_sm.c:245-294 | N2_IDLE starts filling when the N2 pressure is at or below the target, and N2_FILL stops at or above it |
| `RocketState.PrePressIdleOrder` | invictus2/obc/src/services/rocket_state/main_sm.c:310-341 | in PRE_PRESS_IDLE an N2O pressure above the trigger goes to VENT and returns; otherwise a pressure below target goes to FILL_N2 |
| `RocketState.N2oVentOpensFillAndVent` | invictus2/obc/src/services/rocket_state/main_sm.c:445-492 | N2O filling that vents opens exactly the N2O fill and vent valves |
| `RocketState.RunWithCommand` | invictus2/obc/src/services/rocket_state/main_sm.c:17-48 | setting the command and running gives exactly one step from the current state with that command |
| `RocketState.PrePressurizeThenAbort` | invictus2/obc/src/services/rocket_state/main_sm.c:60-113 | from init PRE_PRESSURIZE, read as FILL_COPV, leads to FILLING_N2_IDLE; ABORT then leads to ABORT with the abort and pressurizing valves open |
| `RocketState.RootRun` | invictus2/obc/src/services/rocket_state/main_sm.c:17-48 | STOP sets IDLE, ABORT sets ABORT, PAUSE sets SAFE_PAUSE; any other global byte is left unhandled |
| `RocketState.IdleRun` | invictus2/obc/src/services/rocket_state/main_sm.c:60-94 | the idle byte selects a filling group; an empty one goes on to ROOT and an unknown one is marked handled |
| `RocketState.AbortRun` | invictus2/obc/src/services/rocket_state/main_sm.c:115-141 | READY sets IDLE, RESUME goes on to ROOT, any other byte is marked handled |
| `RocketState.SafePauseRun` | invictus2/obc/src/services/rocket_state/main_sm.c:149-175 | RESUME sets IDLE, READY goes on to ROOT, any other byte is marked handled |
| `RocketState.LeafCondition` | invictus2/obc/src/services/rocket_state/main_sm.c:185-631 | the comparison each group leaf makes between a tank reading and its configured target or trigger, and the sibling it then names |
| `RocketState.LeafRun` | invictus2/obc/src/services/rocket_state/main_sm.c:185-202 | a group leaf defers while the global byte is set, and otherwise sets the state its condition names |
| `RocketState.EntryValves` | invictus2/obc/src/services/rocket_state/main_sm.c:52-609 | the valves each entry action leaves open after clearing them all |
| `MainSm.ValveId` | invictus2/obc/include/data_models.h:58-73 | each valve has a number in the enumeration, between the N2O fill valve and the abort valve, that maps back to it |
| `MainSm.ValveNumbering` | invictus2/obc/include/data_models.h:58-73 | a number names a valve exactly when it lies between the N2O fill valve and the abort valve, and numbering is the inverse of naming |
| `MainSm.SetValve` | invictus2/obc/src/services/state_machine/main_sm.c:18-55 | the named valve is open exactly when asked, every other valve and the e-match bits are unchanged, and an unknown number changes nothing |
| `MainSm.SetValveOnlyTouchesItsValve` | invictus2/obc/src/services/state_machine/main_sm.c:18-55 | reading any valve back after `set_valve` gives the written state for the named valve and the old state for every other |
| `MainSm.CloseAllValves` | invictus2/obc/src/services/state_machine/main_sm.c:57-62 | no valve is open afterwards and the e-match bits are kept |
| `MainSm.OpenSingleValve` | invictus2/obc/src/services/state_machine/main_sm.c:64-69 | exactly the named valve is open afterwards (none for an unknown number), the e-match bits kept |
| `MainSm.ToggleValve` | invictus2/obc/src/services/state_machine/filling_sm.c:285-286 | the named valve's state is flipped and nothing else changes |
| `MainSm.GlobalByte` | invictus2/obc/include/filling_sm.h:14-18 | the low byte the filling runs test is the whole command |
| `MainSm.EntryMatchesTable` | invictus2/obc/src/services/state_machine/filling_sm.c:6-371 | every entry action either does nothing or leaves open exactly its table's valves, and touches nothing but the valves |
| `MainSm.DispatchFromMode` | invictus2/obc/src/services/state_machine/main_sm.c:80-105 | a mode state's run decides, and when it does not, ROOT's run does |
| `MainSm.DispatchFromGroup` | invictus2/obc/src/services/state_machine/main_sm.c:158-187 | a filling group passes every step to FILL, and FILL to ROOT |
| `MainSm.IdleFillExec` | invictus2/obc/src/services/state_machine/main_sm.c:122-145 | in IDLE, FILL_EXEC moves to FILL with every valve closed |
| `MainSm.IdleReady` | invictus2/obc/src/services/state_machine/main_sm.c:122-145 | in IDLE, READY moves to READY and changes nothing else |
| `MainSm.IdleSwallowsOtherCommands` | invictus2/obc/src/services/state_machine/main_sm.c:122-145 | in IDLE every other command, STOP and ABORT included, changes nothing |
| `MainSm.ReadyArm` | invictus2/obc/src/services/state_machine/main_sm.c:199-222 | in READY, ARM moves to ARMED |
| `MainSm.ReadyAbort` | invictus2/obc/src/services/state_machine/main_sm.c:199-309 | in READY, ABORT moves to ABORT with exactly the abort and pressurizing valves open |
| `MainSm.ReadySwallowsOtherCommands` | invictus2/obc/src/services/state_machine/main_sm.c:199-222 | in READY every other command changes nothing |
| `MainSm.ArmedFire` | invictus2/obc/src/services/state_machine/main_sm.c:234-264 | ARMED moves to FLIGHT exactly when FIRE arrives with the chamber above the launch minimum; otherwise nothing changes, ABORT included |
| `MainSm.FlightAbort` | invictus2/obc/src/services/state_machine/main_sm.c:276-309 | in FLIGHT, ABORT moves to ABORT with the abort and pressurizing valves open |
| `MainSm.FlightIgnoresOtherCommands` | invictus2/obc/src/services/state_machine/main_sm.c:276-295 | in FLIGHT nothing but ABORT changes anything, LAUNCH_OVERRIDE included |
| `MainSm.AbortToIdle` | invictus2/obc/src/services/state_machine/main_sm.c:311-334 | in ABORT, READY or STOP moves to IDLE with every valve closed |
| `MainSm.AbortSwallowsOtherCommands` | invictus2/obc/src/services/state_machine/main_sm.c:311-334 | in ABORT every other command changes nothing |
| `MainSm.ProgramState` | invictus2/obc/src/services/state_machine/main_sm.c:158-187 | exactly the four fill programs name a state, and it is FILL or one of its groups |
| `MainSm.DispatchInFill` | invictus2/obc/src/services/state_machine/main_sm.c:158-187 | in FILL or any group below it, FILL's run decides, else ROOT's |
| `MainSm.FillProgram` | invictus2/obc/src/services/state_machine/main_sm.c:158-187 | a known fill program moves to the state it names with every valve closed; the N2 program re-enters FILL itself |
| `MainSm.FillUnknownProgram` | invictus2/obc/src/services/state_machine/main_sm.c:158-187 | an unknown fill program is marked handled and changes nothing, whatever the command |
| `MainSm.FillStop` | invictus2/obc/src/services/state_machine/main_sm.c:80-187 | without a fill program, STOP leaves FILL for IDLE with every valve closed |
| `MainSm.FillAbort` | invictus2/obc/src/services/state_machine/main_sm.c:80-187 | without a fill program, ABORT leaves FILL for ABORT with the abort and pressurizing valves open |
| `MainSm.FillIgnoresOtherCommands` | invictus2/obc/src/services/state_machine/main_sm.c:80-187 | without a fill program, any other command leaves FILL and its groups unchanged |
| `MainSm.DispatchFromSafePause` | invictus2/obc/src/services/state_machine/filling_sm.c:12-24 | SAFE_PAUSE's run decides, and only what it propagates reaches FILL and ROOT |
| `MainSm.LeafDefersPendingCommand` | invictus2/obc/src/services/state_machine/filling_sm.c:39-67 | while a command is pending a filling leaf leaves the decision to its group |
| `MainSm.LeafConditionStaysInGroup` | invictus2/obc/src/services/state_machine/filling_sm.c:39-380 | the state a filling leaf asks for is another leaf of the same group |
| `MainSm.LeafStep` | invictus2/obc/src/services/state_machine/filling_sm.c:39-380 | with no command pending a leaf moves to the state its condition asks for, with that state's valves, or nothing changes |
| `MainSm.LeafMoves` | invictus2/obc/src/services/state_machine/filling_sm.c:39-380 | when a leaf's condition holds the machine settles in the new leaf with its entry valves |
| `MainSm.LeafWaits` | invictus2/obc/src/services/state_machine/filling_sm.c:39-380 | when no leaf condition holds nothing changes |
| `MainSm.LeafValvesFollowState` | invictus2/obc/src/services/state_machine/filling_sm.c:6-380 | from a leaf whose valves match its entry action, a step stays in the same group with the valves again matching the new leaf, and nothing else changes |
| `MainSm.SafePauseBand` | invictus2/obc/src/services/state_machine/filling_sm.c:39-67 | safe pause vents above the trigger pressure and stops venting at or below the target |
| `MainSm.CopvHysteresis` | invictus2/obc/src/services/state_machine/filling_sm.c:98-126 | the N2 fill fills at or below the target pressure and stops at or above it |
| `MainSm.PrePressIdleOrder` | invictus2/obc/src/services/state_machine/filling_sm.c:156-167 | pre-pressurizing idle tests the vent limit before the fill limit |
| `MainSm.PostPressIdleOrder` | invictus2/obc/src/services/state_machine/filling_sm.c:327-338 | post-pressurizing idle tests the vent limit before the fill limit, with its own limits |
| `MainSm.N2oFillOrder` | invictus2/obc/src/services/state_machine/filling_sm.c:260-273 | N2O filling tests the vent condition (pressure and temperature) before the weight |
| `MainSm.N2oVentOpensFillAndVent` | invictus2/obc/src/services/state_machine/filling_sm.c:260-287 | moving to N2O venting leaves exactly the N2O fill and vent valves open |
| `MainSm.SafePauseResume` | invictus2/obc/src/services/state_machine/filling_sm.c:12-24 | in safe pause, RESUME moves to IDLE with every valve closed |
| `MainSm.SafePauseSwallowsOtherCommands` | invictus2/obc/src/services/state_machine/filling_sm.c:12-24 | in safe pause any other command, STOP and ABORT included, changes nothing |
| `MainSm.LeafStop` | invictus2/obc/src/services/state_machine/main_sm.c:80-105 | outside safe pause, STOP takes a filling leaf to IDLE with every valve closed |
| `MainSm.ReachableTargets` | invictus2/obc/src/services/state_machine/main_sm.c:341-376 | from a state reachable after init every transition lands in a reachable state, and from ABORT only in IDLE |
| `MainSm.StepKeepsValvesClosed` | invictus2/obc/src/services/state_machine/main_sm.c:341-381 | every step keeps the machine among the reachable states with the valves closed outside ABORT and changes nothing but the valves |
| `MainSm.EnterKeepsValvesClosed` | invictus2/obc/src/services/state_machine/main_sm.c:116-309 | entering a reachable state from a closed-valve state keeps the valves invariant |
| `MainSm.SmInit` | invictus2/obc/src/services/state_machine/main_sm.c:378-381 | after init the machine is in IDLE with every valve closed and nothing else changed |
| `MainSm.RunWithCommand` | invictus2/obc/src/services/state_machine/main_sm.c:80-334 | the context moves exactly as one step of the chart with the command and fill command set |
| `MainSm.LaunchThenAbort` | invictus2/obc/src/services/state_machine/main_sm.c:122-334 | init, READY, ARM and FIRE reach FLIGHT; ABORT then opens only the abort and pressurizing valves |
| `MainSm.RootRun` | invictus2/obc/src/services/state_machine/main_sm.c:80-105 | no command goes on unhandled; STOP sets IDLE and ABORT sets ABORT; any other command is left unhandled |
| `MainSm.IdleRun` | invictus2/obc/src/services/state_machine/main_sm.c:122-145 | FILL_EXEC sets FILL, READY sets READY, and any other command is marked handled |
| `MainSm.FillRun` | invictus2/obc/src/services/state_machine/main_sm.c:158-187 | reads the fill command: the N2 program sets FILL itself, the pre-press, N2O and post-press programs set their groups, an unknown program is marked handled |
| `MainSm.ReadyRun` | invictus2/obc/src/services/state_machine/main_sm.c:199-222 | ARM sets ARMED, ABORT sets ABORT, any other command is marked handled |
| `MainSm.ArmedRun` | invictus2/obc/src/services/state_machine/main_sm.c:234-264 | FIRE sets FLIGHT only when the chamber thermocouple reads above the minimum launch temperature; every command is otherwise marked handled |
| `MainSm.FlightRun` | invictus2/obc/src/services/state_machine/main_sm.c:276-295 | ABORT sets ABORT, LAUNCH_OVERRIDE is left unhandled, any other command is marked handled |
| `MainSm.AbortRun` | invictus2/obc/src/services/state_machine/main_sm.c:311-334 | READY or STOP sets IDLE, any other command is marked handled |
| `MainSm.SafePauseRun` | invictus2/obc/src/services/state_machine/filling_sm.c:12-24 | RESUME sets IDLE, any other command is marked handled |
| `MainSm.LeafCondition` | invictus2/obc/src/services/state_machine/filling_sm.c:39-380 | the comparison each filling leaf makes between a reading and its configured target or trigger, and the sibling leaf it then names |
| `MainSm.LeafRun` | invictus2/obc/src/services/state_machine/filling_sm.c:39-46 | a filling leaf returns while the command's global byte is set, and otherwise sets the state its condition names |
| `MainSm.EntryActuators` | invictus2/obc/src/services/state_machine/filling_sm.c:6-371 | the valve writes of each entry action (close all, open one, or the N2O vent's two toggles after closing all), with IDLE, FILL and ABORT from main_sm.c |
| `FlightSm.PhaseStep` | invictus2/obc/src/services/state_machine/flight_sm.c:6-129 | a step in a flight phase lands in the phase its run asks for, or stays, and every entry and exit action leaves the object unchanged |
| `FlightSm.StepMovesForward` | invictus2/obc/src/services/state_machine/flight_sm.c:6-129 | a step never goes back: the phase moves at most one place forward and the object is never changed |
| `FlightSm.RunMovesForward` | invictus2/obc/src/services/state_machine/flight_sm.c:10-110 | every transition a flight run asks for is to the next phase |
| `FlightSm.IgnitionToBoost` | invictus2/obc/src/services/state_machine/flight_sm.c:10-15 | IGNITION moves to BOOST exactly when the chamber is hotter than the launch minimum, else stays |
| `FlightSm.BoostToCoast` | invictus2/obc/src/services/state_machine/flight_sm.c:28-34 | BOOST moves to COAST exactly when the vertical speed falls below the boost threshold, else stays |
| `FlightSm.CoastToApogee` | invictus2/obc/src/services/state_machine/flight_sm.c:47-53 | COAST moves to APOGEE exactly when the vertical speed falls below the coast threshold, else stays |
| `FlightSm.ApogeeToDrogue` | invictus2/obc/src/services/state_machine/flight_sm.c:66-72 | APOGEE moves to DROGUE_CHUTE exactly when the drogue e-match bit is set, else stays |
| `FlightSm.DrogueToMain` | invictus2/obc/src/services/state_machine/flight_sm.c:85-91 | DROGUE_CHUTE moves to MAIN_CHUTE exactly when the altitude is below the deploy altitude, else stays |
| `FlightSm.MainToTouchdown` | invictus2/obc/src/services/state_machine/flight_sm.c:104-110 | MAIN_CHUTE moves to TOUCHDOWN exactly when the altitude is below the touchdown altitude, else stays |
| `FlightSm.TouchdownIsTerminal` | invictus2/obc/src/services/state_machine/flight_sm.c:119-129 | TOUCHDOWN is terminal: no reading moves it or changes the object |
| `FlightSm.FlightIsMonotone` | invictus2/obc/src/services/state_machine/flight_sm.c:6-129 | over any run of readings the phase never goes back, gains at most one place per reading, and stays at TOUCHDOWN once there |
| `FlightSm.Tick` | invictus2/obc/src/services/state_machine/flight_sm.c:6-129 | one tick takes the new readings and advances the phase as one step of the chart, by at most one place |
| `FlightSm.Run` | invictus2/obc/src/services/state_machine/flight_sm.c:10-125 | each phase's run names the next phase when its reading crosses its configured limit; TOUCHDOWN names none |
| `SmWork.Enqueue` | invictus2/obc/src/services/state_machine/sm_work.c:58-110 | submitting an item puts it on the queue, keeps everything already there, adds nothing else, and never duplicates a pending item |
| `SmWork.Remove` | invictus2/obc/src/services/state_machine/sm_work.c:114-250 | the queue once an item runs holds everything else it held, and stays free of duplicates |
| `SmWork.AtMostOncePending` | invictus2/obc/src/services/state_machine/sm_work.c:80-85 | in a duplicate-free queue an item is pending at most once, and once exactly when it is on the queue |
| `SmWork.WorkFor` | invictus2/obc/src/services/state_machine/sm_work.c:87-112 | the packet and the three sensor channels each queue their own handler, never the state-machine run; any other channel queues nothing |
| `SmWork.ReadCheck` | invictus2/obc/src/services/state_machine/sm_work.c:46-65 | a read result of 0 goes on, -EBUSY resubmits the work item, -EFAULT, -EAGAIN and every other value return |
| `SmWork.CommandEffectCases` | invictus2/obc/src/services/state_machine/sm_work.c:114-202 | the command handler acts exactly on FILL_EXEC packets naming one of the four programs, then sets command and fill command and changes nothing but the filling configuration |
| `SmWork.ProgramTouchesOnlyItsSection` | invictus2/obc/src/services/state_machine/sm_work.c:131-196 | each fill program changes only its own section of the filling configuration |
| `SmWork.PressurePacket` | invictus2/obc/src/services/state_machine/sm_work.c:147-160 | the packet a ground station builds for a pressure program has the fixed frame size |
| `SmWork.N2oPacket` | invictus2/obc/src/services/state_machine/sm_work.c:162-175 | the packet a ground station builds for the N2O program has the fixed frame size |
| `SmWork.PrePressPacketSetsLimits` | invictus2/obc/src/services/state_machine/sm_work.c:147-160 | a pre-pressurizing packet sets each limit to the value sent, unless that value is zero, which keeps the old limit |
| `SmWork.PostPressPacketSetsLimits` | invictus2/obc/src/services/state_machine/sm_work.c:177-191 | a post-pressurizing packet sets each limit to the value sent, unless zero |
| `SmWork.N2PacketSetsLimits` | invictus2/obc/src/services/state_machine/sm_work.c:133-145 | an N2 packet sets the target and trigger pressures to the values sent, unless zero |
| `SmWork.N2oPacketSetsLimits` | invictus2/obc/src/services/state_machine/sm_work.c:162-175 | an N2O packet sets the target weight unless zero, and a non-zero signed trigger temperature is stored so that it reads back as sent |
| `SmWork.Service.Setup` | invictus2/obc/src/services/state_machine/sm_work.c:252-261 | setup runs `sm_init`: the machine is in IDLE with every valve closed, nothing pending and no run scheduled |
| `SmWork.Service.ScheduleRun` | invictus2/obc/src/services/state_machine/sm_work.c:80-85 | the run is submitted only when none is pending, and afterwards exactly one run is pending and the flag is set |
| `SmWork.Service.Listener` | invictus2/obc/src/services/state_machine/sm_work.c:87-112 | the listener queues the channel's work item and changes nothing else |
| `SmWork.Service.CommandWorkHandler` | invictus2/obc/src/services/state_machine/sm_work.c:114-202 | a busy read resubmits the handler, other failures drop it, an ignored packet changes nothing, and an accepted one sets the object as the command effect says and schedules one run |
| `SmWork.Service.SensorWorkHandler` | invictus2/obc/src/services/state_machine/sm_work.c:204-232 | a sensor handler that reads its data replaces that section and schedules a run; a busy read queues the command handler instead of itself; other failures change nothing |
| `SmWork.Service.WeightWorkHandler` | invictus2/obc/src/services/state_machine/sm_work.c:204-212 | the load cells are replaced exactly when the read succeeds, and a successful read schedules one state-machine run; a busy read queues the command handler; any other failure only removes the handler's own item and leaves the run flag as it was |
| `SmWork.Service.ThermoWorkHandler` | invictus2/obc/src/services/state_machine/sm_work.c:214-222 | the thermocouples are replaced exactly when the read succeeds, and a successful read schedules one state-machine run; a busy read queues the command handler; any other failure only removes the handler's own item and leaves the run flag as it was |
| `SmWork.Service.PressureWorkHandler` | invictus2/obc/src/services/state_machine/sm_work.c:224-232 | the pressures are replaced exactly when the read succeeds, and a successful read schedules one state-machine run; a busy read queues the command handler; any other failure only removes the handler's own item and leaves the run flag as it was |
| `SmWork.Service.StateMachineWorkHandler` | invictus2/obc/src/services/state_machine/sm_work.c:234-250 | the run clears the flag, takes one step of the main chart, then clears the command and fill command |
| `SmWork.PrePressNeedsTwoPackets` | invictus2/obc/src/services/state_machine/sm_work.c:114-250 | one pre-pressurizing packet only takes IDLE to FILL, and the same packet again reaches PRE_PRESS, with every valve closed |
| `SmWork.AssignNonZero` | invictus2/obc/src/services/state_machine/sm_work.c:74-79 | a zero parameter keeps the field's value, any other replaces it |
| `SmWork.ApplyProgram` | invictus2/obc/src/services/state_machine/sm_work.c:134-193 | each program writes its two limits into its own configuration section through ASSIGN_NON_ZERO; an unknown program changes nothing |
| `SmWork.CommandEffect` | invictus2/obc/src/services/state_machine/sm_work.c:120-202 | a packet other than FILL_EXEC, or with an unknown program, changes nothing; otherwise the limits are written and the command and fill command set |
| `ModbusStore.WithBitReadsBack` | lib/modbus/common.c:163 | setting or clearing a bit makes it read back as written |
| `ModbusStore.SetBitKeepsOtherBits` | lib/modbus/common.c:163 | setting a bit leaves every other bit of the byte unchanged |
| `ModbusStore.ClearBitKeepsOtherBits` | lib/modbus/common.c:163 | clearing a bit leaves every other bit of the byte unchanged |
| `ModbusStore.WithBitKeepsOtherBits` | lib/modbus/common.c:163 | writing a bit either way leaves every other bit of the byte unchanged |
| `ModbusStore.WithPackedBit` | lib/modbus/common.c:157-163 | writing a packed coil keeps the table length and changes no byte but the coil's own |
| `ModbusStore.PackedReadAfterWrite` | lib/modbus/common.c:138-166 | a coil read after a write of the same coil returns what was written |
| `ModbusStore.PackedWriteIsolated` | lib/modbus/common.c:138-166 | a coil write changes no other coil, in the same byte or another |
| `ModbusStore.OffsetFits` | lib/modbus/common.c:138-193 | for an address inside its region the item offset and the packed byte offset are inside a table of `count` items |
| `ModbusStore.Guard` | lib/modbus/common.c:8-18 | the access goes ahead exactly with a server, a table, an address in the region and the lock taken; -EINVAL for the first three failing, -EBUSY for the lock |
| `ModbusStore.Server.Blank` | lib/modbus/common.c:3 | a server before init has no tables |
| `ModbusStore.AllocBytes` | lib/modbus/common.c:5-59 | a byte table is NULL exactly for a count of 0 or a failed allocation, else fresh and `count` long |
| `ModbusStore.AllocWords` | lib/modbus/common.c:5-63 | a register table is NULL exactly for a count of 0 or a failed allocation, else fresh and `count` long |
| `ModbusStore.ServerInit` | lib/modbus/common.c:48-73 | -EINVAL for a NULL server; otherwise 0, the server takes the description, and each region has a fresh table exactly when it is non-empty and its allocation succeeded |
| `ModbusStore.Bus.Free` | lib/modbus/common.c:75-98 | -EINVAL for NULL, -EBUSY for the active server, 0 otherwise |
| `ModbusStore.Bus.Start` | lib/modbus/common.c:100-125 | -EINVAL for NULL, -EBUSY while another server is active; otherwise the server becomes active and the stack's result is returned |
| `ModbusStore.Bus.Stop` | lib/modbus/common.c:127-136 | -EINVAL unless the server is the active one; otherwise no server is active and the stack's result is returned |
| `ModbusStore.Bus.CoilRead` | lib/modbus/common.c:138-151 | the guard's verdict; on success the packed bit at the coil's offset, on an error the caller's value is kept |
| `ModbusStore.Bus.CoilWrite` | lib/modbus/common.c:153-166 | the guard's verdict; on success the table is the old one with that coil written, on an error no table changes |
| `ModbusStore.Bus.DiscreteInputRead` | lib/modbus/common.c:168-182 | the guard's verdict; on success the packed discrete input, else the caller's value |
| `ModbusStore.Bus.InputRegisterRead` | lib/modbus/common.c:184-193 | the guard's verdict; on success the register at `addr - start`, else the caller's value |
| `ModbusStore.Bus.HoldingRegisterRead` | lib/modbus/common.c:206-215 | the guard's verdict; on success the register at `addr - start`, else the caller's value |
| `ModbusStore.Bus.HoldingRegisterWrite` | lib/modbus/common.c:217-226 | the guard's verdict; on success exactly the register at `addr - start` changes, on an error nothing does |
| `ModbusStore.CoilRoundTrip` | lib/modbus/common.c:138-166 | when the coil table was allocated, a coil written through the bus reads back, and another coil keeps its value |
| `ModbusStore.HoldingRoundTrip` | lib/modbus/common.c:206-226 | when the register table was allocated, a holding register written through the bus reads back, and another register keeps its value |
| `ModbusStore.EmptyRegionRefuses` | lib/modbus/common.c:5-63 | an empty region, or one whose allocation failed, has no table, so every address of it answers -EINVAL |
| `ModbusStore.OneActiveServer` | lib/modbus/common.c:100-136 | a second start is refused while the first server is active; after it stops, the second starts |
| `ModbusConnection.ConnectionAfter` | invictus2/obc/src/services/modbus/internal/common.c:16-26 | the flag is 0 after a failed read, non-zero after a successful one, and a set flag is kept on success |
| `ModbusConnection.ConnectionCheckIdempotent` | invictus2/obc/src/services/modbus/internal/common.c:16-26 | checking the same read result twice leaves the flag as checking it once |
| `ModbusConnection.OnlyTheSignMatters` | invictus2/obc/src/services/modbus/internal/common.c:16-26 | every failed read acts alike, and so does every successful one |
| `ModbusConnection.CheckConnection` | invictus2/obc/src/services/modbus/internal/common.c:7-27 | nothing changes for a NULL label; otherwise only the flag changes, as `ConnectionAfter` says |
| `Hydra.Board.Poll` | invictus2/obc/src/services/modbus/hydra.c:45-54 | the board's registers take the values read exactly when the read succeeds, and its connection flag follows the read result |
| `Hydra.HydraBoards.Init` | invictus2/obc/src/services/modbus/hydra.c:10-33 | every board starts zeroed and disconnected, with the slave ids and register start addresses of the configuration |
| `Hydra.HydraBoards.ReadIrs` | invictus2/obc/src/services/modbus/hydra.c:35-67 | nothing changes for a negative interface; otherwise UF and LF are polled, and FS is polled only when the filling station is enabled, its registers and flag kept otherwise |
| `Hydra.IrsToZbus` | invictus2/obc/src/services/modbus/hydra.c:69-104 | the chamber temperature is always 0, the tank and chamber pressures come from LF, and with the filling station disabled every FS reading is 0 |
| `Hydra.FsIgnoredWhenDisabled` | invictus2/obc/src/services/modbus/hydra.c:80-102 | with the filling station disabled its registers have no influence on the readings |
| `Hydra.FsSwitchOnlyTouchesFsReadings` | invictus2/obc/src/services/modbus/hydra.c:85-102 | the UF and LF readings do not depend on the filling station switch, and with it enabled the FS readings are its registers |
| `Hydra.TemperaturesAreSigned` | invictus2/obc/src/services/modbus/hydra.c:85-93 | every temperature is the register read as a signed 16-bit value |
| `Hydra.PollWithFsDisabled` | invictus2/obc/src/services/modbus/hydra.c:35-104 | a cycle with the filling station disabled shows 0 for every FS sensor, the LF pressures and UF temperatures as read, and leaves the FS board disconnected |
| `Max31856.ReadCommand` | drivers/sensor/maxim/max31856/max31856.c:61 | a read command has bit 7 clear and is the register address itself |
| `Max31856.WriteCommand` | drivers/sensor/maxim/max31856/max31856.c:253 | a write command has bit 7 set above the register address |
| `Max31856.ThermocoupleRaw` | drivers/sensor/maxim/max31856/max31856.c:74 | the three received bytes are the high, middle and low bytes of a 24-bit value |
| `Max31856.ColdJunctionRaw` | drivers/sensor/maxim/max31856/max31856.c:90 | the two received bytes are the high and low bytes of the cold-junction value |
| `Max31856.Field19` | drivers/sensor/maxim/max31856/max31856.c:123 | the linearized temperature field has 19 bits |
| `Max31856.SignExtend19` | drivers/sensor/maxim/max31856/max31856.c:124-127 | the 19-bit field read as two's complement: within -2^18..2^18-1, negative exactly when bit 18 is set, and congruent to the field |
| `Max31856.ThermocoupleFieldOfBytes` | drivers/sensor/maxim/max31856/max31856.c:74-127 | the temperature field is eleven bits of the first two bytes and three of the third, and its sign is the top bit of the first byte |
| `Max31856.Split` | drivers/sensor/maxim/max31856/max31856.c:130-140 | whole and millionth parts recombine to the micro-degree value, with the millionths in 0..999999 and the whole part carrying the sign |
| `Max31856.ChannelGet` | drivers/sensor/maxim/max31856/max31856.c:114-149 | 0 with the converted ambient or die temperature, or -ENOTSUP with the value untouched for any other channel |
| `Max31856.AmbientRange` | drivers/sensor/maxim/max31856/max31856.c:120-133 | the ambient whole degrees lie within -2047..2047 and carry the sign of the raw field |
| `Max31856.DieRange` | drivers/sensor/maxim/max31856/max31856.c:135-142 | the die whole degrees lie within -512..511 |
| `Max31856.Max31856Data.SampleFetch` | drivers/sensor/maxim/max31856/max31856.c:38-112 | each SPI failure returns its code and leaves the later values as they were; on success both raw values are the received bytes and the fault read decides the result |
| `Max31856.FetchThenRead` | drivers/sensor/maxim/max31856/max31856.c:38-149 | a successful fetch followed by an ambient read reports the temperature the three bytes encode |
| `Max31856.Cr0FixedBits` | drivers/sensor/maxim/max31856/max31856.c:255-258 | configuration register 0 always selects automatic conversion, never a one-shot, and keeps the cold junction enabled |
| `Max31856.Cr0FaultMode` | drivers/sensor/maxim/max31856/max31856.c:257 | the open-circuit fault mode is kept to bits 5..4 |
| `Max31856.Cr0Flags` | drivers/sensor/maxim/max31856/max31856.c:259-261 | fault mode and fault clear are set exactly when a fault GPIO is wired, and bit 0 is the 50 Hz filter |
| `Max31856.Cr1Fields` | drivers/sensor/maxim/max31856/max31856.c:265-267 | configuration register 1 holds the averaging mode in bits 6..4 and the thermocouple type in bits 3..0, bit 7 clear |
| `Max31856.ConfigFrame` | drivers/sensor/maxim/max31856/max31856.c:251-272 | the configuration burst starts with the write command for register 0 and masks every fault |
| `Max31856.Init` | drivers/sensor/maxim/max31856/max31856.c:204-297 | -ENODEV without a ready SPI bus, a negative code and at most one frame on any failure, and on success the configuration burst then the cold-junction offset |
| `Max31856.OffsetWriteIgnored` | drivers/sensor/maxim/max31856/max31856.c:288-296 | a failed cold-junction offset write does not change the result of initialisation |
| `Max31856.Cr0` | drivers/sensor/maxim/max31856/max31856.c:255-262 | configuration register 0 built from its seven shifted and masked fields |
| `Max31856.Cr1` | drivers/sensor/maxim/max31856/max31856.c:264-267 | configuration register 1 built from the averaging mode and the thermocouple type |
| `Pressures.MvToMbar` | invictus2/hydra/src/pressures.c:8-11 | the result is the reading times the full scale divided by 10, truncated toward zero, plus the minimum |
| `Pressures.ZeroIsMinimum` | invictus2/hydra/src/pressures.c:8-11 | a zero reading is exactly the sensor's minimum |
| `Pressures.CDivMonotone` | invictus2/hydra/src/pressures.c:10 | C's truncating division by 10 keeps an order |
| `Pressures.MonotoneInReading` | invictus2/hydra/src/pressures.c:8-11 | with a non-negative full scale the pressure never falls as the reading rises |
| `Pressures.NegativeTruncatesTowardMinimum` | invictus2/hydra/src/pressures.c:10 | example: a product of -15 gives `min_bar - 1` and one of -5 gives `min_bar`, so the division truncates toward zero, one step above floored division |
| `UartShell.StepByte` | invictus2/obc/src/lora_uart_shell.c:24-52 | one received byte keeps the assembler's invariant: the NUL slot fits and the queue holds at most ten messages |
| `UartShell.Feed` | invictus2/obc/src/lora_uart_shell.c:24-52 | any run of bytes keeps the assembler's invariant |
| `UartShell.FeedText` | invictus2/obc/src/lora_uart_shell.c:47-50 | text without line endings is appended to the buffered line up to 31 bytes, the rest of the buffer and the queue untouched |
| `UartShell.LinePosted` | invictus2/obc/src/lora_uart_shell.c:37-48 | a line and its ending into an empty buffer with room in the queue post one message, its first 31 bytes and a NUL, and restart the line |
| `UartShell.LeadingLineEndIsData` | invictus2/obc/src/lora_uart_shell.c:38-48 | a line ending with nothing buffered is stored as an ordinary byte |
| `UartShell.FullQueueDropsLine` | invictus2/obc/src/lora_uart_shell.c:42-46 | with the queue full a completed line is dropped but the buffer still restarts |
| `UartShell.LineAssembler.SerialCallback` | invictus2/obc/src/lora_uart_shell.c:24-52 | without an update and a ready receiver nothing changes; otherwise the state is the old one fed the FIFO's bytes |
| `UartShell.LineAssembler.ReceiveByte` | invictus2/obc/src/lora_uart_shell.c:38-50 | one FIFO byte updates the buffer, position and queue exactly as the one-byte step says, keeping the NUL slot and the ten-message bound |
| `UartShell.LineAssembler.TakeMessage` | invictus2/obc/src/lora_uart_shell.c:12-14 | the consumer takes the oldest message, or none from an empty queue |
| `CommandProcessor.NamesAreTheTable` | scripts/obc_monitor/commands.py:11-21 | the command names are exactly the table's keys, each once, in the order the help and error texts list them |
| `CommandProcessor.CommandValuesMatchFirmware` | scripts/obc_monitor/commands.py:6-21 | each name's command word equals the firmware's filling command of that name |
| `CommandProcessor.DropSpaces` | scripts/obc_monitor/commands.py:35-42 | stripping drops exactly a leading run of whitespace, and what is left does not start with whitespace |
| `CommandProcessor.TakeWord` | scripts/obc_monitor/commands.py:42 | a word is a whitespace-free prefix that ends at whitespace or at the end of the text |
| `CommandProcessor.WordsAreWords` | scripts/obc_monitor/commands.py:42 | every word `split()` yields is non-empty and holds no whitespace |
| `CommandProcessor.BlankIffNoWords` | scripts/obc_monitor/commands.py:35-43 | a command is blank exactly when it has no words, so every other command has a first word |
| `CommandProcessor.Lower` | scripts/obc_monitor/commands.py:43-109 | lower-casing keeps the length and maps each character on its own |
| `CommandProcessor.Upper` | scripts/obc_monitor/commands.py:74 | upper-casing keeps the length and maps each character on its own |
| `CommandProcessor.LowerOfLower` | scripts/obc_monitor/commands.py:43-99 | text without upper-case letters is its own lower case |
| `CommandProcessor.NatToString` | scripts/obc_monitor/commands.py:106-120 | a number prints as decimal digits only, one digit exactly below ten, with no leading zero except for zero itself |
| `CommandProcessor.DigitsOf` | scripts/obc_monitor/commands.py:98-103 | a token has a value exactly when it is a non-empty run of ASCII digits, and `str` of that value is the run without its leading zeros |
| `CommandProcessor.ParseInt` | scripts/obc_monitor/commands.py:98-103 | `int()`'s grammar: a value exactly when the token after an optional sign is a non-empty run of digits; `str` of its magnitude is those digits without leading zeros, and it is negative exactly when the sign is a minus and the digits are not all zero |
| `CommandProcessor.DigitsOfNat` | scripts/obc_monitor/commands.py:98-120 | a number's digits read back as the number |
| `CommandProcessor.IntRoundTrip` | scripts/obc_monitor/commands.py:98-120 | every integer the replies print parses back to itself |
| `CommandProcessor.HexDigits` | scripts/obc_monitor/commands.py:77 | the zero-padded text has exactly `k` upper-case hexadecimal digits and reads back as the value modulo 16 to the `k` |
| `CommandProcessor.HexRoundTrip` | scripts/obc_monitor/commands.py:77 | the hexadecimal digits read back as the value they were written from |
| `CommandProcessor.CommandPayload` | scripts/obc_monitor/commands.py:77 | the payload is `normal 0x` followed by eight digits, 17 characters in all |
| `CommandProcessor.PayloadCarriesValue` | scripts/obc_monitor/commands.py:77 | the payload's digits name the command word exactly |
| `CommandProcessor.Remember` | scripts/obc_monitor/commands.py:38-40 | the history ends with the new command, gains it at the end and loses at most its oldest entry, and never grows past 100 |
| `CommandProcessor.HistoryLines` | scripts/obc_monitor/commands.py:138-141 | `history` lists the last ten entries, oldest first, numbered from 1 |
| `CommandProcessor.VerbNames` | scripts/obc_monitor/commands.py:46-158 | example: each command word names its own branch, `quit` and `exit` the same one, and any other word the unknown branch |
| `CommandProcessor.CommandVerb` | scripts/obc_monitor/commands.py:42-43 | the branch of a non-blank command is chosen by its first word, lower-cased |
| `CommandProcessor.Respond` | scripts/obc_monitor/commands.py:44-160 | `clear` replies with one line and no echo; every other reply starts with the echo; `quit` and `exit` end with the QUIT marker |
| `CommandProcessor.Repr` | scripts/obc_monitor/commands.py:125-126 | a refused token is quoted as Python's `repr` quotes it: single quotes unless it holds a single quote and no double quote, and a token of plain characters appears unchanged between them |
| `CommandProcessor.RenderAll` | scripts/obc_monitor/commands.py:44-160 | the printed reply has one text per reply line, each the rendering of its line, in order |
| `CommandProcessor.PlainLinesPrintTexts` | scripts/obc_monitor/commands.py:47-137 | the help, usage and status lines print exactly as written |
| `CommandProcessor.RenderFirst` | scripts/obc_monitor/commands.py:44-160 | printing a reply prints its first line, then the rest |
| `CommandProcessor.EchoPrintedFirst` | scripts/obc_monitor/commands.py:44 | a reply that opens with the echo prints `> ` and the command as typed first |
| `CommandProcessor.CmdSendsTableValue` | scripts/obc_monitor/commands.py:72-86 | a known name sends its command word as `normal 0x` and eight hex digits; an unknown one sends nothing and says so |
| `CommandProcessor.ShortModbusOnlyUsage` | scripts/obc_monitor/commands.py:87-95 | `modbus` with fewer than five words prints only the usage and calls no simulator |
| `CommandProcessor.CoilValue` | scripts/obc_monitor/commands.py:108-113 | once slave and index parse, a coil command sets the coil on exactly for the truthy tokens |
| `CommandProcessor.TruthyTokensOn` | scripts/obc_monitor/commands.py:109 | example: 1, TRUE, Yes and on set a coil on |
| `CommandProcessor.TruthyTokensOff` | scripts/obc_monitor/commands.py:109 | example: 0, false, y and the empty token leave the coil off |
| `CommandProcessor.Processor.ProcessCommand` | scripts/obc_monitor/commands.py:33-160 | a blank command replies nothing and is not remembered; any other is remembered first and replied to as `Respond` says |
| `CommandProcessor.Words` | scripts/obc_monitor/commands.py:42 | the words of `command.strip().split()` |
| `CommandProcessor.Dispatch` | scripts/obc_monitor/commands.py:46-158 | the reply lines and the collaborator call of each verb's branch |
| `CommandProcessor.CmdReply` | scripts/obc_monitor/commands.py:72-86 | usage without a name; a known upper-cased name sends its payload and reports whether the send succeeded; an unknown one lists the names and sends nothing |
| `CommandProcessor.ModbusReply` | scripts/obc_monitor/commands.py:87-100 | usage with fewer than five words; otherwise the slave id and the index through `int()`, the first failure reported |
| `CommandProcessor.ModbusWrite` | scripts/obc_monitor/commands.py:101-128 | by register kind: a coil takes the truthy test, a holding or input register the value through `int()`; the simulator is called once, its exception reported; an unknown kind lists the valid ones |
| `CommandProcessor.RenderMessage` | scripts/obc_monitor/commands.py:44-158 | the text of each reply line the script composes, with `int()`'s two ValueError messages |
| `CommandProcessor.IntOf` | scripts/obc_monitor/commands.py:98-120 | `int()` in full: more than 4300 digits after the sign give the limit error with their count, whatever follows; otherwise the token parses exactly when `ParseInt` accepts it, to the same value |
| `CommandProcessor.OverlongValueRefused` | scripts/obc_monitor/commands.py:101-125 | a register value with more than 4300 digits is refused with the limit error and no simulator is called |
| `CommandProcessor.ParsedValuesFit` | scripts/obc_monitor/commands.py:98-120 | every value `int()` returns is written back by `str` in at most 4300 digits |
| `CommandProcessor.IntOfRoundTrip` | scripts/obc_monitor/commands.py:98-120 | an integer `str` writes in at most 4300 digits is read back by `int()` unchanged |
| `Bytes.CDiv` | invictus2/hydra/src/pressures.c:10 | C's division with a positive divisor truncates toward zero: the remainder has the dividend's sign and is smaller than the divisor |
| `Bytes.CMod` | drivers/sensor/maxim/max31856/max31856.c:131 | C's remainder takes the sign of the dividend and recombines with the truncated quotient |
| `Bytes.AsInt16` | invictus2/obc/src/services/state_machine/sm_work.c:169 | a 16-bit pattern read as `int16_t` is congruent to it and negative exactly when its top bit is set |
| `Bytes.Int16Bits` | invictus2/obc/src/services/state_machine/sm_work.c:169-172 | the stored 16 bits of a signed value read back as that value |
| `Bytes.LeU16` | invictus2/obc/include/packets.h:62-78 | a little-endian 16-bit field is its low byte plus 256 times its high byte |
| `Bytes.U16Bytes` | invictus2/obc/include/packets.h:62-78 | the two bytes a 16-bit field occupies read back as the field |

## Left out

- The Zephyr SMF library is not part of this model. `Smf` models the behaviour the state tables rely on. That behaviour: a run propagates to the parent unless it set a state or marked the event handled; a transition exits to the common ancestor, enters down to the target, then follows initial children.
- Threads, work-queue threads, zbus channels and semaphores are not modelled. In `SmWork` the work queue is a sequence of pending items and every handler call is sequential. A zbus read is a return code plus the data it copied. Publishing the rocket state after a run is not modelled, because its only effect is a log line on failure.
- `CHECK_PARAMS` in `sm_work.c` can never fail: the parameters are an array inside the packet, not a pointer that can be NULL. The model always has them.
- LOG_* calls, `LOG_HEXDUMP_DBG` and the read-back `check_config` in the MAX31856 driver only log, so they are left out.
- The `k_oops` on NULL pointers in `hydra_boards_irs_to_zbus_rep` is left out, because the model has no NULL pointers there.
- `Hydra.HydraBoards.Init`: the NULL board set that `hydra_boards_init` ignores is not modelled, because a constructor always has its object.
- Some names the state-machine sources use are undeclared, so the model reads each as follows.
  - `FILL_SST(FILL)` in the newer main machine's table is read as the N2 fill group.
  - The `FILL_N2_VENT` row names a state the enumeration does not declare, so it is left out.
  - `toggle_valve(s, v)`, which the N2O vent entry calls, is read as flipping the valve, because the header only declares `valve_toggle` with an explicit state.
  - `VALVE_TANK_TOP` in the second filling machine is kept as a valve of its own.
  - Sensor fields reached through mismatched `data.*` paths are plain integer readings.
  - `FlightSm`: `flight_sm.c` transitions to `states[IGNITION]`, `states[BOOST]`, `states[COAST]` and `states[APOGEE]`, but `flight_state_t` declares FLIGHT_LAUNCH to FLIGHT_TOUCHDOWN and no such values. The model reads the seven phases the runs name as a chart of their own, with no parent and no initial child.
  - `FlightSm`: `boost_vertical_speed`, `coast_vertical_speed` and `touchdown_altitude` are not fields of `struct flight_sm_config`, which has only `min_chamber_launch_temp` and `main_chute_deploy_altitude`. The model gives the flight configuration those three extra integer limits.
  - `FlightSm`: `s->data.kalman.vertical_speed` and `s->data.kalman.altitude` are not in `data_models.h`, which has the navigator's int16 `kalman_vel_z` and `kalman_alt`. The model reads them as an unbounded vertical speed and altitude.
  - `MainSm`: the bare `states[PRE_PRESS]`, `states[FILL_N2O]` and `states[POST_PRESS]` in the run actions are read as the fill group states `FILL_SST(...)` of the table. The bare `states[FILL]` that `fill_run` sets for `CMD_FILL_N2` is kept as written: the N2 program re-enters FILL itself, so the N2 fill group is never entered from FILL.
  - `MainSm`: the table names `fill_n2_*` callbacks, which nothing declares. The model gives the N2 fill states the behaviour of the `filling_copv_*` functions that `state_machine/filling_sm.c` defines, and reads their limits from the `f_copv` member of the configuration.
  - `MainSm`: the table names `fill_n2o_*` callbacks, which nothing declares either. The model gives the N2O fill states the behaviour of the `filling_n2o_*` functions of `state_machine/filling_sm.c` (lines 218-299).
  - `MainSm`: `state_machine/filling_sm.c` reaches the configuration in two ways: as `s->config->safe_pause`, `f_copv`, `pre_p` and `f_n2o` (lines 64-243), and as `s->config->filling_sm_config.safe_pause`, `.f_n2o` and `.post_p` (lines 43 and 265-377). The model reads both as the one `filling_sm_config` structure of the object's configuration.
  - `MainSm`: `state_machine/filling_sm.c` calls `CMD_GLOBAL`, which only the older `filling_sm.h` defines. The model reads it as that header's low-byte mask.
  - `MainSm`: `close_all_valves` clears `rocket_valves_mask`, `fill_station_valves_mask` and `quick_dc_mask`, which the actuator structure does not declare. The model reads them by name, as closing every valve.
  - `RocketState`: `services/rocket_state/main_sm.c` uses `CMD_GLOBAL` and `struct filling_sm_object`, which only `filling_sm.h` declares and which its own header's includes do not reach. The model takes both from that header.
  - `SmWork`: the N2 fill program writes `fill_cfg->fill_n2.*`, but `struct filling_sm_config` calls that member `f_copv` (of type `struct filling_copv`). The model writes `f_copv`.
  - `SmWork`: the N2 fill program also writes `fill_n2.trigger_n2_tank_pressure`, but `struct filling_copv` has only `target_n2_tank_pressure`. The model gives the copv section a second field, `triggerN2TankPressure`, which the program writes and nothing reads.
  - `SmWork`: the other three programs write `fill_cfg->pre_press`, `fill_cfg->fill_n2o` and `fill_cfg->post_press`, which the structure calls `pre_p`, `f_n2o` and `post_p`. The model writes those members.
  - `SmWork`: `sm_obj.config` is never assigned in `sm_work.c`, yet the command handler dereferences it. The model takes the object's configuration as always present and well formed; it starts as the configuration given to `Setup`.
- Valve bitmasks are modelled as the set of open valves. The e-match bits are three booleans. The `valve_states` raw overlay and the `filling_data` `raw[4]` overlay are layout only and are not modelled.
- The Modbus floating-point register callbacks (`*_fp`) are left out, because they use floating point. The register mutex is a lock attempt that succeeds or gives -EBUSY. The unlock result is taken as 0.
- `modbus_server_free` returns the right code, but releasing the tables is not modelled, because Dafny has no deallocation.
- The Modbus stack's `modbus_init_server` and `modbus_disable` are foreign calls, so their results are parameters.
- The Modbus client used by `hydra_boards_read_irs` is a foreign call. Each read is its return code and the registers it delivered. `services/modbus/internal/hydra.c` and `obc/src/hydra.c` are older copies and are not part of this model.
- The SPI transfers and GPIO checks of the MAX31856 driver are foreign calls, so each is its return code and the bytes received. The DRDY GPIO is modelled like the fault GPIO.
- `Pressures.MvToMbar`: the 32-bit overflow of `mv * max_bar`, which C leaves undefined, is excluded by its precondition rather than modelled.
- `lora_uart_setup` and the consumer thread are not modelled. Only the receive callback and taking a message from the queue are.
- `CommandProcessor`: `str.lower`, `str.upper` and `str.split` are modelled on ASCII letters and ASCII whitespace only. Unicode case mapping and Unicode whitespace are not modelled. `repr`'s escapes for non-printable characters above ASCII are not modelled either.
- `CommandProcessor.ParseInt`: `int()` is modelled for an optional sign and ASCII digits. Underscores between digits, surrounding whitespace and non-ASCII digits, which Python also accepts, are not modelled. `IntOf` adds the digit limit of CPython 3.11 and later at its default of 4300 (the script never changes it); interpreters without the limit are not modelled.
- The status lines, UART send results and simulator exceptions come from collaborators, so they are parameters. An exception's text is a parameter too.
- The telemetry STATUS_REP structures that reinterpret float bits are left out, because they use floating point.
- `invictus2/obc/include/commands.h` is a third copy of the packet layout with no pack or unpack, so it is not part of this model. Neither is `fake_backend_uart.c`, a copy of the line assembler, nor the command processor copied into `obc_uart_tui.py`.
- Python terminal interfaces, serial listeners, Modbus simulators, LoRa plumbing and board drivers other than the MAX31856 are not part of this model. They are I/O and thread glue.

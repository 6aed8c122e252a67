/**
 * The ground-side text command dispatcher of the OBC monitor
 * (`scripts/obc_monitor/commands.py`): each line the operator types is
 * remembered in a bounded history, split into words, and dispatched on its
 * first word. `cmd NAME` sends a filling machine command word over the UART
 * as `normal 0x` and eight upper-case hexadecimal digits; `modbus` sets a
 * register or a coil of the Modbus slave simulator; the reply is a list of
 * lines, starting with an echo of the command.
 *
 * The UART listener and the Modbus simulator are collaborators: whether a
 * send succeeds, the status lines and an error the simulator raises are
 * parameters, and the call made to them is part of the result.
 */
module CommandProcessor {
  import opened Bytes
  import FillCommands

  // ---------------------------------------------------------------------------
  // The command table
  // ---------------------------------------------------------------------------

  const CMD_GLOBAL_START: int := 0x0000_0001
  const CMD_IDLE_START: int := 0x0000_0100
  const CMD_OTHER_START: int := 0x0001_0000

  /** The names of `CMD_MAP`, in the dictionary's order. */
  const CMD_NAMES: seq<string> :=
    ["STOP", "ABORT", "PAUSE", "FILL_COPV", "PRE_PRESSURIZE", "FILL_N20", "POST_PRESSURIZE", "READY", "RESUME"]

  const CMD_MAP: map<string, int> := map[
    "STOP" := CMD_GLOBAL_START,
    "ABORT" := CMD_GLOBAL_START + 1,
    "PAUSE" := CMD_GLOBAL_START + 2,
    "FILL_COPV" := CMD_IDLE_START,
    "PRE_PRESSURIZE" := CMD_IDLE_START + 1,
    "FILL_N20" := CMD_IDLE_START + 2,
    "POST_PRESSURIZE" := CMD_IDLE_START + 3,
    "READY" := CMD_OTHER_START,
    "RESUME" := CMD_OTHER_START + 1]

  const MAX_HISTORY: nat := 100
  const HISTORY_SHOWN: nat := 10

  /** The table lists each name once, in the order the help and error texts print them. */
  lemma NamesAreTheTable()
    ensures forall n :: n in CMD_MAP <==> n in CMD_NAMES
    ensures forall i, j :: 0 <= i < j < |CMD_NAMES| ==> CMD_NAMES[i] != CMD_NAMES[j]
  {
  }

  /** The words the script sends are the firmware's filling commands (`filling_sm.h`), name by name. */
  lemma CommandValuesMatchFirmware()
    ensures CMD_MAP["STOP"] == FillCommands.CMD_STOP as int
    ensures CMD_MAP["ABORT"] == FillCommands.CMD_ABORT as int
    ensures CMD_MAP["PAUSE"] == FillCommands.CMD_PAUSE as int
    ensures CMD_MAP["FILL_COPV"] == FillCommands.CMD_FILL_COPV as int
    ensures CMD_MAP["PRE_PRESSURIZE"] == FillCommands.CMD_PRE_PRESSURIZE as int
    ensures CMD_MAP["FILL_N20"] == FillCommands.CMD_FILL_N2O as int
    ensures CMD_MAP["POST_PRESSURIZE"] == FillCommands.CMD_POST_PRESSURIZE as int
    ensures CMD_MAP["READY"] == FillCommands.CMD_READY as int
    ensures CMD_MAP["RESUME"] == FillCommands.CMD_RESUME as int
  {
  }

  // ---------------------------------------------------------------------------
  // Text
  // ---------------------------------------------------------------------------

  /** The ASCII characters `str.split()` and `str.strip()` treat as whitespace. */
  predicate IsSpace(c: char) {
    c == ' ' || c == '\t' || c == '\n' || c == '\r' || c == '\U{0B}' || c == '\U{0C}'
    || c == '\U{1C}' || c == '\U{1D}' || c == '\U{1E}' || c == '\U{1F}'
  }

  /** `not command.strip()`: nothing but whitespace. */
  predicate Blank(s: string) {
    forall i :: 0 <= i < |s| ==> IsSpace(s[i])
  }

  function DropSpaces(s: string): (r: string)
    ensures |r| <= |s| && r == s[|s| - |r|..]
    ensures r != [] ==> !IsSpace(r[0])
    ensures Blank(s[..|s| - |r|])
  {
    if s != [] && IsSpace(s[0]) then DropSpaces(s[1..]) else s
  }

  function TakeWord(s: string): (w: string)
    ensures |w| <= |s| && w == s[..|w|]
    ensures forall i :: 0 <= i < |w| ==> !IsSpace(w[i])
    ensures |w| < |s| ==> IsSpace(s[|w|])
  {
    if s != [] && !IsSpace(s[0]) then [s[0]] + TakeWord(s[1..]) else []
  }

  /** `str.split()` with no separator: the maximal runs of non-whitespace characters, in order. */
  function Words(s: string): (ws: seq<string>)
    decreases |s|
  {
    var t := DropSpaces(s);
    if t == [] then []
    else
      var w := TakeWord(t);
      [w] + Words(t[|w|..])
  }

  /** A word of `str.split()`: at least one character, none of them whitespace. */
  predicate IsWord(w: string) {
    w != [] && forall i :: 0 <= i < |w| ==> !IsSpace(w[i])
  }

  /** Every word is non-empty and holds no whitespace. */
  lemma {:induction false} WordsAreWords(s: string)
    ensures forall w :: w in Words(s) ==> IsWord(w)
    decreases |s|
  {
    var t := DropSpaces(s);
    if t != [] {
      var w := TakeWord(t);
      assert t[0] == w[0];
      WordsAreWords(t[|w|..]);
      assert Words(s) == [w] + Words(t[|w|..]);
    }
  }

  /** A command is blank exactly when it has no words, so every other command has a first word. */
  lemma {:induction false} BlankIffNoWords(s: string)
    ensures Blank(s) <==> Words(s) == []
  {
    var t := DropSpaces(s);
    if t == [] {
      assert s[..|s|] == s;
    } else {
      assert s[|s| - |t|] == t[0];
    }
  }

  function LowerChar(c: char): char {
    if 'A' <= c <= 'Z' then (c as int + 32) as char else c
  }

  function UpperChar(c: char): char {
    if 'a' <= c <= 'z' then (c as int - 32) as char else c
  }

  /** `str.lower()` on ASCII letters. */
  function Lower(s: string): (r: string)
    ensures |r| == |s| && forall i :: 0 <= i < |s| ==> r[i] == LowerChar(s[i])
  {
    if s == [] then [] else [LowerChar(s[0])] + Lower(s[1..])
  }

  /** `str.upper()` on ASCII letters. */
  function Upper(s: string): (r: string)
    ensures |r| == |s| && forall i :: 0 <= i < |s| ==> r[i] == UpperChar(s[i])
  {
    if s == [] then [] else [UpperChar(s[0])] + Upper(s[1..])
  }

  /** Text without upper-case letters is its own lower case. */
  lemma {:induction false} LowerOfLower(s: string)
    requires forall i :: 0 <= i < |s| ==> !('A' <= s[i] <= 'Z')
    ensures Lower(s) == s
  {
    if s != [] {
      LowerOfLower(s[1..]);
    }
  }

  /** `sep.join(parts)`. */
  function Join(parts: seq<string>, sep: string): string {
    if parts == [] then ""
    else if |parts| == 1 then parts[0]
    else parts[0] + sep + Join(parts[1..], sep)
  }

  // ---------------------------------------------------------------------------
  // Numbers
  // ---------------------------------------------------------------------------

  function DigitChar(d: nat): char
    requires d < 10
  {
    ('0' as int + d) as char
  }

  predicate IsDigit(c: char) {
    '0' <= c <= '9'
  }

  function DigitValue(c: char): nat
    requires IsDigit(c)
  {
    c as int - '0' as int
  }

  /**
   * The decimal digits of a natural number, most significant first, as
   * `str(n)` writes them: only digits, one alone below ten, and no leading
   * zero except for zero itself.
   */
  function NatToString(n: nat): (s: string)
    ensures |s| >= 1 && forall i :: 0 <= i < |s| ==> IsDigit(s[i])
    ensures |s| == 1 <==> n < 10
    ensures s[0] == '0' <==> n == 0
    decreases n
  {
    if n < 10 then [DigitChar(n)] else NatToString(n / 10) + [DigitChar(n % 10)]
  }

  /** `str(n)` for an integer: a minus sign before a negative number's digits. */
  function IntToString(n: int): string {
    if n < 0 then "-" + NatToString(-n) else NatToString(n)
  }

  /** A non-empty run of ASCII digits and nothing else. */
  predicate IsNumeral(s: string) {
    s != [] && forall i :: 0 <= i < |s| ==> IsDigit(s[i])
  }

  /**
   * A run of digits without its leading zeros, keeping at least one digit:
   * the way `str` writes the number the run denotes.
   */
  function StripZeros(s: string): (t: string)
    ensures |t| <= |s| && (s != [] ==> t != [])
  {
    if |s| > 1 && s[0] == '0' then StripZeros(s[1..]) else s
  }

  /** Stripping commutes with appending a digit, except that a lone zero gives way to it. */
  lemma {:induction false} StripZerosAppend(p: string, c: char)
    requires p != []
    ensures StripZeros(p + [c]) == if StripZeros(p) == "0" then [c] else StripZeros(p) + [c]
  {
    if |p| > 1 && p[0] == '0' {
      assert (p + [c])[1..] == p[1..] + [c];
      StripZerosAppend(p[1..], c);
    } else if |p| == 1 && p[0] == '0' {
      assert p == "0";
      assert (p + [c])[1..] == [c];
    }
  }

  /**
   * The value of a run of ASCII digits: there is one exactly when the run is
   * non-empty and holds nothing else, and `str` of it is the run without its
   * leading zeros.
   */
  function DigitsOf(s: string): (r: Option<nat>)
    ensures r.Some? <==> IsNumeral(s)
    ensures r.Some? ==> NatToString(r.value) == StripZeros(s)
    decreases |s|
  {
    if s == [] || !IsDigit(s[|s| - 1]) then None
    else if |s| == 1 then Some(DigitValue(s[0]))
    else
      var p, c := s[..|s| - 1], s[|s| - 1];
      assert s == p + [c];
      assert IsNumeral(s) <==> IsNumeral(p) by {
        assert forall i :: 0 <= i < |p| ==> p[i] == s[i];
      }
      match DigitsOf(p)
      case None => None
      case Some(v) =>
        var n := v * 10 + DigitValue(c);
        StripZerosAppend(p, c);
        assert n / 10 == v && n % 10 == DigitValue(c);
        assert v != 0 ==> NatToString(v) != "0";
        Some(n)
  }

  /** A token without the sign `int()` allows in front of the digits. */
  function Unsigned(s: string): (u: string)
    ensures u == s || (s != [] && u == s[1..])
  {
    if s != [] && (s[0] == '-' || s[0] == '+') then s[1..] else s
  }

  /**
   * `int(token)`'s grammar for a token without whitespace: an optional sign
   * and a run of ASCII digits. The value is written by `str` as those digits
   * without leading zeros, negative exactly when the sign is a minus and the
   * digits are not all zero.
   */
  function ParseInt(s: string): (r: Option<int>)
    ensures r.Some? <==> IsNumeral(Unsigned(s))
    ensures r.Some? ==> s != [] && NatToString(if r.value < 0 then -r.value else r.value) == StripZeros(Unsigned(s))
    ensures r.Some? ==> (r.value < 0 <==> s[0] == '-' && r.value != 0)
  {
    match DigitsOf(Unsigned(s))
    case None => None
    case Some(v) =>
      var n: int := v;
      Some(if s[0] == '-' then -n else n)
  }

  /** The most digits `int()` converts from a string by default (`sys.get_int_max_str_digits()`). */
  const MAX_STR_DIGITS: nat := 4300

  /** The number of digits at the start of a string. */
  function LeadingDigits(s: string): (n: nat)
    ensures n <= |s| && (forall i :: 0 <= i < n ==> IsDigit(s[i])) && (n < |s| ==> !IsDigit(s[n]))
  {
    if s != [] && IsDigit(s[0]) then 1 + LeadingDigits(s[1..]) else 0
  }

  /** What `int(token)` does: a value, the digit-limit ValueError with its count, or the invalid-literal ValueError. */
  datatype IntParse = Parsed(value: int) | TooManyDigits(digits: nat) | BadLiteral

  /**
   * `int(token)` in full: more than MAX_STR_DIGITS digits after the sign are
   * refused with their count, whatever follows them; otherwise the grammar
   * decides.
   */
  function IntOf(s: string): (r: IntParse)
    ensures r.TooManyDigits? <==> LeadingDigits(Unsigned(s)) > MAX_STR_DIGITS
    ensures r.TooManyDigits? ==> r.digits == LeadingDigits(Unsigned(s))
    ensures r.Parsed? <==> ParseInt(s).Some? && |Unsigned(s)| <= MAX_STR_DIGITS
    ensures r.Parsed? ==> ParseInt(s) == Some(r.value)
  {
    var run := LeadingDigits(Unsigned(s));
    if run > MAX_STR_DIGITS then TooManyDigits(run)
    else
      match ParseInt(s)
      case None => BadLiteral
      case Some(n) => Parsed(n)
  }

  lemma {:induction false} DigitsOfNat(n: nat)
    ensures DigitsOf(NatToString(n)) == Some(n)
    decreases n
  {
    if n >= 10 {
      var s := NatToString(n);
      assert s[..|s| - 1] == NatToString(n / 10);
      DigitsOfNat(n / 10);
    }
  }

  /** Every integer the replies print parses back to itself. */
  lemma IntRoundTrip(n: int)
    ensures ParseInt(IntToString(n)) == Some(n)
  {
    DigitsOfNat(if n < 0 then -n else n);
    if n < 0 {
      assert IntToString(n)[1..] == NatToString(-n);
    }
  }

  predicate IsUpperHex(c: char) {
    '0' <= c <= '9' || 'A' <= c <= 'F'
  }

  function HexChar(d: nat): (c: char)
    requires d < 16
    ensures IsUpperHex(c) && HexValue(c) == d
  {
    if d < 10 then DigitChar(d) else ('A' as int + d - 10) as char
  }

  function HexValue(c: char): nat {
    if '0' <= c <= '9' then c as int - '0' as int
    else if 'A' <= c <= 'F' then c as int - 'A' as int + 10
    else 0
  }

  /** The number of values `k` hexadecimal digits can write: at least one, and at least 16 once there is a digit. */
  function Pow16(k: nat): (p: nat)
    ensures p >= 1 && (k > 0 ==> p >= 16 && p % 16 == 0)
  {
    if k == 0 then 1 else 16 * Pow16(k - 1)
  }

  /** Splitting off the last hexadecimal digit: the low `k + 1` digits of `v` are the low `k` digits of `v / 16`, then `v % 16`. */
  lemma LowDigitsStep(v: nat, p: nat)
    requires p >= 1
    ensures ((v / 16) % p) * 16 + v % 16 == v % (16 * p)
  {
    var q, r := v / 16, v % 16;
    var a, b := q / p, q % p;
    assert v == 16 * p * a + (16 * b + r) by {
      assert v == 16 * q + r;
      assert q == p * a + b;
    }
    assert 0 <= 16 * b + r < 16 * p;
    ModOfSplit(v, 16 * p, a, 16 * b + r);
  }

  /** The remainder is the part of a split below the divisor. */
  lemma ModOfSplit(x: nat, m: nat, a: nat, c: nat)
    requires 0 <= c < m && x == m * a + c
    ensures x % m == c
  {
    var q, r := x / m, x % m;
    assert m * (q - a) == c - r;
    assert 0 - m < c - r < m;
    MulBounds(m, q - a);
  }

  /** A non-zero multiple of `m` is at least `m` away from zero. */
  lemma MulBounds(m: int, d: int)
    requires m > 0
    ensures d >= 1 ==> m * d >= m
    ensures d <= -1 ==> m * d <= -m
  {
    if d >= 1 {
      assert m * d == m + m * (d - 1);
    }
    if d <= -1 {
      assert m * d == -m + m * (d + 1);
    }
  }

  /**
   * The last `k` upper-case hexadecimal digits of `v`, zero-padded:
   * `format(v, "0{k}X")` for `v < 16^k`. Read back, they are `v` modulo
   * `16^k`.
   */
  function HexDigits(v: nat, k: nat): (s: string)
    ensures |s| == k && forall i :: 0 <= i < |s| ==> IsUpperHex(s[i])
    ensures HexDigitsValue(s) == v % Pow16(k)
  {
    if k == 0 then []
    else
      var s := HexDigits(v / 16, k - 1) + [HexChar(v % 16)];
      assert s[..|s| - 1] == HexDigits(v / 16, k - 1);
      LowDigitsStep(v, Pow16(k - 1));
      s
  }

  function HexDigitsValue(s: string): nat
    decreases |s|
  {
    if s == [] then 0 else HexDigitsValue(s[..|s| - 1]) * 16 + HexValue(s[|s| - 1])
  }

  /** The eight hexadecimal digits read back as the value they were written from. */
  lemma HexRoundTrip(v: nat, k: nat)
    requires v < Pow16(k)
    ensures HexDigitsValue(HexDigits(v, k)) == v
  {
  }

  /** `f"normal 0x{value:08X}"`. */
  function CommandPayload(value: nat): (p: string)
    requires value < 0x1_0000_0000
    ensures |p| == 17 && p[..9] == "normal 0x"
  {
    "normal 0x" + HexDigits(value, 8)
  }

  /** The payload names the command word exactly. */
  lemma PayloadCarriesValue(value: nat)
    requires value < 0x1_0000_0000
    ensures HexDigitsValue(CommandPayload(value)[9..]) == value
  {
    assert Pow16(8) == 0x1_0000_0000;
    assert CommandPayload(value)[9..] == HexDigits(value, 8);
    HexRoundTrip(value, 8);
  }

  /** `f"{i:2d}"` for the small positive numbers of the history listing. */
  function Pad2(i: nat): string {
    var s := NatToString(i);
    if |s| < 2 then " " + s else s
  }

  // ---------------------------------------------------------------------------
  // Dispatching
  // ---------------------------------------------------------------------------

  /** What the collaborators answer: UART send success, the status lines, and an exception the simulator raises. */
  datatype Env = Env(sendOk: bool, statusLines: seq<string>, simulatorError: Option<string>)

  /** The one call a command makes to a collaborator. */
  datatype Effect =
    | NoEffect
    | UartSend(message: string)
    | HoldingRegisterSet(slave: int, index: int, value: int)
    | CoilSet(slave: int, index: int, on: bool)
    | InputRegisterSet(slave: int, index: int, value: int)

  /**
   * A reply line of `process_command`, as a value; Render gives the text the
   * script prints for it. Plain is a line printed as it stands: the help and
   * usage texts and the status lines.
   */
  datatype Line =
    | Echo(command: string)
    | Plain(text: string)
    | UartSent(message: string)
    | UartSendFailed
    | UartUsage
    | CmdSent(name: string, payload: string)
    | CmdSendFailed
    | CmdUsage
    | UnknownCmdName(name: string)
    | AvailableNames
    | InvalidValue(token: string)
    | DigitLimit(digits: nat)
    | RegisterSet(slave: int, holding: bool, index: int, value: int)
    | CoilWasSet(slave: int, index: int, on: bool)
    | SimulatorError(message: string)
    | UnknownModbusType(kind: string)
    | ValidTypes
    | HistoryHeader
    | HistoryEntry(number: nat, command: string)
    | SaveConfigPending(file: string)
    | LogCleared
    | ShuttingDown
    | QuitMarker
    | UnknownCommand(command: string)
    | HelpHint

  /** `self.command_history` after a non-blank command: appended, and the oldest dropped past 100. */
  function Remember(history: seq<string>, command: string): (h: seq<string>)
    ensures |history| <= MAX_HISTORY ==> |h| <= MAX_HISTORY
    ensures h != [] && h[|h| - 1] == command
    ensures h == history + [command] || h == (history + [command])[1..]
  {
    var appended := history + [command];
    if |appended| > MAX_HISTORY then appended[1..] else appended
  }

  /** `value = parts[4].lower() in ("1", "true", "yes", "on")`. */
  predicate Truthy(token: string) {
    Lower(token) in TruthyWords()
  }

  function TruthyWords(): seq<string> {
    ["1", "true", "yes", "on"]
  }

  /** The lines of `history`: the last ten entries, numbered from 1. */
  function HistoryLines(history: seq<string>): (lines: seq<Line>)
    ensures |lines| == if |history| < HISTORY_SHOWN then |history| else HISTORY_SHOWN
    ensures forall i :: 0 <= i < |lines| ==> lines[i] == HistoryEntry(i + 1, history[|history| - |lines| + i])
  {
    var shown := if |history| > HISTORY_SHOWN then history[|history| - HISTORY_SHOWN..] else history;
    seq(|shown|, i requires 0 <= i < |shown| => HistoryEntry(i + 1, shown[i]))
  }

  /** `cmd NAME`: the payload for a known name, else the unknown-command lines; nothing sent for an unknown one. */
  function CmdReply(parts: seq<string>, env: Env): (r: (seq<Line>, Effect))
  {
    if |parts| <= 1 then ([CmdUsage], NoEffect)
    else
      var name := Upper(parts[1]);
      if name in CMD_MAP && 0 <= CMD_MAP[name] < 0x1_0000_0000 then
        var payload := CommandPayload(CMD_MAP[name]);
        ([if env.sendOk then CmdSent(name, payload) else CmdSendFailed], UartSend(payload))
      else
        ([UnknownCmdName(name), AvailableNames], NoEffect)
  }

  /** The register kinds of the `modbus` command. */
  datatype Kind = HoldingKind | CoilKind | InputKind | OtherKind

  function KindOf(kind: string): Kind {
    if kind == "hr" then HoldingKind
    else if kind == "coil" then CoilKind
    else if kind == "ir" then InputKind
    else OtherKind
  }

  /**
   * `modbus SLAVE TYPE INDEX VALUE`: usage with fewer than five words;
   * otherwise the slave and the index parsed first, then the value by type,
   * and the simulator called once everything parsed.
   */
  function ModbusReply(parts: seq<string>, env: Env): (r: (seq<Line>, Effect))
  {
    if |parts| < 5 then (PlainLines(ModbusUsageLines()), NoEffect)
    else
      match IntOf(parts[1])
      case TooManyDigits(n) => ([DigitLimit(n)], NoEffect)
      case BadLiteral => ([InvalidValue(parts[1])], NoEffect)
      case Parsed(slave) =>
        match IntOf(parts[3])
        case TooManyDigits(n) => ([DigitLimit(n)], NoEffect)
        case BadLiteral => ([InvalidValue(parts[3])], NoEffect)
        case Parsed(index) => ModbusWrite(slave, Lower(parts[2]), index, parts[4], env)
  }

  /** The write `modbus` asks of the simulator once slave and index are numbers. */
  function ModbusWrite(slave: int, kind: string, index: int, token: string, env: Env): (r: (seq<Line>, Effect))
  {
    match KindOf(kind)
    case CoilKind =>
      var on := Truthy(token);
      ([if env.simulatorError.Some? then SimulatorError(env.simulatorError.value) else CoilWasSet(slave, index, on)],
       CoilSet(slave, index, on))
    case OtherKind => ([UnknownModbusType(kind), ValidTypes], NoEffect)
    case _ =>
      match IntOf(token)
      case TooManyDigits(n) => ([DigitLimit(n)], NoEffect)
      case BadLiteral => ([InvalidValue(token)], NoEffect)
      case Parsed(value) =>
        var holding := KindOf(kind) == HoldingKind;
        ([if env.simulatorError.Some? then SimulatorError(env.simulatorError.value) else RegisterSet(slave, holding, index, value)],
         if holding then HoldingRegisterSet(slave, index, value) else InputRegisterSet(slave, index, value))
  }

  /** The commands `process_command` tells apart by its lower-cased first word. */
  datatype Verb = Help | Uart | Cmd | Modbus | Status | History | Clear | SaveConfig | Quit | Unknown

  function VerbOf(cmd: string): Verb {
    if cmd == "help" then Help
    else if cmd == "uart" then Uart
    else if cmd == "cmd" then Cmd
    else if cmd == "modbus" then Modbus
    else if cmd == "status" then Status
    else if cmd == "history" then History
    else if cmd == "clear" then Clear
    else if cmd == "save-config" then SaveConfig
    else if cmd == "quit" || cmd == "exit" then Quit
    else Unknown
  }

  /** Each command word names its own verb; `quit` and `exit` are the same one. */
  lemma VerbNames()
    ensures VerbOf("help") == Help && VerbOf("uart") == Uart && VerbOf("cmd") == Cmd
    ensures VerbOf("modbus") == Modbus && VerbOf("status") == Status && VerbOf("history") == History
    ensures VerbOf("clear") == Clear && VerbOf("save-config") == SaveConfig
    ensures VerbOf("quit") == Quit && VerbOf("exit") == Quit && VerbOf("stop") == Unknown
  {
  }

  /** The reply lines after the echo, for every verb but `clear` and `quit`. */
  function Dispatch(verb: Verb, parts: seq<string>, command: string, history: seq<string>, env: Env): (seq<Line>, Effect)
  {
    match verb
    case Help => (PlainLines(HelpLines()), NoEffect)
    case Uart =>
      if |parts| > 1 then
        var message := Join(parts[1..], " ");
        ([if env.sendOk then UartSent(message) else UartSendFailed], UartSend(message))
      else ([UartUsage], NoEffect)
    case Cmd => CmdReply(parts, env)
    case Modbus => ModbusReply(parts, env)
    case Status => (PlainLines(env.statusLines), NoEffect)
    case History => ([HistoryHeader] + HistoryLines(history), NoEffect)
    case SaveConfig => ([SaveConfigPending(if |parts| > 1 then parts[1] else "config.json")], NoEffect)
    case _ => ([UnknownCommand(command), HelpHint], NoEffect)
  }

  /** The verb of a non-blank command: that of its first word, lower-cased. */
  function CommandVerb(command: string): (v: Verb)
    requires !Blank(command)
    ensures Words(command) != [] && v == VerbOf(Lower(Words(command)[0]))
  {
    BlankIffNoWords(command);
    VerbOf(Lower(Words(command)[0]))
  }

  /**
   * `process_command` once the history holds the command: the reply lines
   * and the collaborator call. `clear` replies with one line and no echo;
   * every other command starts with the echo, and `quit` and `exit` end
   * with the QUIT marker.
   */
  function Respond(command: string, history: seq<string>, env: Env): (r: (seq<Line>, Effect))
    requires !Blank(command)
    ensures CommandVerb(command) == Clear ==> r == ([LogCleared], NoEffect)
    ensures CommandVerb(command) != Clear ==> r.0 != [] && r.0[0] == Echo(command)
    ensures CommandVerb(command) == Quit ==> r == ([Echo(command), ShuttingDown, QuitMarker], NoEffect)
  {
    var verb := CommandVerb(command);
    if verb == Clear then ([LogCleared], NoEffect)
    else if verb == Quit then ([Echo(command), ShuttingDown, QuitMarker], NoEffect)
    else
      var d := Dispatch(verb, Words(command), command, history, env);
      ([Echo(command)] + d.0, d.1)
  }

  // ---------------------------------------------------------------------------
  // Reply texts
  // ---------------------------------------------------------------------------

  /** Python's `str()` of a bool. */
  function BoolText(b: bool): string {
    if b then "True" else "False"
  }

  function HelpLines(): seq<string> {
    ["Available commands:",
     "  help - Show this help",
     "  uart <message> - Send message to UART",
     "  cmd <command> - Send filling state machine command",
     "    Available: " + Join(CMD_NAMES, ", "),
     "  modbus <slave_id> <hr|coil|ir> <index> <value> - Set Modbus register/coil",
     "    slave_id: 1 (UF Hydra) or 2 (LF Hydra)",
     "  status - Show connection status and statistics",
     "  history - Show command history",
     "  clear - Clear command log",
     "  save-config [file] - Save current config",
     "  quit/exit - Exit application"]
  }

  function ModbusUsageLines(): seq<string> {
    ["Usage: modbus <slave_id> <hr|coil|ir> <index> <value>",
     "  slave_id: 1 (UF Hydra) or 2 (LF Hydra)",
     "  hr = holding register, coil = coil, ir = input register"]
  }

  /** A character `repr` writes as itself between single quotes. */
  predicate PlainInRepr(c: char) {
    ' ' <= c && c as int != 0x7F && c != '\\' && c != '\''
  }

  /** The quote `repr` puts around a string: a double quote when it holds a single quote and no double quote. */
  function ReprQuote(s: string): (q: char)
    ensures q == '"' <==> '\'' in s && '"' !in s
    ensures q == '\'' || q == '"'
  {
    if '\'' in s && '"' !in s then '"' else '\''
  }

  function HexLowerChar(d: nat): char
    requires d < 16
  {
    if d < 10 then DigitChar(d) else ('a' as int + d - 10) as char
  }

  /** One character inside `repr`'s quotes `q`: backslash, the quote itself and control characters are escaped. */
  function ReprChar(c: char, q: char): (e: string)
    ensures |e| >= 1
    ensures c != q && PlainInRepr(c) ==> e == [c]
  {
    if c == '\\' then "\\\\"
    else if c == q then ['\\', q]
    else if c == '\t' then "\\t"
    else if c == '\n' then "\\n"
    else if c == '\r' then "\\r"
    else if c < ' ' || c as int == 0x7F then "\\x" + [HexLowerChar(c as int / 16), HexLowerChar(c as int % 16)]
    else [c]
  }

  /** The characters of a string inside `repr`'s quotes `q`. */
  function ReprBody(s: string, q: char): (b: string)
    ensures |b| >= |s|
    ensures (forall i :: 0 <= i < |s| ==> PlainInRepr(s[i]) && s[i] != q) ==> b == s
    decreases |s|
  {
    if s == [] then [] else ReprBody(s[..|s| - 1], q) + ReprChar(s[|s| - 1], q)
  }

  /**
   * Python's `repr` of a string, as `int()` quotes the token it refuses:
   * single quotes unless the string holds a single quote and no double
   * quote; a string of plain characters appears unchanged between them.
   */
  function Repr(s: string): (r: string)
    ensures |r| >= |s| + 2 && r[0] == ReprQuote(s) && r[|r| - 1] == ReprQuote(s)
    ensures (forall i :: 0 <= i < |s| ==> PlainInRepr(s[i])) ==> r == "'" + s + "'"
  {
    var q := ReprQuote(s);
    [q] + ReprBody(s, q) + [q]
  }

  /** The first `n` characters of a text, as the precision of `%.200R` keeps them. */
  function Clipped(t: string, n: nat): (c: string)
    ensures |c| == if |t| <= n then |t| else n
    ensures c == t[..|c|]
  {
    if |t| <= n then t else t[..n]
  }

  /** The text the script prints for a reply line. */
  function Render(line: Line): string {
    if line.Plain? then line.text else RenderMessage(line)
  }

  /** The text of a reply line the script composes itself. */
  function RenderMessage(line: Line): string
    requires !line.Plain?
  {
    match line
    case Echo(command) => "> " + command
    case UartSent(message) => "✓ Sent: " + message
    case UartSendFailed => "✗ Failed to send UART command"
    case UartUsage => "Usage: uart <message>"
    case CmdSent(name, payload) => "✓ Sent command: " + name + " (" + payload + ")"
    case CmdSendFailed => "✗ Failed to send command"
    case CmdUsage => "Usage: cmd <command>"
    case UnknownCmdName(name) => "✗ Unknown command: " + name
    case AvailableNames => "Available: " + Join(CMD_NAMES, ", ")
    case InvalidValue(token) => "✗ Invalid value: invalid literal for int() with base 10: " + Clipped(Repr(token), 200)
    case DigitLimit(digits) =>
      "✗ Invalid value: Exceeds the limit (" + NatToString(MAX_STR_DIGITS) + " digits) for integer string conversion: value has "
      + NatToString(digits) + " digits; use sys.set_int_max_str_digits() to increase the limit"
    case RegisterSet(slave, holding, index, value) =>
      "✓ Set slave " + IntToString(slave) + (if holding then " holding register " else " input register ")
      + IntToString(index) + " = " + IntToString(value)
    case CoilWasSet(slave, index, on) => "✓ Set slave " + IntToString(slave) + " coil " + IntToString(index) + " = " + BoolText(on)
    case SimulatorError(message) => "✗ Error: " + message
    case UnknownModbusType(kind) => "✗ Unknown Modbus type: " + kind
    case ValidTypes => "Valid types: hr, coil, ir"
    case HistoryHeader => "Command history:"
    case HistoryEntry(number, command) => "  " + Pad2(number) + ". " + command
    case SaveConfigPending(file) => "Config save feature needs implementation for " + file
    case LogCleared => "Command log cleared"
    case ShuttingDown => "Shutting down..."
    case QuitMarker => "QUIT"
    case UnknownCommand(command) => "✗ Unknown command: " + command
    case HelpHint => "Type 'help' for available commands"
  }

  /** The printed reply: each line's text, in order. */
  function RenderAll(lines: seq<Line>): (texts: seq<string>)
    ensures |texts| == |lines| && forall i :: 0 <= i < |lines| ==> texts[i] == Render(lines[i])
  {
    if lines == [] then [] else [Render(lines[0])] + RenderAll(lines[1..])
  }

  /** Texts printed as they stand. */
  function PlainLines(texts: seq<string>): seq<Line> {
    if texts == [] then [] else [Plain(texts[0])] + PlainLines(texts[1..])
  }

  /** Plain lines print exactly their texts. */
  lemma {:induction false} PlainLinesPrintTexts(texts: seq<string>)
    ensures RenderAll(PlainLines(texts)) == texts
  {
    if texts != [] {
      var rest := PlainLines(texts[1..]);
      assert PlainLines(texts) == [Plain(texts[0])] + rest;
      RenderFirst(Plain(texts[0]), rest);
      PlainLinesPrintTexts(texts[1..]);
      assert texts == [texts[0]] + texts[1..];
    }
  }

  /** Printing a reply prints its first line, then the rest. */
  lemma RenderFirst(line: Line, rest: seq<Line>)
    ensures RenderAll([line] + rest) == [Render(line)] + RenderAll(rest)
  {
    assert ([line] + rest)[1..] == rest;
  }

  /**
   * A reply that opens with the echo of a command, as `Respond` makes every
   * reply but `clear`'s, prints `> ` and the command as typed first.
   */
  lemma EchoPrintedFirst(command: string, lines: seq<Line>)
    requires lines != [] && lines[0] == Echo(command)
    ensures RenderAll(lines)[0] == "> " + command
  {
    assert RenderAll(lines)[0] == Render(Echo(command));
  }

  /** A known `cmd` name sends its command word as eight hexadecimal digits; an unknown one sends nothing. */
  lemma CmdSendsTableValue(parts: seq<string>, env: Env)
    requires |parts| >= 2
    ensures var (lines, effect) := CmdReply(parts, env);
            var name := Upper(parts[1]);
            (name in CMD_MAP ==> effect.UartSend? && HexDigitsValue(effect.message[9..]) == CMD_MAP[name]
                                 && effect.message[..9] == "normal 0x")
            && (name !in CMD_MAP ==> effect == NoEffect && lines[0] == UnknownCmdName(name))
  {
    var name := Upper(parts[1]);
    if name in CMD_MAP {
      PayloadCarriesValue(CMD_MAP[name]);
    }
  }

  /** `modbus` with fewer than five words only prints the usage and calls no simulator. */
  lemma ShortModbusOnlyUsage(parts: seq<string>, env: Env)
    requires |parts| < 5
    ensures ModbusReply(parts, env).1 == NoEffect
    ensures RenderAll(ModbusReply(parts, env).0) == ModbusUsageLines()
  {
    PlainLinesPrintTexts(ModbusUsageLines());
  }

  /**
   * A coil command whose slave and index parse sets the coil on exactly for
   * the tokens 1, true, yes and on, in any letter case.
   */
  lemma CoilValue(parts: seq<string>, env: Env)
    requires |parts| >= 5 && IntOf(parts[1]).Parsed? && IntOf(parts[3]).Parsed? && Lower(parts[2]) == "coil"
    ensures ModbusReply(parts, env).1 == CoilSet(IntOf(parts[1]).value, IntOf(parts[3]).value, Truthy(parts[4]))
  {
  }

  /**
   * A register value with more than MAX_STR_DIGITS digits after its sign is
   * refused with the digit-limit error, whatever follows the digits, and no
   * simulator is called.
   */
  lemma OverlongValueRefused(parts: seq<string>, env: Env)
    requires |parts| >= 5 && IntOf(parts[1]).Parsed? && IntOf(parts[3]).Parsed?
    requires Lower(parts[2]) == "hr" || Lower(parts[2]) == "ir"
    requires LeadingDigits(Unsigned(parts[4])) > MAX_STR_DIGITS
    ensures ModbusReply(parts, env) == ([DigitLimit(LeadingDigits(Unsigned(parts[4])))], NoEffect)
  {
  }

  /** Every value `int()` returns is written back by `str` within the digit limit. */
  lemma ParsedValuesFit(s: string)
    requires IntOf(s).Parsed?
    ensures var n := IntOf(s).value; |NatToString(if n < 0 then -n else n)| <= MAX_STR_DIGITS
  {
  }

  /** An integer `str` writes with at most MAX_STR_DIGITS digits is read back by `int()`. */
  lemma IntOfRoundTrip(n: int)
    requires |NatToString(if n < 0 then -n else n)| <= MAX_STR_DIGITS
    ensures IntOf(IntToString(n)) == Parsed(n)
  {
    IntRoundTrip(n);
    assert Unsigned(IntToString(n)) == NatToString(if n < 0 then -n else n);
  }

  /** The tokens 1, true, yes and on set a coil on, whatever their letter case. */
  lemma TruthyTokensOn()
    ensures Truthy("1") && Truthy("TRUE") && Truthy("Yes") && Truthy("on")
  {
    LowerOfLower("1");
    LowerOfLower("on");
    assert Lower("TRUE") == "true" by {
      assert LowerChar('T') == 't' && LowerChar('R') == 'r' && LowerChar('U') == 'u' && LowerChar('E') == 'e';
    }
    assert Lower("Yes") == "yes" by {
      assert LowerChar('Y') == 'y';
      LowerOfLower("es");
    }
  }

  /** Any other token, such as 0, false, y or the empty one, leaves the coil off. */
  lemma TruthyTokensOff()
    ensures !Truthy("0") && !Truthy("false") && !Truthy("y") && !Truthy("")
  {
  }

  /** `CommandProcessor`: the operator's command history, most recent last. */
  class Processor {
    var history: seq<string>

    constructor ()
      ensures history == []
    {
      history := [];
    }

    /**
     * `process_command`: a blank command replies nothing and is not
     * remembered; any other is remembered first, so `history` lists it too.
     */
    method ProcessCommand(command: string, env: Env) returns (responses: seq<Line>, effect: Effect)
      modifies this
      ensures history == if Blank(command) then old(history) else Remember(old(history), command)
      ensures (responses, effect) == if Blank(command) then ([], NoEffect) else Respond(command, history, env)
    {
      if Blank(command) {
        return [], NoEffect;
      }
      history := Remember(history, command);
      var reply := Respond(command, history, env);
      responses, effect := reply.0, reply.1;
    }
  }
}

/** The meaning of one Intcode instruction and of a whole run, as pure
    functions over the machine's values (intcode/intcode.py, and the same
    handlers copied in 5/thermal_environment_supervision_terminal.py).
    The imperative interpreter in module Intcode is proved against these. */
module IntcodeSpec {
  import opened Wrappers
  import Decimal

  const PositionMode := 0
  const ImmediateMode := 1

  const AddOpcode := 1
  const MultiplyOpcode := 2
  const InputOpcode := 3
  const OutputOpcode := 4
  const JumpIfTrueOpcode := 5
  const JumpIfFalseOpcode := 6
  const LessThanOpcode := 7
  const EqualsOpcode := 8
  const HaltOpcode := 99

  datatype Op = Add | Multiply | Input | Output | JumpIfTrue | JumpIfFalse | LessThan | Equals | Halt {
    /** The handlers that read two values and write one cell. */
    predicate IsStore() { Add? || Multiply? || LessThan? || Equals? }
  }

  /** The exceptions the interpreter can raise. */
  datatype Fault =
    | BadInstruction(word: int)      // `int(c)` on the '-' of a word <= -10
    | UnknownOpcode(opcode: int)     // KeyError in OP_CODE_TABLE
    | UnknownMode(mode: int)         // ValueError in lookup_parameter
    | AddressOutOfRange(address: int) // IndexError on the tape
    | MissingParameter               // the instruction runs past the end of the tape
    | EmptyInput                     // pop from an empty input list / end of console input

  /** Which end of the input list an input instruction consumes. */
  datatype InputEnd = Back | Front

  /** The state a `Program` holds: the tape and the two queues. */
  datatype Machine = Machine(code: seq<int>, input: seq<int>, output: seq<int>)

  /** What a handler returns besides the machine: the next instruction
      pointer and whether to stop. */
  datatype Transition = Transition(machine: Machine, ip: int, halt: bool)

  datatype Outcome =
    | Halted(machine: Machine, ip: int)
    | Faulted(fault: Fault)
    | OutOfFuel(machine: Machine, ip: int)

  function Min(a: int, b: int): int { if a < b then a else b }

  function Max(a: int, b: int): int { if a < b then b else a }

  /** `parse_opcode`: `str` the word, read the last two characters as the
      opcode and the rest, reversed, as mode digits. */
  function ParseOpcode(word: int): Result<(int, seq<int>), Fault> {
    if word >= 0 then Ok((word % 100, Decimal.Digits(word / 100)))
    // "-d": the slice [-2:] is the whole text and [:-2] is empty
    else if word > -10 then Ok((word, []))
    // the text before the last two characters starts with '-'
    else Err(BadInstruction(word))
  }

  /** The instruction word with opcode `opcode` and mode digits `modes`. */
  function Encode(opcode: int, modes: seq<int>): int {
    opcode + 100 * Decimal.Value(modes)
  }

  function OpcodeOf(op: Op): int {
    match op
    case Add => AddOpcode
    case Multiply => MultiplyOpcode
    case Input => InputOpcode
    case Output => OutputOpcode
    case JumpIfTrue => JumpIfTrueOpcode
    case JumpIfFalse => JumpIfFalseOpcode
    case LessThan => LessThanOpcode
    case Equals => EqualsOpcode
    case Halt => HaltOpcode
  }

  function Arity(op: Op): nat {
    match op
    case Add => 3
    case Multiply => 3
    case Input => 1
    case Output => 1
    case JumpIfTrue => 2
    case JumpIfFalse => 2
    case LessThan => 3
    case Equals => 3
    case Halt => 0
  }

  /** `OP_CODE_TABLE`: opcode to (handler, number of parameters). */
  function OpcodeTable(opcode: int): Option<(Op, nat)> {
    if opcode == AddOpcode then Some((Add, 3))
    else if opcode == MultiplyOpcode then Some((Multiply, 3))
    else if opcode == InputOpcode then Some((Input, 1))
    else if opcode == OutputOpcode then Some((Output, 1))
    else if opcode == JumpIfTrueOpcode then Some((JumpIfTrue, 2))
    else if opcode == JumpIfFalseOpcode then Some((JumpIfFalse, 2))
    else if opcode == LessThanOpcode then Some((LessThan, 3))
    else if opcode == EqualsOpcode then Some((Equals, 3))
    else if opcode == HaltOpcode then Some((Halt, 0))
    else None
  }

  /** The mode list `run` hands to a handler: missing modes are 0, extra
      ones are kept (and later ignored by `zip`). */
  function PadModes(modes: seq<int>, n: nat): (r: seq<int>)
    ensures |r| == Max(|modes|, n)
    ensures forall i :: 0 <= i < |r| ==> r[i] == if i < |modes| then modes[i] else PositionMode
  {
    if |modes| < n then modes + seq(n - |modes|, _ => PositionMode) else modes
  }

  /** `lookup_parameter`: position mode reads the tape, immediate mode is
      the literal, any other mode raises. */
  function LookupParameter(code: seq<int>, parameter: int, mode: int): Result<int, Fault> {
    if mode == PositionMode then
      if 0 <= parameter < |code| then Ok(code[parameter]) else Err(AddressOutOfRange(parameter))
    else if mode == ImmediateMode then Ok(parameter)
    else Err(UnknownMode(mode))
  }

  /** `lookup_parameters`: `zip` the parameters with their modes, in order;
      the first failing lookup raises. */
  function LookupParameters(code: seq<int>, parameters: seq<int>, modes: seq<int>): Result<seq<int>, Fault>
    decreases |parameters|
  {
    if parameters == [] || modes == [] then Ok([])
    else
      var first :- LookupParameter(code, parameters[0], modes[0]);
      var rest :- LookupParameters(code, parameters[1..], modes[1..]);
      Ok([first] + rest)
  }

  /** The value a store handler writes. */
  function Combine(op: Op, a: int, b: int): int
    requires op.IsStore()
  {
    match op
    case Add => a + b
    case Multiply => a * b
    case LessThan => if a < b then 1 else 0
    case Equals => if a == b then 1 else 0
  }

  /** `add`, `multiply`, `less_than`, `equals`: read the first two
      parameters through their modes, write `parameters[2]` as a position. */
  function ExecStore(op: Op, m: Machine, parameters: seq<int>, modes: seq<int>, ip: int): Result<Transition, Fault>
    requires op.IsStore()
  {
    var values :- LookupParameters(m.code, parameters[..Min(2, |parameters|)], modes[..Min(2, |modes|)]);
    if |values| < 2 || |parameters| < 3 then Err(MissingParameter)
    else
      var address := parameters[2];
      if !(0 <= address < |m.code|) then Err(AddressOutOfRange(address))
      else
        Ok(Transition(m.(code := m.code[address := Combine(op, values[0], values[1])]),
                      ip + |parameters| + 1, false))
  }

  /** The value an input instruction consumes, and the queue it leaves. */
  function Consume(input: seq<int>, end: InputEnd): (int, seq<int>)
    requires input != []
  {
    match end
    case Back => (input[|input| - 1], input[..|input| - 1])
    case Front => (input[0], input[1..])
  }

  /** `input_`: take a value (raising on an empty queue) and store it at
      `parameters[0]`. */
  function ExecInput(m: Machine, parameters: seq<int>, ip: int, end: InputEnd): Result<Transition, Fault> {
    if m.input == [] then Err(EmptyInput)
    else
      var (value, rest) := Consume(m.input, end);
      if parameters == [] then Err(MissingParameter)
      else
        var address := parameters[0];
        if !(0 <= address < |m.code|) then Err(AddressOutOfRange(address))
        else Ok(Transition(Machine(m.code[address := value], rest, m.output), ip + |parameters| + 1, false))
  }

  /** `output`: append the resolved first parameter to the output. */
  function ExecOutput(m: Machine, parameters: seq<int>, modes: seq<int>, ip: int): Result<Transition, Fault> {
    if parameters == [] || modes == [] then Err(MissingParameter)
    else
      var value :- LookupParameter(m.code, parameters[0], modes[0]);
      Ok(Transition(m.(output := m.output + [value]), ip + |parameters| + 1, false))
  }

  /** `jump_if_true` (`onNonZero`) and `jump_if_false` (`!onNonZero`). */
  function ExecJump(onNonZero: bool, m: Machine, parameters: seq<int>, modes: seq<int>, ip: int): Result<Transition, Fault> {
    var values :- LookupParameters(m.code, parameters, modes);
    if |values| != 2 then Err(MissingParameter)
    else if (values[0] != 0) == onNonZero then Ok(Transition(m, values[1], false))
    else Ok(Transition(m, ip + |parameters| + 1, false))
  }

  /** The handler the table names for `op`. */
  function Execute(op: Op, m: Machine, parameters: seq<int>, modes: seq<int>, ip: int, end: InputEnd): Result<Transition, Fault> {
    match op
    case Add => ExecStore(op, m, parameters, modes, ip)
    case Multiply => ExecStore(op, m, parameters, modes, ip)
    case LessThan => ExecStore(op, m, parameters, modes, ip)
    case Equals => ExecStore(op, m, parameters, modes, ip)
    case Input => ExecInput(m, parameters, ip, end)
    case Output => ExecOutput(m, parameters, modes, ip)
    case JumpIfTrue => ExecJump(true, m, parameters, modes, ip)
    case JumpIfFalse => ExecJump(false, m, parameters, modes, ip)
    case Halt => Ok(Transition(m, ip, true))
  }

  /** The parameters `run` slices after the instruction word (a Python
      slice stops at the end of the tape). */
  function Parameters(code: seq<int>, ip: int, n: nat): seq<int>
    requires 0 <= ip < |code|
  {
    code[ip + 1 .. Min(ip + n + 1, |code|)]
  }

  /** One iteration of `run`'s loop: fetch, decode, look up, pad, slice, dispatch. */
  function Step(m: Machine, ip: int, end: InputEnd): Result<Transition, Fault> {
    if !(0 <= ip < |m.code|) then Err(AddressOutOfRange(ip))
    else
      var decoded :- ParseOpcode(m.code[ip]);
      match OpcodeTable(decoded.0)
      case None => Err(UnknownOpcode(decoded.0))
      case Some(entry) =>
        Execute(entry.0, m, Parameters(m.code, ip, entry.1), PadModes(decoded.1, entry.1), ip, end)
  }

  /** `run` from pointer `ip`, executing at most `fuel` instructions. */
  function Run(m: Machine, ip: int, end: InputEnd, fuel: nat): Outcome
    decreases fuel
  {
    if fuel == 0 then OutOfFuel(m, ip)
    else
      match Step(m, ip, end)
      case Err(f) => Faulted(f)
      case Ok(t) => if t.halt then Halted(t.machine, t.ip) else Run(t.machine, t.ip, end, fuel - 1)
  }

  // ---------------------------------------------------------------------
  // Decoding

  /** A non-negative word decodes to its low two decimal digits and the
      digits above them, least significant first; the two parts rebuild it. */
  lemma ParseOpcodeSplitsWord(word: nat)
    ensures ParseOpcode(word).Ok?
    ensures var (opcode, modes) := ParseOpcode(word).value;
      && 0 <= opcode < 100
      && Decimal.IsDigits(modes)
      && (modes != [] ==> modes[|modes| - 1] != 0)
      && Encode(opcode, modes) == word
  {
    Decimal.ValueOfDigits(word / 100);
  }

  /** The modes are the characters of `str(word)` before the last two, reversed. */
  lemma ParseOpcodeReadsText(word: nat)
    requires word >= 100
    ensures ParseOpcode(word).value.1 == Decimal.Reverse(Decimal.Show(word / 100))
  {
    Decimal.ShowReversed(word / 100);
  }

  /** Decoding inverts encoding for every opcode and canonical mode list. */
  lemma {:induction false} ParseOpcodeOfEncode(opcode: int, modes: seq<int>)
    requires 0 <= opcode < 100
    requires Decimal.IsDigits(modes) && (modes != [] ==> modes[|modes| - 1] != 0)
    ensures Encode(opcode, modes) >= 0
    ensures ParseOpcode(Encode(opcode, modes)) == Ok((opcode, modes))
  {
    Decimal.DigitsOfValue(modes);
    var v := Decimal.Value(modes);
    var w := opcode + 100 * v;
    assert w % 100 == opcode && w / 100 == v;
  }

  /** Negative words: one digit decodes to itself, longer ones raise. */
  lemma ParseOpcodeNegative(word: int)
    requires word < 0
    ensures -10 < word ==> ParseOpcode(word) == Ok((word, []))
    ensures word <= -10 ==> ParseOpcode(word) == Err(BadInstruction(word))
    ensures ParseOpcode(word).Ok? ==> OpcodeTable(ParseOpcode(word).value.0) == None
  {
  }

  /** The table maps each handler's opcode to it with its arity, and
      nothing else. */
  lemma OpcodeTableInverse(op: Op, opcode: int)
    ensures OpcodeTable(OpcodeOf(op)) == Some((op, Arity(op)))
    ensures OpcodeTable(opcode).Some? ==>
      OpcodeOf(OpcodeTable(opcode).value.0) == opcode && OpcodeTable(opcode).value.1 == Arity(OpcodeTable(opcode).value.0)
    ensures OpcodeTable(opcode).Some? <==> opcode in {1, 2, 3, 4, 5, 6, 7, 8, 99}
  {
  }

  // ---------------------------------------------------------------------
  // Parameters

  /** `lookup_parameter`'s three cases. */
  lemma LookupParameterModes(code: seq<int>, parameter: int, mode: int)
    ensures mode == PositionMode && 0 <= parameter < |code| ==> LookupParameter(code, parameter, mode) == Ok(code[parameter])
    ensures mode == PositionMode && !(0 <= parameter < |code|) ==> LookupParameter(code, parameter, mode).Err?
    ensures mode == ImmediateMode ==> LookupParameter(code, parameter, mode) == Ok(parameter)
    ensures mode !in {PositionMode, ImmediateMode} ==> LookupParameter(code, parameter, mode) == Err(UnknownMode(mode))
  {
  }

  /** `lookup_parameters` is `lookup_parameter` over the zip of parameters
      and modes: it succeeds iff every zipped lookup does, and then has one
      value per zipped pair. */
  lemma {:induction false} LookupParametersZip(code: seq<int>, parameters: seq<int>, modes: seq<int>)
    ensures var n := Min(|parameters|, |modes|);
      && (LookupParameters(code, parameters, modes).Ok? <==>
            forall i :: 0 <= i < n ==> LookupParameter(code, parameters[i], modes[i]).Ok?)
      && (LookupParameters(code, parameters, modes).Ok? ==>
            var values := LookupParameters(code, parameters, modes).value;
            |values| == n && forall i :: 0 <= i < n ==> values[i] == LookupParameter(code, parameters[i], modes[i]).value)
    decreases |parameters|
  {
    if parameters != [] && modes != [] {
      LookupParametersZip(code, parameters[1..], modes[1..]);
      var n := Min(|parameters|, |modes|);
      if LookupParameter(code, parameters[0], modes[0]).Ok? && LookupParameters(code, parameters[1..], modes[1..]).Ok? {
        var values := LookupParameters(code, parameters, modes).value;
        forall i | 0 <= i < n
          ensures values[i] == LookupParameter(code, parameters[i], modes[i]).value
        {
          if i > 0 {
            assert parameters[1..][i - 1] == parameters[i];
            assert modes[1..][i - 1] == modes[i];
          }
        }
      } else if LookupParameter(code, parameters[0], modes[0]).Ok? {
        var j :| 0 <= j < Min(|parameters[1..]|, |modes[1..]|) &&
          !LookupParameter(code, parameters[1..][j], modes[1..][j]).Ok?;
        assert !LookupParameter(code, parameters[j + 1], modes[j + 1]).Ok?;
      }
    }
  }

  /** Mode digits beyond the parameters are ignored. */
  lemma {:induction false} ExtraModesIgnored(code: seq<int>, parameters: seq<int>, modes: seq<int>)
    requires |parameters| <= |modes|
    ensures LookupParameters(code, parameters, modes) == LookupParameters(code, parameters, modes[..|parameters|])
    decreases |parameters|
  {
    if parameters != [] {
      ExtraModesIgnored(code, parameters[1..], modes[1..]);
      assert modes[..|parameters|][1..] == modes[1..][..|parameters[1..]|];
    }
  }

  // ---------------------------------------------------------------------
  // Handlers

  /** `add`, `multiply`, `less_than`, `equals`: on success exactly the cell
      `parameters[2]` changes, to the combination of the two resolved
      values; the queues are untouched and the pointer moves by 4. */
  lemma StoreEffect(op: Op, m: Machine, parameters: seq<int>, modes: seq<int>, ip: int, end: InputEnd)
    requires op.IsStore() && |modes| >= 3 && |parameters| <= 3
    requires Execute(op, m, parameters, modes, ip, end).Ok?
    ensures var t := Execute(op, m, parameters, modes, ip, end).value;
      && |parameters| == 3
      && LookupParameter(m.code, parameters[0], modes[0]).Ok?
      && LookupParameter(m.code, parameters[1], modes[1]).Ok?
      && 0 <= parameters[2] < |m.code|
      && t.machine.code[parameters[2]] == Combine(op, LookupParameter(m.code, parameters[0], modes[0]).value,
                                                     LookupParameter(m.code, parameters[1], modes[1]).value)
      && |t.machine.code| == |m.code|
      && (forall i :: 0 <= i < |m.code| && i != parameters[2] ==> t.machine.code[i] == m.code[i])
      && t.machine.input == m.input && t.machine.output == m.output
      && t.ip == ip + 4 && !t.halt
  {
    var ps, ms := parameters[..Min(2, |parameters|)], modes[..2];
    LookupParametersZip(m.code, ps, ms);
    assert |parameters| >= 3;
    assert ps[0] == parameters[0] && ps[1] == parameters[1];
  }

  /** Conversely, when both values resolve and the address is on the tape,
      a store handler writes their combination there and moves on by 4. */
  lemma StoreSucceeds(op: Op, m: Machine, parameters: seq<int>, modes: seq<int>, ip: int, end: InputEnd)
    requires op.IsStore() && |parameters| == 3 && |modes| >= 2
    requires LookupParameter(m.code, parameters[0], modes[0]).Ok?
    requires LookupParameter(m.code, parameters[1], modes[1]).Ok?
    requires 0 <= parameters[2] < |m.code|
    ensures Execute(op, m, parameters, modes, ip, end) ==
      Ok(Transition(m.(code := m.code[parameters[2] := Combine(op, LookupParameter(m.code, parameters[0], modes[0]).value,
                                                                   LookupParameter(m.code, parameters[1], modes[1]).value)]),
                    ip + 4, false))
  {
    var ps, ms := parameters[..2], modes[..2];
    LookupParametersZip(m.code, ps, ms);
    assert ps[0] == parameters[0] && ps[1] == parameters[1];
    assert ms[0] == modes[0] && ms[1] == modes[1];
  }

  /** A failing store handler does so before writing: its failure is one of
      the lookups, a short instruction or a write address off the tape. */
  lemma StoreFaults(op: Op, m: Machine, parameters: seq<int>, modes: seq<int>, ip: int, end: InputEnd)
    requires op.IsStore() && |modes| >= 3 && |parameters| == 3
    ensures Execute(op, m, parameters, modes, ip, end).Err? <==>
      || LookupParameter(m.code, parameters[0], modes[0]).Err?
      || LookupParameter(m.code, parameters[1], modes[1]).Err?
      || !(0 <= parameters[2] < |m.code|)
  {
    LookupParametersZip(m.code, parameters[..2], modes[..2]);
  }

  /** `less_than` and `equals` only ever write 0 or 1, and 1 exactly when
      the comparison holds. */
  lemma CompareWritesFlag(op: Op, m: Machine, parameters: seq<int>, modes: seq<int>, ip: int, end: InputEnd)
    requires op == LessThan || op == Equals
    requires |modes| >= 3 && |parameters| <= 3 && Execute(op, m, parameters, modes, ip, end).Ok?
    ensures |parameters| == 3 && 0 <= parameters[2] < |m.code|
    ensures LookupParameter(m.code, parameters[0], modes[0]).Ok? && LookupParameter(m.code, parameters[1], modes[1]).Ok?
    ensures var t := Execute(op, m, parameters, modes, ip, end).value;
      var a := LookupParameter(m.code, parameters[0], modes[0]).value;
      var b := LookupParameter(m.code, parameters[1], modes[1]).value;
      && t.machine.code[parameters[2]] in {0, 1}
      && (t.machine.code[parameters[2]] == 1 <==> (if op == LessThan then a < b else a == b))
  {
    StoreEffect(op, m, parameters, modes, ip, end);
  }

  /** The write target of a store is a position whatever its mode digit. */
  lemma StoreIgnoresTargetMode(op: Op, m: Machine, parameters: seq<int>, modes: seq<int>, ip: int, end: InputEnd, mode: int)
    requires op.IsStore() && |modes| >= 3
    ensures Execute(op, m, parameters, modes[2 := mode], ip, end) == Execute(op, m, parameters, modes, ip, end)
  {
    assert modes[2 := mode][..2] == modes[..2];
  }

  /** The jumps leave the machine alone and go to the second resolved value
      when the first is non-zero (`jump_if_true`) or zero (`jump_if_false`),
      otherwise past their two parameters. */
  lemma JumpEffect(op: Op, m: Machine, parameters: seq<int>, modes: seq<int>, ip: int, end: InputEnd)
    requires op == JumpIfTrue || op == JumpIfFalse
    requires |modes| >= 2 && |parameters| <= 2
    requires Execute(op, m, parameters, modes, ip, end).Ok?
    ensures var t := Execute(op, m, parameters, modes, ip, end).value;
      && |parameters| == 2
      && LookupParameter(m.code, parameters[0], modes[0]).Ok?
      && LookupParameter(m.code, parameters[1], modes[1]).Ok?
      && var condition := LookupParameter(m.code, parameters[0], modes[0]).value;
         var target := LookupParameter(m.code, parameters[1], modes[1]).value;
      && t.machine == m && !t.halt
      && t.ip == if (condition != 0) == (op == JumpIfTrue) then target else ip + 3
  {
    LookupParametersZip(m.code, parameters, modes);
  }

  /** `input_` with the queue consumed from the back: the last value is
      removed and stored at `parameters[0]`; the pointer moves by 2. An
      empty queue raises. */
  lemma InputEffect(m: Machine, parameters: seq<int>, modes: seq<int>, ip: int)
    requires |parameters| <= 1
    ensures m.input == [] ==> Execute(Input, m, parameters, modes, ip, Back) == Err(EmptyInput)
    ensures Execute(Input, m, parameters, modes, ip, Back).Ok? ==>
      var t := Execute(Input, m, parameters, modes, ip, Back).value;
      && m.input != [] && |parameters| == 1 && 0 <= parameters[0] < |m.code|
      && t.machine.input == m.input[..|m.input| - 1]
      && t.machine.code == m.code[parameters[0] := m.input[|m.input| - 1]]
      && t.machine.output == m.output
      && t.ip == ip + 2 && !t.halt
  {
  }

  /** `output` appends the resolved value and changes nothing else. */
  lemma OutputEffect(m: Machine, parameters: seq<int>, modes: seq<int>, ip: int, end: InputEnd)
    requires |parameters| <= 1 && Execute(Output, m, parameters, modes, ip, end).Ok?
    ensures var t := Execute(Output, m, parameters, modes, ip, end).value;
      && |parameters| == 1 && modes != []
      && LookupParameter(m.code, parameters[0], modes[0]).Ok?
      && t.machine.output == m.output + [LookupParameter(m.code, parameters[0], modes[0]).value]
      && t.machine.code == m.code && t.machine.input == m.input
      && t.ip == ip + 2 && !t.halt
  {
  }

  /** `run`'s decoding: a word whose low two digits name a table entry
      runs that handler on the sliced parameters and the padded modes. */
  lemma StepDecodes(m: Machine, ip: int, end: InputEnd, op: Op, n: nat)
    requires 0 <= ip < |m.code| && m.code[ip] >= 0
    requires OpcodeTable(m.code[ip] % 100) == Some((op, n))
    ensures Step(m, ip, end) ==
      Execute(op, m, m.code[ip + 1 .. Min(ip + n + 1, |m.code|)], PadModes(Decimal.Digits(m.code[ip] / 100), n), ip, end)
  {
  }

  /** A store instruction with no mode digits (all position mode) reads
      the cells its first two parameters name and writes the cell the third
      names, then moves on by 4. */
  lemma PositionStoreStep(m: Machine, ip: int, end: InputEnd, op: Op)
    requires op.IsStore() && 0 <= ip && ip + 3 < |m.code| && m.code[ip] == OpcodeOf(op)
    requires 0 <= m.code[ip + 1] < |m.code| && 0 <= m.code[ip + 2] < |m.code| && 0 <= m.code[ip + 3] < |m.code|
    ensures Step(m, ip, end) ==
      Ok(Transition(m.(code := m.code[m.code[ip + 3] := Combine(op, m.code[m.code[ip + 1]], m.code[m.code[ip + 2]])]),
                    ip + 4, false))
  {
    var parameters := m.code[ip + 1 .. ip + 4];
    StepDecodes(m, ip, end, op, 3);
    assert Decimal.Digits(m.code[ip] / 100) == [];
    assert PadModes([], 3) == [PositionMode, PositionMode, PositionMode];
    StoreSucceeds(op, m, parameters, [PositionMode, PositionMode, PositionMode], ip, end);
  }

  /** Opcode 99 stops the run at the same pointer with the machine unchanged. */
  lemma HaltStops(m: Machine, ip: int, end: InputEnd, fuel: nat)
    requires 0 <= ip < |m.code| && m.code[ip] >= 0 && m.code[ip] % 100 == HaltOpcode
    requires fuel > 0
    ensures Step(m, ip, end) == Ok(Transition(m, ip, true))
    ensures Run(m, ip, end, fuel) == Halted(m, ip)
  {
    assert ParseOpcode(m.code[ip]).value.0 == HaltOpcode;
    RunStep(m, ip, end, fuel, Transition(m, ip, true), fuel - 1);
  }

  /** An opcode missing from the table fails the lookup before any handler
      runs. */
  lemma UnknownOpcodeFaults(m: Machine, ip: int, end: InputEnd, fuel: nat)
    requires 0 <= ip < |m.code| && m.code[ip] >= 0
    requires OpcodeTable(m.code[ip] % 100).None?
    requires fuel > 0
    ensures Run(m, ip, end, fuel) == Faulted(UnknownOpcode(m.code[ip] % 100))
  {
  }

  /** Mode digits the word leaves out read as position mode. */
  lemma ShortModesArePosition(word: nat, n: nat, i: nat)
    requires i < n
    requires i >= |ParseOpcode(word).value.1|
    ensures PadModes(ParseOpcode(word).value.1, n)[i] == PositionMode
  {
  }

  // ---------------------------------------------------------------------
  // Whole runs

  lemma ExecuteGrowsOutput(op: Op, m: Machine, parameters: seq<int>, modes: seq<int>, ip: int, end: InputEnd)
    requires Execute(op, m, parameters, modes, ip, end).Ok?
    ensures var t := Execute(op, m, parameters, modes, ip, end).value;
      |t.machine.code| == |m.code| && m.output <= t.machine.output
  {
    match op
    case Add =>
    case Multiply =>
    case LessThan =>
    case Equals =>
    case Input =>
    case Output =>
    case JumpIfTrue =>
    case JumpIfFalse =>
    case Halt =>
  }

  /** One step keeps the tape's length and only appends to the output. */
  lemma StepGrowsOutput(m: Machine, ip: int, end: InputEnd)
    requires Step(m, ip, end).Ok?
    ensures var t := Step(m, ip, end).value;
      |t.machine.code| == |m.code| && m.output <= t.machine.output
  {
    var decoded := ParseOpcode(m.code[ip]).value;
    var entry := OpcodeTable(decoded.0).value;
    ExecuteGrowsOutput(entry.0, m, Parameters(m.code, ip, entry.1), PadModes(decoded.1, entry.1), ip, end);
  }

  /** One step of a run: a run with fuel left continues from the
      transition its first instruction makes. */
  lemma RunStep(m: Machine, ip: int, end: InputEnd, fuel: nat, t: Transition, rest: nat)
    requires fuel == rest + 1 && Step(m, ip, end) == Ok(t)
    ensures Run(m, ip, end, fuel) == if t.halt then Halted(t.machine, t.ip) else Run(t.machine, t.ip, end, rest)
  {
    RunOnce(m, ip, end, rest, t);
  }

  lemma RunOnce(m: Machine, ip: int, end: InputEnd, rest: nat, t: Transition)
    requires Step(m, ip, end) == Ok(t)
    ensures Run(m, ip, end, rest + 1) == if t.halt then Halted(t.machine, t.ip) else Run(t.machine, t.ip, end, rest)
  {
  }

  /** A run never resizes the tape and its output only grows. */
  lemma {:induction false} RunGrowsOutput(m: Machine, ip: int, end: InputEnd, fuel: nat)
    ensures Run(m, ip, end, fuel).Halted? || Run(m, ip, end, fuel).OutOfFuel? ==>
      var m' := Run(m, ip, end, fuel).machine;
      |m'.code| == |m.code| && m.output <= m'.output
    decreases fuel
  {
    if fuel > 0 && Step(m, ip, end).Ok? {
      StepGrowsOutput(m, ip, end);
      var t, rest := Step(m, ip, end).value, fuel - 1;
      RunStep(m, ip, end, fuel, t, rest);
      if !t.halt {
        RunGrowsOutput(t.machine, t.ip, end, rest);
      }
    }
  }

  /** The same machine with its input queue reversed. */
  function Flip(m: Machine): Machine {
    m.(input := Decimal.Reverse(m.input))
  }

  function FlipOutcome(o: Outcome): Outcome {
    match o
    case Halted(m, ip) => Halted(Flip(m), ip)
    case Faulted(f) => Faulted(f)
    case OutOfFuel(m, ip) => OutOfFuel(Flip(m), ip)
  }

  function FlipResult(r: Result<Transition, Fault>): Result<Transition, Fault> {
    match r
    case Ok(t) => Ok(t.(machine := Flip(t.machine)))
    case Err(f) => Err(f)
  }

  lemma ExecuteFlip(op: Op, m: Machine, parameters: seq<int>, modes: seq<int>, ip: int)
    ensures Execute(op, Flip(m), parameters, modes, ip, Back) == FlipResult(Execute(op, m, parameters, modes, ip, Front))
  {
    match op
    case Add =>
    case Multiply =>
    case LessThan =>
    case Equals =>
    case Input =>
      if m.input != [] {
        assert Consume(Decimal.Reverse(m.input), Back) == (m.input[0], Decimal.Reverse(m.input[1..]));
      }
    case Output =>
    case JumpIfTrue =>
    case JumpIfFalse =>
    case Halt =>
  }

  lemma StepFlip(m: Machine, ip: int)
    ensures Step(Flip(m), ip, Back) == FlipResult(Step(m, ip, Front))
  {
    if 0 <= ip < |m.code| && ParseOpcode(m.code[ip]).Ok? {
      var decoded := ParseOpcode(m.code[ip]).value;
      if OpcodeTable(decoded.0).Some? {
        var entry := OpcodeTable(decoded.0).value;
        ExecuteFlip(entry.0, m, Parameters(m.code, ip, entry.1), PadModes(decoded.1, entry.1), ip);
      }
    }
  }

  /** Reading the input from the front (the console of
      5/thermal_environment_supervision_terminal.py) is popping it from the
      back (intcode/intcode.py) with the queue reversed. */
  lemma {:induction false} RunFrontIsBackReversed(m: Machine, ip: int, fuel: nat)
    ensures Run(Flip(m), ip, Back, fuel) == FlipOutcome(Run(m, ip, Front, fuel))
    decreases fuel
  {
    if fuel > 0 {
      StepFlip(m, ip);
      match Step(m, ip, Front)
      case Err(f) =>
      case Ok(t) =>
        var rest := fuel - 1;
        RunStep(m, ip, Front, fuel, t, rest);
        RunStep(Flip(m), ip, Back, fuel, t.(machine := Flip(t.machine)), rest);
        if !t.halt {
          RunFrontIsBackReversed(t.machine, t.ip, rest);
        }
    }
  }
}

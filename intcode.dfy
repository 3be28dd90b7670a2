/** The Intcode interpreter of intcode/intcode.py: a `Program` object owns
    the tape (a list the handlers overwrite in place, never resized) and the
    input and output lists; `run` loops over fetch, decode, dispatch until a
    handler says halt. Every method is proved against module IntcodeSpec. */
module Intcode {
  import opened Wrappers
  import opened IntcodeSpec

  /** What a handler hands back to `run`: the next pointer and the halt flag. */
  datatype Next = Next(ip: int, halt: bool)

  /** A decoded instruction: its handler, sliced parameters and padded modes. */
  datatype Instruction = Instruction(op: Op, parameters: seq<int>, modes: seq<int>)

  /** A handler's result `r` and the machine `now` it leaves behind agree
      with the specification's result for the machine `before`. */
  ghost predicate Completes(r: Result<Next, Fault>, spec: Result<Transition, Fault>, now: Machine, before: Machine) {
    match spec
    case Ok(t) => r == Ok(Next(t.ip, t.halt)) && now == t.machine
    case Err(f) => r == Err(f) && now.code == before.code && now.output == before.output
  }

  /** The body shared by `add`, `multiply`, `less_than` and `equals`:
      resolve two values, then overwrite one cell of the tape. */
  method Store(code: array<int>, ghost m: Machine, op: Op, parameters: seq<int>, modes: seq<int>, ip: int)
    returns (r: Result<Next, Fault>)
    requires op.IsStore() && m.code == code[..]
    modifies code
    ensures Completes(r, ExecStore(op, m, parameters, modes, ip), m.(code := code[..]), m)
  {
    var values := LookupParameters(code[..], parameters[..Min(2, |parameters|)], modes[..Min(2, |modes|)]);
    if values.Err? {
      return Err(values.error);
    }
    if |values.value| < 2 || |parameters| < 3 {
      return Err(MissingParameter);
    }
    var address := parameters[2];
    if !(0 <= address < code.Length) {
      return Err(AddressOutOfRange(address));
    }
    code[address] := Combine(op, values.value[0], values.value[1]);
    return Ok(Next(ip + |parameters| + 1, false));
  }

  /** The body shared by `jump_if_true` and `jump_if_false`. */
  method Jump(code: array<int>, onNonZero: bool, parameters: seq<int>, modes: seq<int>, ip: int)
    returns (r: Result<Next, Fault>)
    ensures forall m: Machine | m.code == code[..] ::
      Completes(r, ExecJump(onNonZero, m, parameters, modes, ip), m, m)
  {
    var values := LookupParameters(code[..], parameters, modes);
    if values.Err? {
      return Err(values.error);
    }
    if |values.value| != 2 {
      return Err(MissingParameter);
    }
    var condition, address := values.value[0], values.value[1];
    if (condition != 0) == onNonZero {
      return Ok(Next(address, false));
    }
    return Ok(Next(ip + |parameters| + 1, false));
  }

  /** A decoded instruction `r` is what `Step` dispatches at `ip`. */
  ghost predicate DecodesAs(r: Result<Instruction, Fault>, m: Machine, ip: int, end: InputEnd) {
    match r
    case Ok(i) => Step(m, ip, end) == Execute(i.op, m, i.parameters, i.modes, ip, end)
    case Err(f) => Step(m, ip, end) == Err(f)
  }

  /** The decoding half of `run`'s loop body: fetch the word, split it,
      look the opcode up, pad the modes with 0 and slice the parameters. */
  method Decode(code: array<int>, ip: int) returns (r: Result<Instruction, Fault>)
    ensures forall m: Machine, end: InputEnd | m.code == code[..] :: DecodesAs(r, m, ip, end)
  {
    if !(0 <= ip < code.Length) {
      return Err(AddressOutOfRange(ip));
    }
    var fullOpcode := code[ip];
    var decoded := ParseOpcode(fullOpcode);
    if decoded.Err? {
      return Err(decoded.error);
    }
    var opcode, modes := decoded.value.0, decoded.value.1;
    var entry := OpcodeTable(opcode);
    if entry.None? {
      return Err(UnknownOpcode(opcode));
    }
    var operation, nParameters := entry.value.0, entry.value.1;
    // missing modes are position mode
    if |modes| != nParameters {
      modes := PadModes(modes, nParameters);
    }
    var parameters := code[ip + 1 .. Min(ip + nParameters + 1, code.Length)];
    assert parameters == Parameters(code[..], ip, nParameters);
    assert modes == PadModes(decoded.value.1, nParameters);
    r := Ok(Instruction(operation, parameters, modes));
  }

  class Program {
    var code: array<int>
    var input: seq<int>
    var output: seq<int>

    /** `Program(code, input)`: the tape is shared with the caller, the
        output starts empty. */
    constructor (code: array<int>, input: seq<int>)
      ensures this.code == code && this.input == input && output == []
    {
      this.code := code;
      this.input := input;
      output := [];
    }

    /** The value the object holds. */
    ghost function State(): Machine
      reads this, code
    {
      Machine(code[..], input, output)
    }

    method Add(parameters: seq<int>, modes: seq<int>, ip: int) returns (r: Result<Next, Fault>)
      modifies code
      ensures Completes(r, Execute(Op.Add, old(State()), parameters, modes, ip, Back), State(), old(State()))
    {
      r := Store(code, State(), Op.Add, parameters, modes, ip);
    }

    method Multiply(parameters: seq<int>, modes: seq<int>, ip: int) returns (r: Result<Next, Fault>)
      modifies code
      ensures Completes(r, Execute(Op.Multiply, old(State()), parameters, modes, ip, Back), State(), old(State()))
    {
      r := Store(code, State(), Op.Multiply, parameters, modes, ip);
    }

    method LessThan(parameters: seq<int>, modes: seq<int>, ip: int) returns (r: Result<Next, Fault>)
      modifies code
      ensures Completes(r, Execute(Op.LessThan, old(State()), parameters, modes, ip, Back), State(), old(State()))
    {
      r := Store(code, State(), Op.LessThan, parameters, modes, ip);
    }

    method Equals(parameters: seq<int>, modes: seq<int>, ip: int) returns (r: Result<Next, Fault>)
      modifies code
      ensures Completes(r, Execute(Op.Equals, old(State()), parameters, modes, ip, Back), State(), old(State()))
    {
      r := Store(code, State(), Op.Equals, parameters, modes, ip);
    }

    /** `input_`: pop the LAST input value, then store it at
        `parameters[0]`; on a short instruction the value is already gone. */
    method Input(parameters: seq<int>, modes: seq<int>, ip: int) returns (r: Result<Next, Fault>)
      modifies this`input, code
      ensures Completes(r, Execute(Op.Input, old(State()), parameters, modes, ip, Back), State(), old(State()))
      ensures r.Err? ==> input == if old(input) == [] then [] else old(input)[..|old(input)| - 1]
    {
      if input == [] {
        return Err(EmptyInput);
      }
      var value := input[|input| - 1];
      input := input[..|input| - 1];
      if parameters == [] {
        return Err(MissingParameter);
      }
      var address := parameters[0];
      if !(0 <= address < code.Length) {
        return Err(AddressOutOfRange(address));
      }
      code[address] := value;
      return Ok(Next(ip + |parameters| + 1, false));
    }

    /** `output`: append the resolved value to the output list. */
    method Output(parameters: seq<int>, modes: seq<int>, ip: int) returns (r: Result<Next, Fault>)
      modifies this`output
      ensures Completes(r, Execute(Op.Output, old(State()), parameters, modes, ip, Back), State(), old(State()))
    {
      if parameters == [] || modes == [] {
        return Err(MissingParameter);
      }
      var value := LookupParameter(code[..], parameters[0], modes[0]);
      if value.Err? {
        return Err(value.error);
      }
      output := output + [value.value];
      return Ok(Next(ip + |parameters| + 1, false));
    }

    method JumpIfTrue(parameters: seq<int>, modes: seq<int>, ip: int) returns (r: Result<Next, Fault>)
      ensures Completes(r, Execute(Op.JumpIfTrue, State(), parameters, modes, ip, Back), State(), State())
    {
      r := Jump(code, true, parameters, modes, ip);
    }

    method JumpIfFalse(parameters: seq<int>, modes: seq<int>, ip: int) returns (r: Result<Next, Fault>)
      ensures Completes(r, Execute(Op.JumpIfFalse, State(), parameters, modes, ip, Back), State(), State())
    {
      r := Jump(code, false, parameters, modes, ip);
    }

    method Halt(parameters: seq<int>, modes: seq<int>, ip: int) returns (r: Result<Next, Fault>)
      ensures Completes(r, Execute(Op.Halt, State(), parameters, modes, ip, Back), State(), State())
    {
      return Ok(Next(ip, true));
    }

    /** Call the handler `OP_CODE_TABLE` names. */
    method Operate(op: Op, parameters: seq<int>, modes: seq<int>, ip: int) returns (r: Result<Next, Fault>)
      modifies this`input, this`output, code
      ensures Completes(r, Execute(op, old(State()), parameters, modes, ip, Back), State(), old(State()))
    {
      match op
      case Add => r := Add(parameters, modes, ip);
      case Multiply => r := Multiply(parameters, modes, ip);
      case Input => r := Input(parameters, modes, ip);
      case Output => r := Output(parameters, modes, ip);
      case JumpIfTrue => r := JumpIfTrue(parameters, modes, ip);
      case JumpIfFalse => r := JumpIfFalse(parameters, modes, ip);
      case LessThan => r := LessThan(parameters, modes, ip);
      case Equals => r := Equals(parameters, modes, ip);
      case Halt => r := Halt(parameters, modes, ip);
    }

    /** One pass of `run`'s loop body: fetch, decode and dispatch the
        instruction at `ip`, spending one unit of `fuel`. A run of the old
        state is the run of the new one with the fuel that is left. */
    method Tick(ip: int, fuel: nat) returns (r: Result<Next, Fault>, left: nat)
      requires fuel > 0
      modifies this`input, this`output, code
      ensures fuel == left + 1
      ensures var goal := IntcodeSpec.Run(old(State()), ip, Back, fuel);
        match r
        case Err(f) => goal == Faulted(f)
        case Ok(n) =>
          if n.halt then goal == Halted(State(), n.ip)
          else goal == IntcodeSpec.Run(State(), n.ip, Back, left)
    {
      left := fuel - 1;
      ghost var before := State();
      var instruction := Decode(code, ip);
      assert DecodesAs(instruction, before, ip, Back);
      if instruction.Err? {
        return Err(instruction.error), left;
      }
      ghost var step := Execute(instruction.value.op, before, instruction.value.parameters, instruction.value.modes, ip, Back);
      assert Step(before, ip, Back) == step;
      r := Operate(instruction.value.op, instruction.value.parameters, instruction.value.modes, ip);
      if r.Ok? {
        RunStep(before, ip, Back, fuel, Transition(State(), r.value.ip, r.value.halt), left);
      }
    }

    /** `run`: from pointer 0, decode and dispatch until a handler says
        halt; `fuel` bounds the number of instructions executed. */
    method Run(fuel: nat) returns (outcome: Outcome)
      modifies this`input, this`output, code
      ensures outcome == IntcodeSpec.Run(old(State()), 0, Back, fuel)
      ensures outcome.Halted? || outcome.OutOfFuel? ==> State() == outcome.machine
    {
      ghost var goal := IntcodeSpec.Run(State(), 0, Back, fuel);
      var ip := 0;
      var halt := false;
      var left := fuel;
      while !halt
        invariant !halt ==> IntcodeSpec.Run(State(), ip, Back, left) == goal
        invariant halt ==> goal == Halted(State(), ip)
        decreases left, !halt
      {
        if left == 0 {
          return OutOfFuel(Machine(code[..], input, output), ip);
        }
        var next;
        next, left := Tick(ip, left);
        if next.Err? {
          return Faulted(next.error);
        }
        ip, halt := next.value.ip, next.value.halt;
      }
      return Halted(Machine(code[..], input, output), ip);
    }
  }
}

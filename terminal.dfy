/** The diagnostic terminal of 5/thermal_environment_supervision_terminal.py:
    the same fetch, decode, dispatch loop as intcode/intcode.py, but run as
    a function over a list the handlers overwrite in place, with input read
    from the console and output written. The console is a sequence of
    values read from its front; what `output` writes is collected in order. */
module Terminal {
  import opened Wrappers
  import opened IntcodeSpec
  import Intcode
  import Decimal

  /** `input_`: read the next console value, then store it at
      `parameters[0]`; the value is consumed even when the store fails. */
  method ReadInto(program: array<int>, console: seq<int>, parameters: seq<int>, ip: int)
    returns (r: Result<Intcode.Next, Fault>, rest: seq<int>)
    modifies program
    ensures var m := Machine(old(program[..]), console, []);
      match ExecInput(m, parameters, ip, Front)
      case Ok(t) => r == Ok(Intcode.Next(t.ip, t.halt)) && program[..] == t.machine.code && rest == t.machine.input
      case Err(f) => r == Err(f) && program[..] == old(program[..])
  {
    rest := console;
    if console == [] {
      return Err(EmptyInput), rest;
    }
    var value := console[0];
    rest := console[1..];
    if parameters == [] {
      return Err(MissingParameter), rest;
    }
    var address := parameters[0];
    if !(0 <= address < program.Length) {
      return Err(AddressOutOfRange(address)), rest;
    }
    program[address] := value;
    return Ok(Intcode.Next(ip + |parameters| + 1, false)), rest;
  }

  /** `output`: resolve the first parameter and write it to the console. */
  method Print(program: array<int>, parameters: seq<int>, modes: seq<int>, ip: int)
    returns (r: Result<Intcode.Next, Fault>, emitted: seq<int>)
    ensures forall m: Machine | m.code == program[..] ::
      match ExecOutput(m, parameters, modes, ip)
      case Ok(t) => r == Ok(Intcode.Next(t.ip, t.halt)) && t.machine.output == m.output + emitted
      case Err(f) => r == Err(f) && emitted == []
  {
    emitted := [];
    if parameters == [] || modes == [] {
      return Err(MissingParameter), emitted;
    }
    var value := LookupParameter(program[..], parameters[0], modes[0]);
    if value.Err? {
      return Err(value.error), emitted;
    }
    emitted := [value.value];
    return Ok(Intcode.Next(ip + |parameters| + 1, false)), emitted;
  }

  /** The machine the loop of `run` holds: the list and the console. */
  ghost function Snapshot(program: array<int>, console: seq<int>, trace: seq<int>): Machine
    reads program
  {
    Machine(program[..], console, trace)
  }

  /** Call the handler `OP_CODE_TABLE` names on the list and the console. */
  method Operate(program: array<int>, console: seq<int>, trace: seq<int>, op: Op, parameters: seq<int>, modes: seq<int>, ip: int)
    returns (r: Result<Intcode.Next, Fault>, console': seq<int>, trace': seq<int>)
    modifies program
    ensures Intcode.Completes(r, Execute(op, old(Snapshot(program, console, trace)), parameters, modes, ip, Front),
                              Snapshot(program, console', trace'), old(Snapshot(program, console, trace)))
  {
    ghost var m := Machine(program[..], console, trace);
    console', trace' := console, trace;
    match op
    case Add => r := Intcode.Store(program, m, op, parameters, modes, ip);
    case Multiply => r := Intcode.Store(program, m, op, parameters, modes, ip);
    case LessThan => r := Intcode.Store(program, m, op, parameters, modes, ip);
    case Equals => r := Intcode.Store(program, m, op, parameters, modes, ip);
    case Input =>
      r, console' := ReadInto(program, console, parameters, ip);
      assert ExecInput(m, parameters, ip, Front).Ok? ==>
        ExecInput(m, parameters, ip, Front).value.machine.output == trace;
    case Output =>
      var emitted;
      r, emitted := Print(program, parameters, modes, ip);
      trace' := trace + emitted;
    case JumpIfTrue => r := Intcode.Jump(program, true, parameters, modes, ip);
    case JumpIfFalse => r := Intcode.Jump(program, false, parameters, modes, ip);
    case Halt => r := Ok(Intcode.Next(ip, true));
  }

  /** One pass of `run`'s loop body: fetch, decode and dispatch the
      instruction at `ip`, spending one unit of `fuel`. A run of the old
      machine is the run of the new one with the fuel that is left. */
  method Tick(program: array<int>, console: seq<int>, trace: seq<int>, ip: int, fuel: nat)
    returns (r: Result<Intcode.Next, Fault>, console': seq<int>, trace': seq<int>, left: nat)
    requires fuel > 0
    modifies program
    ensures fuel == left + 1
    ensures var goal := IntcodeSpec.Run(old(Snapshot(program, console, trace)), ip, Front, fuel);
      match r
      case Err(f) => goal == Faulted(f)
      case Ok(n) =>
        if n.halt then goal == Halted(Snapshot(program, console', trace'), n.ip)
        else goal == IntcodeSpec.Run(Snapshot(program, console', trace'), n.ip, Front, left)
  {
    ghost var before := Snapshot(program, console, trace);
    console', trace', left := console, trace, fuel - 1;
    var instruction := Intcode.Decode(program, ip);
    assert Intcode.DecodesAs(instruction, before, ip, Front);
    if instruction.Err? {
      return Err(instruction.error), console', trace', left;
    }
    ghost var step := Execute(instruction.value.op, before, instruction.value.parameters, instruction.value.modes, ip, Front);
    assert Step(before, ip, Front) == step;
    r, console', trace' := Operate(program, console, trace, instruction.value.op, instruction.value.parameters, instruction.value.modes, ip);
    if r.Ok? {
      RunStep(before, ip, Front, fuel, Transition(Snapshot(program, console', trace'), r.value.ip, r.value.halt), left);
    }
  }

  /** `run`: from pointer 0, decode and dispatch until a handler says halt;
      the list is changed in place. `fuel` bounds the number of
      instructions executed; the outcome's output is what was emitted. */
  method Run(program: array<int>, console: seq<int>, fuel: nat) returns (outcome: Outcome)
    modifies program
    ensures outcome == IntcodeSpec.Run(Machine(old(program[..]), console, []), 0, Front, fuel)
    ensures outcome.Halted? || outcome.OutOfFuel? ==> program[..] == outcome.machine.code
  {
    ghost var goal := IntcodeSpec.Run(Snapshot(program, console, []), 0, Front, fuel);
    var ip := 0;
    var halt := false;
    var left := fuel;
    var rest := console;
    var trace := [];
    while !halt
      invariant !halt ==> IntcodeSpec.Run(Snapshot(program, rest, trace), ip, Front, left) == goal
      invariant halt ==> goal == Halted(Snapshot(program, rest, trace), ip)
      decreases left, !halt
    {
      if left == 0 {
        return OutOfFuel(Machine(program[..], rest, trace), ip);
      }
      var next;
      next, rest, trace, left := Tick(program, rest, trace, ip, left);
      if next.Err? {
        return Faulted(next.error);
      }
      ip, halt := next.value.ip, next.value.halt;
    }
    return Halted(Machine(program[..], rest, trace), ip);
  }

  // ---------------------------------------------------------------------
  // The programs the file checks after its definitions.

  /** `1,0,0,0,99` adds cell 0 to itself. */
  lemma AddsInPlace()
    ensures IntcodeSpec.Run(Machine([1, 0, 0, 0, 99], [], []), 0, Front, 2) == Halted(Machine([2, 0, 0, 0, 99], [], []), 4)
  {
    var m0, m1 := Machine([1, 0, 0, 0, 99], [], []), Machine([2, 0, 0, 0, 99], [], []);
    PositionStoreStep(m0, 0, Front, Op.Add);
    assert m0.code[0 := 2] == m1.code;
    HaltStops(m1, 4, Front, 1);
    RunStep(m0, 0, Front, 2, Transition(m1, 4, false), 1);
  }

  /** `2,3,0,3,99` multiplies into cell 3. */
  lemma MultipliesInPlace()
    ensures IntcodeSpec.Run(Machine([2, 3, 0, 3, 99], [], []), 0, Front, 2) == Halted(Machine([2, 3, 0, 6, 99], [], []), 4)
  {
    var m0, m1 := Machine([2, 3, 0, 3, 99], [], []), Machine([2, 3, 0, 6, 99], [], []);
    PositionStoreStep(m0, 0, Front, Op.Multiply);
    assert m0.code[3 := 6] == m1.code;
    HaltStops(m1, 4, Front, 1);
    RunStep(m0, 0, Front, 2, Transition(m1, 4, false), 1);
  }

  /** `2,4,4,5,99,0` squares 99 past the halt instruction. */
  lemma SquaresPastHalt()
    ensures IntcodeSpec.Run(Machine([2, 4, 4, 5, 99, 0], [], []), 0, Front, 2) == Halted(Machine([2, 4, 4, 5, 99, 9801], [], []), 4)
  {
    var m0, m1 := Machine([2, 4, 4, 5, 99, 0], [], []), Machine([2, 4, 4, 5, 99, 9801], [], []);
    PositionStoreStep(m0, 0, Front, Op.Multiply);
    assert m0.code[5 := 9801] == m1.code;
    HaltStops(m1, 4, Front, 1);
    RunStep(m0, 0, Front, 2, Transition(m1, 4, false), 1);
  }

  /** `1,1,1,4,99,...` rewrites its own halt into a multiply. */
  lemma SelfModifies()
    ensures IntcodeSpec.Run(Machine([1, 1, 1, 4, 99, 5, 6, 0, 99], [], []), 0, Front, 3)
            == Halted(Machine([30, 1, 1, 4, 2, 5, 6, 0, 99], [], []), 8)
  {
    var m0 := Machine([1, 1, 1, 4, 99, 5, 6, 0, 99], [], []);
    var m1 := Machine([1, 1, 1, 4, 2, 5, 6, 0, 99], [], []);
    var m2 := Machine([30, 1, 1, 4, 2, 5, 6, 0, 99], [], []);
    PositionStoreStep(m0, 0, Front, Op.Add);
    assert m0.code[4 := 2] == m1.code;
    PositionStoreStep(m1, 4, Front, Op.Multiply);
    assert m1.code[0 := 30] == m2.code;
    HaltStops(m2, 8, Front, 1);
    RunStep(m1, 4, Front, 2, Transition(m2, 8, false), 1);
    RunStep(m0, 0, Front, 3, Transition(m1, 4, false), 2);
  }

  /** The three-instruction program that computes 3500. */
  lemma ComputesThirtyFiveHundred()
    ensures IntcodeSpec.Run(Machine([1, 9, 10, 3, 2, 3, 11, 0, 99, 30, 40, 50], [], []), 0, Front, 3)
            == Halted(Machine([3500, 9, 10, 70, 2, 3, 11, 0, 99, 30, 40, 50], [], []), 8)
  {
    var m0 := Machine([1, 9, 10, 3, 2, 3, 11, 0, 99, 30, 40, 50], [], []);
    var m1 := Machine([1, 9, 10, 70, 2, 3, 11, 0, 99, 30, 40, 50], [], []);
    var m2 := Machine([3500, 9, 10, 70, 2, 3, 11, 0, 99, 30, 40, 50], [], []);
    AddsFortyAndThirty();
    MultipliesByFifty();
    HaltStops(m2, 8, Front, 1);
    RunStep(m1, 4, Front, 2, Transition(m2, 8, false), 1);
    RunStep(m0, 0, Front, 3, Transition(m1, 4, false), 2);
  }

  /** Its first instruction stores 30 + 40 in cell 3. */
  lemma AddsFortyAndThirty()
    ensures IntcodeSpec.Step(Machine([1, 9, 10, 3, 2, 3, 11, 0, 99, 30, 40, 50], [], []), 0, Front)
            == Ok(Transition(Machine([1, 9, 10, 70, 2, 3, 11, 0, 99, 30, 40, 50], [], []), 4, false))
  {
    var m0 := Machine([1, 9, 10, 3, 2, 3, 11, 0, 99, 30, 40, 50], [], []);
    PositionStoreStep(m0, 0, Front, Op.Add);
    assert m0.code[3 := 70] == [1, 9, 10, 70, 2, 3, 11, 0, 99, 30, 40, 50];
  }

  /** Its second instruction stores 70 * 50 in cell 0. */
  lemma MultipliesByFifty()
    ensures IntcodeSpec.Step(Machine([1, 9, 10, 70, 2, 3, 11, 0, 99, 30, 40, 50], [], []), 4, Front)
            == Ok(Transition(Machine([3500, 9, 10, 70, 2, 3, 11, 0, 99, 30, 40, 50], [], []), 8, false))
  {
    var m1 := Machine([1, 9, 10, 70, 2, 3, 11, 0, 99, 30, 40, 50], [], []);
    PositionStoreStep(m1, 4, Front, Op.Multiply);
    assert m1.code[0 := 3500] == [3500, 9, 10, 70, 2, 3, 11, 0, 99, 30, 40, 50];
  }
}

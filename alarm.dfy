/** 2/intcode.py as written: `run` walks a list the handlers overwrite in
    place, moving on by 4 after every instruction. Every method is proved
    against module AlarmSpec. */
module Alarm {
  import opened Wrappers
  import opened AlarmSpec

  /** A handler's result `r` and the list `now` it leaves behind agree with
      the specification's result for the list `before`. */
  ghost predicate Applied(r: Result<bool, Fault>, spec: Result<seq<int>, Fault>, now: seq<int>, before: seq<int>) {
    match spec
    case Ok(tape) => r == Ok(false) && now == tape
    case Err(f) => r == Err(f) && now == before
  }

  /** The body `add` and `multiply` share. */
  method Arithmetic(program: array<int>, position: int, word: int) returns (r: Result<bool, Fault>)
    requires IsArithmetic(word)
    modifies program
    ensures Applied(r, AlarmSpec.Arithmetic(old(program[..]), position, word), program[..], old(program[..]))
  {
    if !(0 <= position + 1 && position + 2 < program.Length) {
      return Err(AddressOutOfRange(if 0 <= position + 1 < program.Length then position + 2 else position + 1));
    }
    var index1, index2 := program[position + 1], program[position + 2];
    if !(0 <= index1 < program.Length) {
      return Err(AddressOutOfRange(index1));
    }
    if !(0 <= index2 < program.Length) {
      return Err(AddressOutOfRange(index2));
    }
    var x, y := program[index1], program[index2];
    if !(position + 3 < program.Length) {
      return Err(AddressOutOfRange(position + 3));
    }
    var register := program[position + 3];
    if !(0 <= register < program.Length) {
      return Err(AddressOutOfRange(register));
    }
    program[register] := Combine(word, x, y);
    return Ok(false);
  }

  /** `add`: the register cell becomes the sum of the two named cells. */
  method Add(program: array<int>, position: int) returns (r: Result<bool, Fault>)
    modifies program
    ensures Applied(r, AlarmSpec.Arithmetic(old(program[..]), position, AddWord), program[..], old(program[..]))
  {
    r := Arithmetic(program, position, AddWord);
  }

  /** `multiply`: the register cell becomes the product of the two named cells. */
  method Multiply(program: array<int>, position: int) returns (r: Result<bool, Fault>)
    modifies program
    ensures Applied(r, AlarmSpec.Arithmetic(old(program[..]), position, MultiplyWord), program[..], old(program[..]))
  {
    r := Arithmetic(program, position, MultiplyWord);
  }

  /** `halt`: the list unchanged and the flag set. */
  method Halt(program: array<int>, position: int) returns (r: Result<bool, Fault>)
    ensures r == Ok(true)
    ensures 0 <= position < program.Length && program[position] == HaltWord ==>
      Step(program[..], position) == Ok((program[..], r.value))
  {
    return Ok(true);
  }

  /** One pass of `run`'s loop body: look the word up in `OP_CODES` and
      call its handler, spending one unit of `fuel`. */
  method Tick(program: array<int>, position: int, fuel: nat) returns (r: Result<bool, Fault>, left: nat)
    requires fuel > 0
    modifies program
    ensures fuel == left + 1
    ensures var goal := AlarmSpec.Run(old(program[..]), position, fuel);
      match r
      case Err(f) => goal == Faulted(f)
      case Ok(halt) =>
        if halt then goal == Halted(program[..], position + 4)
        else goal == AlarmSpec.Run(program[..], position + 4, left)
  {
    left := fuel - 1;
    ghost var before := program[..];
    if !(0 <= position < program.Length) {
      return Err(AddressOutOfRange(position)), left;
    }
    var word := program[position];
    if word == AddWord {
      r := Add(program, position);
    } else if word == MultiplyWord {
      r := Multiply(program, position);
    } else if word == HaltWord {
      r := Halt(program, position);
    } else {
      return Err(UnknownOpcode(word)), left;
    }
    if r.Ok? {
      RunStep(before, position, fuel, program[..], r.value, left);
    }
  }

  /** `run`: from position 0 until a handler says halt, adding 4 to the
      position after every instruction; the list is changed in place and
      `fuel` bounds the number of instructions executed. */
  method Run(program: array<int>, fuel: nat) returns (outcome: Outcome)
    modifies program
    ensures outcome == AlarmSpec.Run(old(program[..]), 0, fuel)
    ensures outcome.Halted? || outcome.OutOfFuel? ==> program[..] == outcome.tape
  {
    ghost var goal := AlarmSpec.Run(program[..], 0, fuel);
    var position := 0;
    var halt := false;
    var left := fuel;
    while !halt
      invariant !halt ==> AlarmSpec.Run(program[..], position, left) == goal
      invariant halt ==> goal == Halted(program[..], position)
      decreases left, !halt
    {
      if left == 0 {
        return OutOfFuel(program[..], position);
      }
      var next;
      next, left := Tick(program, position, left);
      if next.Err? {
        return Faulted(next.error);
      }
      halt := next.value;
      position := position + 4;
    }
    return Halted(program[..], position);
  }

  /** `run_with_noun_and_verb`: put the noun and the verb in cells 1 and 2,
      run, and read cell 0. */
  method RunWithNounAndVerb(program: array<int>, noun: int, verb: int, fuel: nat) returns (r: Result<int, Stop>)
    modifies program
    ensures r == AlarmSpec.RunWithNounAndVerb(old(program[..]), noun, verb, fuel)
    ensures program.Length == 2 ==> program[..] == old(program[..])[1 := noun]
  {
    if program.Length < 2 {
      return Err(Raised(AddressOutOfRange(1)));
    }
    program[1] := noun;
    if program.Length < 3 {
      return Err(Raised(AddressOutOfRange(2)));
    }
    program[2] := verb;
    var outcome := Run(program, fuel);
    match outcome
    case Halted(_, _) => r := Ok(program[0]);
    case Faulted(f) => r := Err(Raised(f));
    case OutOfFuel(_, _) => r := Err(Exhausted);
  }

  /** `run_with_noun_and_verb(PROGRAM[:], noun, verb)`: run a fresh copy,
      leaving `tape` itself alone. */
  method Attempt(tape: seq<int>, noun: int, verb: int, fuel: nat) returns (r: Result<int, Stop>)
    ensures r == AlarmSpec.RunWithNounAndVerb(tape, noun, verb, fuel)
  {
    var copy := new int[|tape|](i requires 0 <= i < |tape| => tape[i]);
    assert copy[..] == tape;
    r := RunWithNounAndVerb(copy, noun, verb, fuel);
  }

  /** The search after the definitions: try every (noun, verb) in
      `product(range(100), range(100))` order on a fresh copy of the
      program and stop at the first whose answer is `needle`; when none is,
      the loop variables are left at (99, 99). An exception ends the search. */
  method FindNounAndVerb(tape: seq<int>, needle: int, fuel: nat) returns (r: Result<(int, int), Stop>)
    ensures r.Ok? ==>
      var (noun, verb) := r.value;
      && 0 <= noun < 100 && 0 <= verb < 100
      && Misses(tape, needle, fuel, 100 * noun + verb)
      && (Answer(tape, fuel, 100 * noun + verb) == Ok(needle) || (Misses(tape, needle, fuel, 10000) && (noun, verb) == (99, 99)))
    ensures r.Err? ==> exists k :: 0 <= k < 10000 && Misses(tape, needle, fuel, k) && Answer(tape, fuel, k) == Err(r.error)
  {
    var noun, verb := 0, 0;
    var k := 0;
    while k < 10000
      invariant 0 <= k <= 10000
      invariant Misses(tape, needle, fuel, k)
      invariant k > 0 ==> noun == (k - 1) / 100 && verb == (k - 1) % 100
    {
      noun, verb := k / 100, k % 100;
      var result := Attempt(tape, noun, verb, fuel);
      assert result == Answer(tape, fuel, k);
      if result.Err? {
        return Err(result.error);
      }
      if result.value == needle {
        return Ok((noun, verb));
      }
      k := k + 1;
    }
    return Ok((noun, verb));
  }
}

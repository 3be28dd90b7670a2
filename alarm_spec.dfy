/** The first Intcode interpreter, 2/intcode.py, as pure functions: only
    the words 1 (`add`), 2 (`multiply`) and 99 (`halt`) exist, every
    parameter is an address, and `run` moves on by 4 after every
    instruction, the halting one included. */
module AlarmSpec {
  import opened Wrappers
  import IntcodeSpec

  const AddWord := 1
  const MultiplyWord := 2
  const HaltWord := 99

  /** The exceptions `run` can raise. */
  datatype Fault =
    | UnknownOpcode(word: int)        // KeyError in OP_CODES
    | AddressOutOfRange(address: int) // IndexError on the list

  datatype Outcome =
    | Halted(tape: seq<int>, position: int)
    | Faulted(fault: Fault)
    | OutOfFuel(tape: seq<int>, position: int)

  /** Why `run_with_noun_and_verb` gives no value. */
  datatype Stop = Raised(fault: Fault) | Exhausted

  /** `program[i]`. */
  function Read(tape: seq<int>, i: int): Result<int, Fault> {
    if 0 <= i < |tape| then Ok(tape[i]) else Err(AddressOutOfRange(i))
  }

  predicate IsArithmetic(word: int) { word == AddWord || word == MultiplyWord }

  function Combine(word: int, a: int, b: int): int
    requires IsArithmetic(word)
  {
    if word == AddWord then a + b else a * b
  }

  /** `add` and `multiply`: two addresses, the two cells they name, the
      register, then one write, each read raising when off the list. */
  function Arithmetic(tape: seq<int>, position: int, word: int): Result<seq<int>, Fault>
    requires IsArithmetic(word)
  {
    var index1 :- Read(tape, position + 1);
    var index2 :- Read(tape, position + 2);
    var x :- Read(tape, index1);
    var y :- Read(tape, index2);
    var register :- Read(tape, position + 3);
    if !(0 <= register < |tape|) then Err(AddressOutOfRange(register))
    else Ok(tape[register := Combine(word, x, y)])
  }

  /** One pass of `run`'s loop before the pointer moves: look the word up in
      `OP_CODES` and call the handler; the flag says halt. */
  function Step(tape: seq<int>, position: int): Result<(seq<int>, bool), Fault> {
    var word :- Read(tape, position);
    if IsArithmetic(word) then
      var tape' :- Arithmetic(tape, position, word);
      Ok((tape', false))
    else if word == HaltWord then Ok((tape, true))
    else Err(UnknownOpcode(word))
  }

  /** `run` from `position`, executing at most `fuel` instructions; the
      tape it returns always has the length it started with. */
  function Run(tape: seq<int>, position: int, fuel: nat): (r: Outcome)
    ensures r.Halted? || r.OutOfFuel? ==> |r.tape| == |tape|
    decreases fuel
  {
    if fuel == 0 then OutOfFuel(tape, position)
    else
      match Step(tape, position)
      case Err(f) => Faulted(f)
      case Ok((tape', halt)) =>
        if halt then Halted(tape', position + 4) else Run(tape', position + 4, fuel - 1)
  }

  /** `run_with_noun_and_verb`: write cells 1 and 2 (in that order), run
      from 0 and read cell 0 of the tape `run` returns. */
  function RunWithNounAndVerb(tape: seq<int>, noun: int, verb: int, fuel: nat): Result<int, Stop> {
    if |tape| < 2 then Err(Raised(AddressOutOfRange(1)))
    else if |tape| < 3 then Err(Raised(AddressOutOfRange(2)))
    else
      match Run(tape[1 := noun][2 := verb], 0, fuel)
      case Halted(final, _) => Ok(final[0])
      case Faulted(f) => Err(Raised(f))
      case OutOfFuel(_, _) => Err(Exhausted)
  }

  /** The `k`-th pair `product(range(100), range(100))` yields, answered. */
  function Answer(tape: seq<int>, fuel: nat, k: int): Result<int, Stop> {
    RunWithNounAndVerb(tape, k / 100, k % 100, fuel)
  }

  /** The first `k` pairs all answer, and none with `needle`. */
  ghost predicate Misses(tape: seq<int>, needle: int, fuel: nat, k: int) {
    forall j :: 0 <= j < k ==> Answer(tape, fuel, j).Ok? && Answer(tape, fuel, j).value != needle
  }

  // ---------------------------------------------------------------------
  // Handlers

  /** `add` and `multiply` change exactly the register cell, to the sum or
      product of the cells the first two parameters name. */
  lemma ArithmeticEffect(tape: seq<int>, position: int, word: int)
    requires IsArithmetic(word)
    ensures Arithmetic(tape, position, word).Ok? <==>
      && 0 <= position + 1 && position + 3 < |tape|
      && 0 <= tape[position + 1] < |tape| && 0 <= tape[position + 2] < |tape|
      && 0 <= tape[position + 3] < |tape|
    ensures Arithmetic(tape, position, word).Ok? ==>
      var tape' := Arithmetic(tape, position, word).value;
      var register := tape[position + 3];
      && |tape'| == |tape|
      && tape'[register] == Combine(word, tape[tape[position + 1]], tape[tape[position + 2]])
      && forall i :: 0 <= i < |tape| && i != register ==> tape'[i] == tape[i]
  {
  }

  /** The table has exactly three entries: 1 and 2 compute and go on, 99
      stops with the tape unchanged, any other word raises. */
  lemma StepDispatch(tape: seq<int>, position: int)
    requires 0 <= position < |tape|
    ensures IsArithmetic(tape[position]) ==>
      Step(tape, position) == match Arithmetic(tape, position, tape[position])
                              case Ok(tape') => Ok((tape', false))
                              case Err(f) => Err(f)
    ensures tape[position] == HaltWord ==> Step(tape, position) == Ok((tape, true))
    ensures tape[position] !in {AddWord, MultiplyWord, HaltWord} ==> Step(tape, position) == Err(UnknownOpcode(tape[position]))
  {
  }

  /** An `add` or `multiply` whose addresses are all on the list. */
  lemma ArithmeticStep(tape: seq<int>, position: int)
    requires 0 <= position && position + 3 < |tape| && IsArithmetic(tape[position])
    requires 0 <= tape[position + 1] < |tape| && 0 <= tape[position + 2] < |tape| && 0 <= tape[position + 3] < |tape|
    ensures Step(tape, position) ==
      Ok((tape[tape[position + 3] := Combine(tape[position], tape[tape[position + 1]], tape[tape[position + 2]])], false))
  {
  }

  /** One step of a run: a run with fuel left continues 4 cells on. */
  lemma RunStep(tape: seq<int>, position: int, fuel: nat, tape': seq<int>, halt: bool, rest: nat)
    requires fuel == rest + 1 && Step(tape, position) == Ok((tape', halt))
    ensures Run(tape, position, fuel) == if halt then Halted(tape', position + 4) else Run(tape', position + 4, rest)
  {
  }

  // ---------------------------------------------------------------------
  // Whole runs

  /** The pointer moves by exactly 4 each time, so a run from a multiple
      of 4 only visits multiples of 4; it halts 4 cells after a 99, and
      the tape it leaves still holds that 99. */
  lemma {:induction false} RunHaltsPastNinetyNine(tape: seq<int>, position: int, fuel: nat)
    requires position % 4 == 0
    ensures Run(tape, position, fuel).Halted? ==>
      var Halted(final, stop) := Run(tape, position, fuel);
      && stop % 4 == 0 && position + 4 <= stop
      && 0 <= stop - 4 < |final| && final[stop - 4] == HaltWord
    ensures Run(tape, position, fuel).OutOfFuel? ==> Run(tape, position, fuel).position % 4 == 0
    decreases fuel
  {
    if fuel > 0 && Step(tape, position).Ok? {
      var (tape', halt) := Step(tape, position).value;
      var rest := fuel - 1;
      RunStep(tape, position, fuel, tape', halt, rest);
      if !halt {
        RunHaltsPastNinetyNine(tape', position + 4, rest);
      }
    }
  }

  /** More fuel never changes a finished run. */
  lemma {:induction false} RunMoreFuel(tape: seq<int>, position: int, fuel: nat, more: nat)
    requires fuel <= more && !Run(tape, position, fuel).OutOfFuel?
    ensures Run(tape, position, more) == Run(tape, position, fuel)
    decreases fuel
  {
    if Step(tape, position).Ok? {
      var (tape', halt) := Step(tape, position).value;
      var rest, restMore := fuel - 1, more - 1;
      RunStep(tape, position, fuel, tape', halt, rest);
      RunStep(tape, position, more, tape', halt, restMore);
      if !halt {
        RunMoreFuel(tape', position + 4, rest, restMore);
      }
    }
  }

  // ---------------------------------------------------------------------
  // Against the later interpreter

  /** The same machine in the later interpreter, with empty queues. */
  function AsMachine(tape: seq<int>): IntcodeSpec.Machine {
    IntcodeSpec.Machine(tape, [], [])
  }

  /** A step the first interpreter takes, the later one (intcode/intcode.py)
      takes too, with the same tape; it stops at the 99 itself, not 4
      past it. */
  lemma StepAgreesWithIntcode(tape: seq<int>, position: int, end: IntcodeSpec.InputEnd)
    requires Step(tape, position).Ok?
    ensures var (tape', halt) := Step(tape, position).value;
      IntcodeSpec.Step(AsMachine(tape), position, end) ==
        Ok(IntcodeSpec.Transition(AsMachine(tape'), if halt then position else position + 4, halt))
  {
    var word := tape[position];
    if word == HaltWord {
      IntcodeSpec.HaltStops(AsMachine(tape), position, end, 1);
    } else {
      ArithmeticEffect(tape, position, word);
      var op := if word == AddWord then IntcodeSpec.Add else IntcodeSpec.Multiply;
      IntcodeSpec.PositionStoreStep(AsMachine(tape), position, end, op);
    }
  }

  /** A run that halts in the first interpreter halts with the same tape
      in the later one, whose pointer stays on the 99. */
  lemma {:induction false} RunAgreesWithIntcode(tape: seq<int>, position: int, fuel: nat, end: IntcodeSpec.InputEnd)
    requires Run(tape, position, fuel).Halted?
    ensures IntcodeSpec.Run(AsMachine(tape), position, end, fuel) ==
      IntcodeSpec.Halted(AsMachine(Run(tape, position, fuel).tape), Run(tape, position, fuel).position - 4)
    decreases fuel
  {
    var (tape', halt) := Step(tape, position).value;
    var rest := fuel - 1;
    RunStep(tape, position, fuel, tape', halt, rest);
    StepAgreesWithIntcode(tape, position, end);
    var t := IntcodeSpec.Transition(AsMachine(tape'), if halt then position else position + 4, halt);
    IntcodeSpec.RunStep(AsMachine(tape), position, end, fuel, t, rest);
    if !halt {
      RunAgreesWithIntcode(tape', position + 4, rest, end);
    }
  }

  // ---------------------------------------------------------------------
  // run_with_noun_and_verb

  /** The answer depends on the noun and the verb, not on what cells 1 and
      2 held before, so the search may reuse one copy of the program. */
  lemma NounAndVerbOverwrite(tape: seq<int>, noun: int, verb: int, fuel: nat, a: int, b: int)
    requires |tape| >= 3
    ensures RunWithNounAndVerb(tape[1 := a][2 := b], noun, verb, fuel) == RunWithNounAndVerb(tape, noun, verb, fuel)
  {
    assert tape[1 := a][2 := b][1 := noun][2 := verb] == tape[1 := noun][2 := verb];
  }

  /** A list too short to hold a noun and a verb raises before running. */
  lemma NounAndVerbShortTape(tape: seq<int>, noun: int, verb: int, fuel: nat)
    requires |tape| < 3
    ensures RunWithNounAndVerb(tape, noun, verb, fuel) == Err(Raised(AddressOutOfRange(if |tape| < 2 then 1 else 2)))
  {
  }

  // ---------------------------------------------------------------------
  // The programs the file checks after its definitions

  /** `1,0,0,0,99` becomes `2,0,0,0,99`. */
  lemma AddsInPlace()
    ensures Run([1, 0, 0, 0, 99], 0, 2) == Halted([2, 0, 0, 0, 99], 8)
  {
    ArithmeticStep([1, 0, 0, 0, 99], 0);
    assert [1, 0, 0, 0, 99][0 := 2] == [2, 0, 0, 0, 99];
    RunStep([1, 0, 0, 0, 99], 0, 2, [2, 0, 0, 0, 99], false, 1);
    RunStep([2, 0, 0, 0, 99], 4, 1, [2, 0, 0, 0, 99], true, 0);
  }

  /** `2,3,0,3,99` becomes `2,3,0,6,99`. */
  lemma MultipliesInPlace()
    ensures Run([2, 3, 0, 3, 99], 0, 2) == Halted([2, 3, 0, 6, 99], 8)
  {
    ArithmeticStep([2, 3, 0, 3, 99], 0);
    assert [2, 3, 0, 3, 99][3 := 6] == [2, 3, 0, 6, 99];
    RunStep([2, 3, 0, 3, 99], 0, 2, [2, 3, 0, 6, 99], false, 1);
    RunStep([2, 3, 0, 6, 99], 4, 1, [2, 3, 0, 6, 99], true, 0);
  }

  /** `2,4,4,5,99,0` writes 9801 past the halt. */
  lemma SquaresPastHalt()
    ensures Run([2, 4, 4, 5, 99, 0], 0, 2) == Halted([2, 4, 4, 5, 99, 9801], 8)
  {
    ArithmeticStep([2, 4, 4, 5, 99, 0], 0);
    assert [2, 4, 4, 5, 99, 0][5 := 9801] == [2, 4, 4, 5, 99, 9801];
    RunStep([2, 4, 4, 5, 99, 0], 0, 2, [2, 4, 4, 5, 99, 9801], false, 1);
    RunStep([2, 4, 4, 5, 99, 9801], 4, 1, [2, 4, 4, 5, 99, 9801], true, 0);
  }

  /** `1,1,1,4,99,5,6,0,99` overwrites its first halt with a multiply. */
  lemma SelfModifies()
    ensures Run([1, 1, 1, 4, 99, 5, 6, 0, 99], 0, 3) == Halted([30, 1, 1, 4, 2, 5, 6, 0, 99], 12)
  {
    ArithmeticStep([1, 1, 1, 4, 99, 5, 6, 0, 99], 0);
    assert [1, 1, 1, 4, 99, 5, 6, 0, 99][4 := 2] == [1, 1, 1, 4, 2, 5, 6, 0, 99];
    RunStep([1, 1, 1, 4, 99, 5, 6, 0, 99], 0, 3, [1, 1, 1, 4, 2, 5, 6, 0, 99], false, 2);
    ArithmeticStep([1, 1, 1, 4, 2, 5, 6, 0, 99], 4);
    assert [1, 1, 1, 4, 2, 5, 6, 0, 99][0 := 30] == [30, 1, 1, 4, 2, 5, 6, 0, 99];
    RunStep([1, 1, 1, 4, 2, 5, 6, 0, 99], 4, 2, [30, 1, 1, 4, 2, 5, 6, 0, 99], false, 1);
    RunStep([30, 1, 1, 4, 2, 5, 6, 0, 99], 8, 1, [30, 1, 1, 4, 2, 5, 6, 0, 99], true, 0);
  }

  /** The program that leaves 3500 in cell 0. */
  lemma ComputesThirtyFiveHundred()
    ensures Run([1, 9, 10, 3, 2, 3, 11, 0, 99, 30, 40, 50], 0, 3) == Halted([3500, 9, 10, 70, 2, 3, 11, 0, 99, 30, 40, 50], 12)
  {
    ArithmeticStep([1, 9, 10, 3, 2, 3, 11, 0, 99, 30, 40, 50], 0);
    assert [1, 9, 10, 3, 2, 3, 11, 0, 99, 30, 40, 50][3 := 70] == [1, 9, 10, 70, 2, 3, 11, 0, 99, 30, 40, 50];
    RunStep([1, 9, 10, 3, 2, 3, 11, 0, 99, 30, 40, 50], 0, 3, [1, 9, 10, 70, 2, 3, 11, 0, 99, 30, 40, 50], false, 2);
    ArithmeticStep([1, 9, 10, 70, 2, 3, 11, 0, 99, 30, 40, 50], 4);
    assert [1, 9, 10, 70, 2, 3, 11, 0, 99, 30, 40, 50][0 := 3500] == [3500, 9, 10, 70, 2, 3, 11, 0, 99, 30, 40, 50];
    RunStep([1, 9, 10, 70, 2, 3, 11, 0, 99, 30, 40, 50], 4, 2, [3500, 9, 10, 70, 2, 3, 11, 0, 99, 30, 40, 50], false, 1);
    RunStep([3500, 9, 10, 70, 2, 3, 11, 0, 99, 30, 40, 50], 8, 1, [3500, 9, 10, 70, 2, 3, 11, 0, 99, 30, 40, 50], true, 0);
  }
}

# Advent of Code 2019 solutions, modelled in Dafny

The project models one set of Python solutions to the 2019 Advent of Code puzzles.

**Intcode.** At its centre is the Intcode interpreter (`intcode/intcode.py`), which exists in three versions:

- `2/intcode.py` is the first version. It has add, multiply and halt, and always steps four cells.
- `5/thermal_environment_supervision_terminal.py` is the second. It adds parameter modes, console input and output, jumps and comparisons.
- `intcode/intcode.py` is the library version. Its `Program` object owns a tape, an input queue popped from its end, and an output list.

**Interpreter model.** Each interpreter is modelled twice:

- once as pure functions over the machine's values (`AlarmSpec`, `IntcodeSpec`);
- once in the source's own imperative form, proved against those functions (`Alarm`, `Terminal`, and the class `Intcode.Program`). Handlers update an `array<int>` tape in place, and `run` is a loop.

The properties of decoding, of every handler and of whole runs are proved on the functions.

**Puzzles.** Beside the interpreter are the puzzle solutions:

- module fuel (day 1);
- wire paths (day 3);
- passwords (day 4);
- the orbit map with its descendant count and its transfer-path search (day 6);
- the space image format (day 8);
- asteroid visibility (day 10);
- the n-body simulation and its per-axis period (day 12);
- the reaction table and the ore count (day 14);
- the flawed frequency transmission (day 16);
- the ASCII encoder that types a robot's routine (day 17).

**Shared modules and conventions.**

- Shared modules:
  - `Decimal` and `DecimalText` provide decimal digits and their text.
  - `Text` provides `str.strip` and `str.split`.
  - `Dicts` provides insertion-ordered dictionaries.
  - `Wrappers` provides `Option` and `Result`.
- Every Python exception the code can raise becomes an error value.
- Every unbounded loop or recursion takes a `fuel` bound, and running out of it is a separate outcome.

## Model

| member | source | states |
|---|---|---|
| IntcodeSpec.PadModes | intcode/intcode.py:50-52 | the mode list has as many entries as the instruction's arity or the parsed modes, whichever is more; missing modes are position mode, parsed ones are kept |
| IntcodeSpec.ParseOpcodeSplitsWord | intcode/intcode.py:58-60 | a non-negative word always decodes. The opcode is in 0..99. The modes are decimal digits with no trailing zero. Opcode plus 100 times the modes (least significant first) gives the word back |
| IntcodeSpec.ParseOpcodeReadsText | intcode/intcode.py:58-60 | for a word of three or more digits the modes are the digits of `str(word)[:-2]` reversed |
| IntcodeSpec.ParseOpcodeOfEncode | intcode/intcode.py:58-60 | decoding is the inverse of encoding: any opcode below 100 with any digit list not ending in 0 decodes back to itself |
| IntcodeSpec.ParseOpcodeNegative | intcode/intcode.py:58-60 | a word from -9 to -1 decodes to itself with no modes, and no handler exists for it. A word of -10 or less makes `int` raise |
| IntcodeSpec.OpcodeTableInverse | intcode/intcode.py:171-181 | the table maps each handler's opcode to that handler and its arity. It has an entry exactly for 1 to 8 and 99 |
| IntcodeSpec.LookupParameterModes | intcode/intcode.py:62-68 | mode 0 reads the tape cell (an address outside the tape is an error), mode 1 is the literal, and every other mode raises |
| IntcodeSpec.LookupParametersZip | intcode/intcode.py:70-77 | the lookup pairs parameters with modes up to the shorter list. It succeeds iff every paired lookup does, and the values come in order |
| IntcodeSpec.ExtraModesIgnored | intcode/intcode.py:74-77 | modes beyond the number of parameters make no difference |
| IntcodeSpec.StoreEffect | intcode/intcode.py:81-99 | after a successful add, multiply, less-than or equals: there were three parameters, both operands resolved and the target address is on the tape. Only the target cell changes, to the combined value. Input and output are untouched, and the pointer moves by 4 |
| IntcodeSpec.StoreSucceeds | intcode/intcode.py:81-99 | conversely, resolvable operands and an on-tape target make the handler succeed with exactly that write |
| IntcodeSpec.StoreFaults | intcode/intcode.py:81-99 | a storing handler fails iff an operand lookup fails or the target address is off the tape |
| IntcodeSpec.CompareWritesFlag | intcode/intcode.py:143-161 | less-than and equals write only 0 or 1, and write 1 exactly when a < b (respectively a == b) |
| IntcodeSpec.StoreIgnoresTargetMode | intcode/intcode.py:86-88 | the third mode digit never matters: the target is always used as an address |
| IntcodeSpec.JumpEffect | intcode/intcode.py:119-141 | a jump leaves the machine unchanged. The pointer becomes the second value when the first is non-zero (jump-if-true) or zero (jump-if-false); otherwise it advances by 3 |
| IntcodeSpec.InputEffect | intcode/intcode.py:101-108 | an empty input queue is an error. Otherwise the last input element is removed and stored at the first parameter's address, output is unchanged and the pointer advances by 2 |
| IntcodeSpec.OutputEffect | intcode/intcode.py:110-117 | output appends the resolved value to the output list, changes nothing else and advances by 2 |
| IntcodeSpec.StepDecodes | intcode/intcode.py:47-55 | one step looks up the opcode w mod 100 and runs its handler. The handler gets the slice of the next n cells, cut short at the end of the tape, and the digits of w div 100 padded with zeros |
| IntcodeSpec.PositionStoreStep | intcode/intcode.py:47-55 | an add or multiply word without mode digits writes `code[code[ip+3]] = code[code[ip+1]] op code[code[ip+2]]` and moves to ip + 4 |
| IntcodeSpec.HaltStops | intcode/intcode.py:163-168 | opcode 99 halts with the tape unchanged and the pointer left where it is |
| IntcodeSpec.UnknownOpcodeFaults | intcode/intcode.py:49 | an opcode missing from the table fails the lookup and ends the run with that fault |
| IntcodeSpec.ShortModesArePosition | intcode/intcode.py:50-52 | every mode that the word does not spell out is position mode |
| IntcodeSpec.ExecuteGrowsOutput | intcode/intcode.py:81-168 | no handler changes the tape's length or removes output |
| IntcodeSpec.StepGrowsOutput | intcode/intcode.py:47-55 | the same for one step of the loop |
| IntcodeSpec.RunStep | intcode/intcode.py:46-55 | a run is one step, then either the halt or the rest of the run from the new pointer |
| IntcodeSpec.RunGrowsOutput | intcode/intcode.py:43-56 | a whole run keeps the tape's length and only appends to the output |
| IntcodeSpec.ExecuteFlip | intcode/intcode.py:101-108 | each handler reading its input from the front behaves as it does when reading the reversed queue from the back |
| IntcodeSpec.StepFlip | intcode/intcode.py:101-108 | the same for one step |
| IntcodeSpec.RunFrontIsBackReversed | intcode/intcode.py:101-108 | a run reading input from the front, as the console does, is the run popping the reversed queue from the back |
| Intcode.Program.constructor | intcode/intcode.py:21-24 | the program holds the given tape and input, with empty output |
| Intcode.Program.Add | intcode/intcode.py:81-89 | `add` updates the tape array in place, exactly as the handler function says, or fails as it does |
| Intcode.Program.Multiply | intcode/intcode.py:91-99 | `multiply`, likewise |
| Intcode.Program.LessThan | intcode/intcode.py:143-151 | `less_than`, likewise |
| Intcode.Program.Equals | intcode/intcode.py:153-161 | `equals`, likewise |
| Intcode.Program.Input | intcode/intcode.py:101-108 | `input_` pops the last input into the tape as specified. On a bad address the value is already popped, as in Python |
| Intcode.Program.Output | intcode/intcode.py:110-117 | `output` appends to the output list as specified |
| Intcode.Program.JumpIfTrue | intcode/intcode.py:119-129 | `jump_if_true` returns the next pointer as specified, changing nothing |
| Intcode.Program.JumpIfFalse | intcode/intcode.py:131-141 | `jump_if_false`, likewise |
| Intcode.Program.Halt | intcode/intcode.py:163-168 | `halt` keeps the pointer and sets the halt flag |
| Intcode.Program.Operate | intcode/intcode.py:54-55 | dispatch to the handler the table names has the handler's specified effect |
| Intcode.Program.Tick | intcode/intcode.py:47-55 | one pass of the loop body agrees with one step of the specified run |
| Intcode.Program.Run | intcode/intcode.py:43-56 | `run` computes the specified run from pointer 0 and leaves the object holding its final tape, input and output |
| Intcode.Store | intcode/intcode.py:81-99 | the shared body of the storing handlers writes the array as specified |
| Intcode.Jump | intcode/intcode.py:119-141 | the shared body of the jumps computes the specified pointer |
| Intcode.Decode | intcode/intcode.py:47-53 | fetching and decoding at the pointer gives the handler, parameter slice and padded modes the step uses, or its fault |
| Terminal.ReadInto | 5/thermal_environment_supervision_terminal.py:86-93 | console input takes the next value from the front of the supplied console and stores it, or fails when the console is empty |
| Terminal.Print | 5/thermal_environment_supervision_terminal.py:95-102 | console output yields the resolved value as the printed trace |
| Terminal.Operate | 5/thermal_environment_supervision_terminal.py:39-40 | each handler of the terminal acts on the list in place as the front-reading specification says |
| Terminal.Tick | 5/thermal_environment_supervision_terminal.py:32-40 | one pass of the loop body is one specified step |
| Terminal.Run | 5/thermal_environment_supervision_terminal.py:28-41 | `run` is the specified front-reading run from pointer 0, and the list holds the final tape |
| Terminal.AddsInPlace | 5/thermal_environment_supervision_terminal.py:169 | `[1,0,0,0,99]` runs to `[2,0,0,0,99]` |
| Terminal.MultipliesInPlace | 5/thermal_environment_supervision_terminal.py:170 | `[2,3,0,3,99]` runs to `[2,3,0,6,99]` |
| Terminal.SquaresPastHalt | 5/thermal_environment_supervision_terminal.py:171 | `[2,4,4,5,99,0]` runs to `[2,4,4,5,99,9801]` |
| Terminal.SelfModifies | 5/thermal_environment_supervision_terminal.py:172 | `[1,1,1,4,99,5,6,0,99]` runs to `[30,1,1,4,2,5,6,0,99]`, executing the instruction it wrote |
| Terminal.ComputesThirtyFiveHundred | 5/thermal_environment_supervision_terminal.py:173 | the 12-cell example ends with 3500 in cell 0 |
| AlarmSpec.Run | 2/intcode.py:3-10 | a run that halts or runs out of fuel keeps the tape's length |
| AlarmSpec.ArithmeticEffect | 2/intcode.py:17-29 | add or multiply succeeds iff its three operand cells and the addresses they hold are on the tape. It then writes the sum or product of the two addressed cells to the third address and changes nothing else |
| AlarmSpec.StepDispatch | 2/intcode.py:7-8 | words 1 and 2 run the arithmetic, 99 halts with the tape unchanged, and any other word fails the `OP_CODES` lookup |
| AlarmSpec.ArithmeticStep | 2/intcode.py:17-29 | with every address on the tape, a step is exactly the single-cell write |
| AlarmSpec.RunStep | 2/intcode.py:6-9 | the position moves on by 4 after every instruction, the halt included |
| AlarmSpec.RunHaltsPastNinetyNine | 2/intcode.py:6-9 | a halted run stops 4 cells past a 99 on the final tape, at a multiple of 4 |
| AlarmSpec.RunMoreFuel | 2/intcode.py:6-9 | a run that finishes with some fuel finishes the same way with more |
| AlarmSpec.StepAgreesWithIntcode | 2/intcode.py:17-32 | every step the first interpreter takes, the library interpreter takes the same way |
| AlarmSpec.RunAgreesWithIntcode | 2/intcode.py:3-10 | a halting run of the first interpreter halts in the library interpreter with the same tape |
| AlarmSpec.NounAndVerbOverwrite | 2/intcode.py:12-15 | the answer does not depend on what cells 1 and 2 held before |
| AlarmSpec.NounAndVerbShortTape | 2/intcode.py:13 | a tape shorter than 3 raises on the assignment to cell 1 or 2 |
| AlarmSpec.AddsInPlace | 2/intcode.py:40 | `[1,0,0,0,99]` runs to `[2,0,0,0,99]` |
| AlarmSpec.MultipliesInPlace | 2/intcode.py:41 | `[2,3,0,3,99]` runs to `[2,3,0,6,99]` |
| AlarmSpec.SquaresPastHalt | 2/intcode.py:42 | `[2,4,4,5,99,0]` runs to `[2,4,4,5,99,9801]` |
| AlarmSpec.SelfModifies | 2/intcode.py:43 | `[1,1,1,4,99,5,6,0,99]` runs to `[30,1,1,4,2,5,6,0,99]` |
| AlarmSpec.ComputesThirtyFiveHundred | 2/intcode.py:44 | the 12-cell example ends with 3500 in cell 0 |
| Alarm.Arithmetic | 2/intcode.py:17-29 | the in-place write agrees with the specified arithmetic step |
| Alarm.Add | 2/intcode.py:17-22 | `add` on the list, as specified |
| Alarm.Multiply | 2/intcode.py:24-29 | `multiply` on the list, as specified |
| Alarm.Halt | 2/intcode.py:31-32 | `halt` reports halting and leaves the list as it is |
| Alarm.Tick | 2/intcode.py:7-9 | one pass of the loop is one specified step |
| Alarm.Run | 2/intcode.py:3-10 | `run` is the specified run and leaves the final tape in the list |
| Alarm.RunWithNounAndVerb | 2/intcode.py:12-15 | sets cells 1 and 2, runs, and answers cell 0 as specified. A 2-cell list keeps the noun written before the raise |
| Alarm.Attempt | 2/intcode.py:59 | one search attempt runs a fresh copy of the tape |
| Alarm.FindNounAndVerb | 2/intcode.py:58-61 | the search tries (noun, verb) in `product` order. It stops at the first pair whose answer is the needle. If none is, it stops at (99, 99), the last pair, after every pair missed. An error reports a pair that raised |
| Fuel.FuelGivenMass | 1/fuel_requirements.py:3-4 | the fuel is floor(mass / 3) - 2, bounded by 3(fuel + 2) <= mass < 3(fuel + 2) + 3 |
| Fuel.FuelLessThanMass | 1/fuel_requirements.py:7-11 | positive fuel is less than its mass, so the recursion terminates |
| Fuel.TotalAccumulates | 1/fuel_requirements.py:6-11 | the accumulator only adds: `total_fuel_given_mass(m, acc) == acc + total_fuel_given_mass(m)` |
| Fuel.TotalFuelUnfolds | 1/fuel_requirements.py:7-11 | the total stops when the next fuel is not positive, and otherwise adds it and recurses on it |
| Fuel.TotalFuelBounds | 1/fuel_requirements.py:6-11 | the total is non-negative and less than half the mass |
| Fuel.RecursiveCoversNaive | 1/fuel_requirements.py:23-26 | the recursive requirement is never below the naive one |
| Fuel.RequirementAppend | 1/1a.py:12-13 | the requirement is a sum over the masses: it adds up over concatenated lists |
| Fuel.FuelExamples | 1/1a.py:7-10 | 12 -> 2, 1969 -> 654, 100756 -> 33583 (and 14 -> 2) |
| Fuel.TotalFuelExamples | 1/fuel_requirements.py:19-21 | 14 -> 2, 1969 -> 966, 100756 -> 50346 |
| Passwords.HasTwoAdjacentDigitsSame | 4/passwords.py:1-8 | the loop answers whether two neighbouring decimal digits are equal |
| Passwords.Increasing | 4/passwords.py:10-17 | the loop answers whether no digit is larger than the one to its right |
| Passwords.CountGood | 4/passwords.py:30-33 | counts the numbers of the range passing both rules |
| Passwords.CountInPuzzleRange | 4/passwords.py:30-33 | the count over 246540..787419 inclusive |
| Passwords.SingleDigit | 4/passwords.py:3-8 | a single digit has no equal neighbour and counts as increasing |
| Passwords.NonDecreasingLeftToRight | 4/passwords.py:10-17 | the rule read right to left is "non-decreasing as written" |
| Passwords.TwoAdjacentSameLeftToRight | 4/passwords.py:1-8 | the rule holds iff two consecutive digits of the written number are equal |
| Passwords.AdjacentExamples | 4/passwords.py:19-24 | 12345 and 2 fail; 1123, 1223, 1233 and 22 pass |
| Passwords.IncreasingExamples | 4/passwords.py:25-28 | 12345 and 123345 pass; 54321 and 12321 fail |
| Fft.Period | 16/fft.py:4-8 | one period of the pattern for n has 4n entries |
| Fft.WeightIsCycle | 16/fft.py:4-10 | weight k of `weights(n)` is the cycled pattern after its first entry is dropped |
| Fft.PeriodAt | 16/fft.py:5-8 | entry q of the period is base-pattern entry q div n |
| Fft.ApplyPhase | 16/fft.py:12-16 | the result has the signal's length, and entry n is abs(sum of signal times `weights(n + 1)`) mod 10, a digit |
| Fft.Transform | 16/fft.py:18-21 | `fft` applies the phase the given number of times and reads the digits as one decimal integer |
| Fft.PhasesAreDigits | 16/fft.py:16 | phases keep the length, and after at least one phase every entry is a digit |
| Fft.JoinedDigitsOfDigits | 16/fft.py:21 | `''.join(map(str, ...))` of digits reads back the same digits |
| Fft.JoinIntOfDigits | 16/fft.py:21 | a non-empty digit list reads as its decimal value |
| Fft.ZeroPhasesRoundTrip | 16/fft.py:18-24 | zero phases give back the integer the signal was parsed from |
| Fft.DotOfEight | 16/fft.py:15 | the weighted sum over eight digits spelled out term by term |
| Fft.PhaseOfEight | 16/fft.py:12-16 | a phase of any eight-element signal, row by row: row n keeps the elements where `weights(n)` is 1, subtracts those where it is -1, and takes the last digit of the absolute value |
| Fft.ExamplePhase1 | 16/fft.py:26 | 12345678 -> 48226158 |
| Fft.ExamplePhase2 | 16/fft.py:26 | 48226158 -> 34040438 |
| Fft.ExamplePhase3 | 16/fft.py:26 | 34040438 -> 03415518 |
| Fft.ExamplePhase4 | 16/fft.py:26 | 03415518 -> 01029498 |
| Fft.ParseExample | 16/fft.py:23-24 | 12345678 parses into its eight digits |
| Fft.ReadExample | 16/fft.py:21 | the digits 01029498 read as 1029498, losing the leading zero |
| Fft.FourPhasesExample | 16/fft.py:26 | `fft(parse_into_signal(12345678), 4) == 1029498` |
| SpaceImage.Layers | 8/space_image_format.py:3-5 | there are len(img) div (w*h) layers, layer n is `img[n*w*h:(n+1)*w*h]` of length w*h, and a zero layer size raises |
| SpaceImage.Slice | 8/space_image_format.py:5 | a layer has exactly w*h pixels |
| SpaceImage.FirstNonTwo | 8/space_image_format.py:7-11 | the answer is '2' iff all pixels are '2'; otherwise it is the first pixel that is not '2' |
| SpaceImage.Column | 8/space_image_format.py:23 | pixel i taken from each layer in order |
| SpaceImage.FewestZeros | 8/space_image_format.py:15 | `min` by the count of '0' picks the first layer with the fewest zeros; there is none for no layers |
| SpaceImage.Checksum | 8/space_image_format.py:14-17 | the checksum is count('1') times count('2') of that layer; no layers is an error |
| SpaceImage.Decode | 8/space_image_format.py:19-24 | decoded pixel i is `int` of the first non-'2' pixel i through the layers, or the error `int` raises at the first position whose pixel is not a digit |
| SpaceImage.DecodeLayers | 8/space_image_format.py:21-24 | the decoding loop over given layers, as above: every position before the failing one decodes to a digit |
| SpaceImage.LayersCoverImage | 8/space_image_format.py:3-5 | the layers, joined, are the image minus a trailing partial layer shorter than one layer |
| SpaceImage.PrefixConcat | 8/space_image_format.py:3-5 | the first k layers joined are the first k layer-sizes of the image |
| SpaceImage.PuzzleLayerSize | 8/space_image_format.py:14 | with 25 x 6 pixels there are len(img) div 150 layers |
| SpaceImage.DecodeExample | 8/space_image_format.py:7-11 | "0222" at 2 x 1 decodes to "02" |
| Text.SplitAvoids | 3/crossing_wires.py:25 | no piece of `split(',')` holds a comma |
| CrossingWires.ParseInt | 3/crossing_wires.py:27 | `int` accepts a text exactly when, once its surrounding whitespace is stripped, it is an optional sign followed by digits with single underscores between digits; any other text is reported as not an integer |
| CrossingWires.ParseIntGrouped | 3/crossing_wires.py:27 | one underscore between two digit groups is ignored: `a_b` reads as `ab` |
| CrossingWires.ParseIntSpaced | 3/crossing_wires.py:27 | whitespace around a number does not change whether or what it reads |
| CrossingWires.ParseIntNewline | 3/crossing_wires.py:27 | a number followed by a newline reads as that number |
| CrossingWires.ParseIntBadGroups | 3/crossing_wires.py:27 | doubled, trailing and leading underscores are refused |
| CrossingWires.CompilePieces | 3/crossing_wires.py:26-27 | every piece compiles to (first char, int of the rest), in order; otherwise the first piece that does not compile decides the error: an empty piece is the `IndexError`, any other the `int` error of its distance |
| CrossingWires.ProcessInstructionAsWritten | 3/crossing_wires.py:10-21 | the code as written fails exactly on a letter other than R, L, U, D |
| CrossingWires.ProcessInstruction | 3/crossing_wires.py:10-21 | the corrected move fails exactly on an unknown letter |
| CrossingWires.ProcessInstructionWalks | 3/crossing_wires.py:10-19 | a move yields `value` points (none for value <= 0), point i being start + (i+1) unit steps |
| CrossingWires.ProcessInstructionIsConnected | 3/crossing_wires.py:10-19 | the path leaves out the start and goes one grid step at a time from it |
| CrossingWires.ProcessInstructionEnds | 3/crossing_wires.py:10-19 | the last point is `value` steps from the start |
| CrossingWires.AsWrittenAgreesOnlyOnDiagonal | 3/crossing_wires.py:13-15 | the code as written agrees with the corrected move iff the move is vertical, empty, or starts on the diagonal x == y |
| CrossingWires.AsWrittenJumpsRows | 3/crossing_wires.py:13 | R1 from (0, 5) goes to (1, 0) as written, six grid steps away, instead of (1, 5) |
| CrossingWires.UpFromOrigin | 3/crossing_wires.py:30 | U5 from the origin gives five points without the start, so the file's expected list with the start is not what the code yields |
| CrossingWires.JoinSplit | 3/crossing_wires.py:25 | joining the pieces with commas gives back the text |
| CrossingWires.SplitJoin | 3/crossing_wires.py:25 | splitting comma-free pieces joined by commas gives back the pieces |
| CrossingWires.RenderAll | 3/crossing_wires.py:24-27 | writes each instruction as its letter and number, one piece per instruction |
| CrossingWires.ParseRender | 3/crossing_wires.py:27 | `int` reads back every integer written out |
| CrossingWires.CompileRoundTrip | 3/crossing_wires.py:24-27 | a written wire compiles back to its instructions |
| CrossingWires.CompilesTo | 3/crossing_wires.py:26-27 | pieces that each compile to the matching instruction compile to the whole list |
| CrossingWires.CompileExample | 3/crossing_wires.py:29 | "R75,D30,R83,U83" compiles to the four listed tuples |
| CrossingWires.CompileErrors | 3/crossing_wires.py:27 | "R", "R1,,U2" and "" fail |
| CrossingWires.EmptyPiece | 3/crossing_wires.py:26-27 | "R1,,U2" fails with the `IndexError` of its empty second piece |
| Text.StripTrims | 10/asteroid_detector.py:13 | `strip` leaves a slice of the line whose ends are not whitespace, and everything cut off on either side is whitespace |
| Text.StripAround | 10/asteroid_detector.py:13 | whitespace put around a text with non-whitespace ends is exactly what `strip` removes |
| Asteroids.StripsUnitSeparator | 10/asteroid_detector.py:13 | a row ending in the unit separator (ASCII 31), which `strip` removes, still reads as its cells |
| Text.StripPlain | 12/simultate_planets.py:30 | `strip` leaves text without whitespace at either end unchanged |
| Asteroids.ParseRow | 10/asteroid_detector.py:11-13 | a row maps '.' to 0 and '#' to 1, and fails on the first other character |
| Asteroids.ReadChart | 10/asteroid_detector.py:9-14 | one row per line, each the stripped line's cells, or the first failing line's error |
| Asteroids.Positions | 10/asteroid_detector.py:16-22 | (i, j) is a position iff `chart[j][i]` is non-zero, column first |
| Asteroids.EuclidDivides | 10/asteroid_detector.py:26 | `gcd` is 0 only for (0, 0) and otherwise divides both |
| Asteroids.UnitSteps | 10/asteroid_detector.py:26-28 | for distinct points the offset is gcd times a non-zero unit step |
| Asteroids.StepIsLattice | 10/asteroid_detector.py:28 | `x1 + i*(x2-x1)//g` is exactly the i-th lattice point |
| Asteroids.InteriorIsLattice | 10/asteroid_detector.py:24-29 | the interior set is the lattice points 1..g-1 |
| Asteroids.InteriorOnSegment | 10/asteroid_detector.py:24-29 | the lattice runs from p1 (step 0) to p2 (step g), and the interior is the points strictly between |
| Asteroids.InteriorCount | 10/asteroid_detector.py:24-29 | there are exactly gcd(dx, dy) - 1 interior points |
| Asteroids.LatticeCount | 10/asteroid_detector.py:28 | distinct steps give distinct points |
| Asteroids.LatticeInjective | 10/asteroid_detector.py:28 | two steps reaching the same point are the same step |
| Asteroids.InteriorOfPoint | 10/asteroid_detector.py:26-28 | from a point to itself there is no interior point (g = 0) |
| Asteroids.VisibleFrom | 10/asteroid_detector.py:31-39 | a candidate is visible iff it is a position and no interior point is a position |
| Asteroids.SelfVisible | 10/asteroid_detector.py:31-39 | an asteroid sees itself, and the visible set lies within the positions |
| Asteroids.VisibleIffUnblocked | 10/asteroid_detector.py:31-39 | another asteroid is visible iff nothing lies between |
| Asteroids.Candidates | 10/asteroid_detector.py:43-46 | every position maps to its visible count minus one |
| Asteroids.MaxEntry | 10/asteroid_detector.py:47 | `max` picks an entry with the largest count |
| Asteroids.BestStation | 10/asteroid_detector.py:41-47 | the best station is a position whose count is at least every other position's; no asteroids is an error |
| Ascii.ToAscii | 17/ASCII.py:65-69 | one code per character plus the line end |
| Ascii.ToAsciiInOrder | 17/ASCII.py:69 | the ordinals in order, then 10; the empty text gives `[10]` both ways |
| Ascii.ToAsciiReversed | 17/ASCII.py:67 | `reverse=True` is the exact reverse, starting with 10 |
| Ascii.ReverseReverse | 17/ASCII.py:67 | reversing twice changes nothing |
| Ascii.ReversedInputReadsInOrder | 17/ASCII.py:43 | a routine typed reversed and popped from the back runs as the characters read in order, newline last |
| ReactionFile.MatchShape | 14/stoichiometry.py:21 | a match of `\d+ \w+` at the front is a number, one space and a non-empty word ending where word characters end |
| ReactionFile.WordRun | 14/stoichiometry.py:21 | `\w+` takes the longest run of word characters |
| ReactionFile.MatchAmount | 14/stoichiometry.py:21 | an amount written as "n NAME" followed by a non-word character is matched exactly |
| ReactionFile.FindAllAmount | 14/stoichiometry.py:21 | `findall` reads a written amount and then continues after it |
| ReactionFile.FindAllTerms | 14/stoichiometry.py:21-22 | `findall` over a comma-separated list of amounts finds them all, in order |
| ReactionFile.ParseLine | 14/stoichiometry.py:20-26 | the last match is the product with its count, the earlier ones the reactants in order; no match raises |
| ReactionFile.ParseAll | 14/stoichiometry.py:15-16 | every line parses, in order, or reading fails |
| ReactionFile.Tabulate | 14/stoichiometry.py:14-17 | the table has one entry per product |
| ReactionFile.ReadReactionFile | 14/stoichiometry.py:13-18 | `read_reaction_file` builds the table from the parsed lines, or fails as parsing does |
| ReactionFile.ParseRendered | 14/stoichiometry.py:20-26 | a reaction written as "a X, b Y => n Z" parses back to itself |
| ReactionFile.TabulateMissing | 14/stoichiometry.py:17 | a chemical no line produces has no entry |
| ReactionFile.TabulateLastWins | 14/stoichiometry.py:17 | a later line with the same product overwrites: the entry is the last line's |
| ReactionFile.ParseExample | 14/stoichiometry.py:20-26 | "3 ORE => 2 A" parses to A made 2 at a time from 3 ORE |
| Stoichiometry.OreNeededForFuel | 14/stoichiometry.py:28-44 | the loop computes the specified rounds from a need of one FUEL and no reserves |
| Stoichiometry.Round | 14/stoichiometry.py:32-43 | one pass over the needs, as specified |
| Stoichiometry.AddReactants | 14/stoichiometry.py:41-42 | the inner loop adds each reactant's runs times quantity |
| Stoichiometry.CeilDivBounds | 14/stoichiometry.py:38 | the number of runs is the ceiling of need over batch |
| Stoichiometry.ReserveStaysInRange | 14/stoichiometry.py:38-40 | a reserve in [0, batch) with a non-negative need gives non-negative runs and a new reserve in [0, batch) |
| Stoichiometry.AddAllGrows | 14/stoichiometry.py:41-42 | each reactant's need grows by runs times its quantity, and others are kept |
| Stoichiometry.AddAllNonNegative | 14/stoichiometry.py:41-42 | adding reactants keeps needs non-negative |
| Stoichiometry.ReactOre | 14/stoichiometry.py:34-36 | ORE is carried into the next round, added to what is there, and reserves are untouched |
| Stoichiometry.ReactEffect | 14/stoichiometry.py:37-42 | a chemical without a reaction raises, and a zero batch raises. Otherwise the runs cover the need, the reserve becomes what is left over, and the reactants grow accordingly |
| Stoichiometry.ReactKeepsValid | 14/stoichiometry.py:37-42 | needs stay non-negative and every reserve stays below its batch |
| Stoichiometry.RoundKeepsValid | 14/stoichiometry.py:32-43 | the same over a whole round |
| Stoichiometry.OreNonNegative | 14/stoichiometry.py:31-44 | the ORE answered is never negative |
| Stoichiometry.AnswerNonNegative | 14/stoichiometry.py:28-44 | the same from one FUEL |
| Stoichiometry.MoreFuel | 14/stoichiometry.py:31 | a loop that ends within some bound ends the same with a larger one |
| Stoichiometry.ExampleReact1 | 14/stoichiometry.py:37-42 | 1 FUEL from "3 A => 1 FUEL" needs 3 A |
| Stoichiometry.ExampleSteps | 14/stoichiometry.py:33-42 | the dictionary lookups and updates of the first example's rounds |
| Stoichiometry.ExampleRound1 | 14/stoichiometry.py:32-43 | the first round replaces FUEL with 3 A |
| Stoichiometry.ExampleRound2 | 14/stoichiometry.py:32-43 | the second makes 2 runs of "3 ORE => 2 A", leaving 1 A |
| Stoichiometry.ExampleOre | 14/stoichiometry.py:28-44 | the two-line table needs 6 ORE |
| Dicts.GetFound | 14/stoichiometry.py:38 | `dict.get` finds a key iff it is present, with its value |
| Dicts.PutKeys | 14/stoichiometry.py:40 | assignment adds the key, and grows the dictionary only for a new key |
| Dicts.PutPairs | 14/stoichiometry.py:40 | assignment introduces no pair other than the new one |
| Dicts.PutDistinct | 14/stoichiometry.py:17 | assignment keeps one entry per key |
| Dicts.GetPut | 14/stoichiometry.py:42 | after `d[k] = v`, `d[k]` is v and every other key is unchanged |
| Dicts.GetOrPut | 14/stoichiometry.py:35 | the same for `d.get(c, 0)` |
| Dicts.GetAt | 14/stoichiometry.py:33 | iterating the items gives each key with its own value |
| Decimal.Digits | intcode/intcode.py:59-60 | the digits, least significant first, have no trailing zero, and are empty only for 0 |
| Decimal.ValueOfDigits | intcode/intcode.py:59-60 | the digits read back as the number |
| Decimal.DigitsOfValue | intcode/intcode.py:59-60 | a digit list without a trailing zero is the digits of its value |
| Decimal.ValueMsfOfShow | 16/fft.py:23-24 | `str` of a number, read most significant first, is the number |
| Decimal.ShowReversed | intcode/intcode.py:60 | the written digits reversed are the digits least significant first |
| Decimal.Show | 16/fft.py:24 | `str(n)` as digits, most significant first: at least one digit, and no leading zero unless the number is 0 |
| Decimal.Reverse | intcode/intcode.py:60 | the slice `[::-1]`: same length, entry i is entry len-1-i |
| DecimalText.ShowText | 16/fft.py:24 | `str(n)` is a non-empty text of digit characters standing for the digits of n |
| DecimalText.ReadShow | 14/stoichiometry.py:25 | `int` reads back `str` |
| DecimalText.DigitRun | 14/stoichiometry.py:21 | `\d+` takes the longest run of digits |
| Planets.Planet.constructor | 12/simultate_planets.py:13-15 | a new planet has the given position and velocity (0, 0, 0) |
| Planets.Planet.Update | 12/simultate_planets.py:17-18 | the velocity is added to the position, and the velocity is kept |
| Planets.Planet.ApplyGravity | 12/simultate_planets.py:20-23 | each velocity component moves by the sign of the other's coordinate minus its own (-1, 0 or 1), and the position is kept |
| Planets.Planet.Energy | 12/simultate_planets.py:25-26 | the energy is non-negative, and zero iff the position or the velocity is all zeros |
| Planets.Planet.FromString | 12/simultate_planets.py:28-32 | a fresh planet at the parsed position with zero velocity, or none when the text does not parse |
| Planets.ApplyPair | 12/simultate_planets.py:40-42 | one pair pulls the first toward the second, then the second toward the first's position |
| Planets.ApplyGravityToAll | 12/simultate_planets.py:40-42 | gravity over every pair in `combinations` order, as specified |
| Planets.Gravity | 12/simultate_planets.py:40-42 | the gravity phase keeps the number of planets; its effect is stated by Planets.GravityKeeps and Planets.StepAxis |
| Planets.UpdateAll | 12/simultate_planets.py:43-44 | every planet moves by its velocity |
| Planets.Movement | 12/simultate_planets.py:43-44 | the movement phase keeps the number of planets |
| Planets.StepAll | 12/simultate_planets.py:39-44 | one step is all of gravity before any move |
| Planets.Step | 12/simultate_planets.py:39-44 | one step keeps the number of planets |
| Planets.Steps | 12/simultate_planets.py:39 | so do n steps |
| Planets.Simulate | 12/simultate_planets.py:38-44 | after `simulate` the planets are the system stepped n times, 100 when no count is given (none for a negative n) |
| Planets.AxisIndex | 12/simultate_planets.py:50 | `position[axis]` for -3..2 reads the coordinate whose index agrees with the axis modulo 3 |
| Planets.FindPeriodForAxis | 12/simultate_planets.py:46-59 | for an axis in -3..2, read as Python indexes the 3-tuple, the loop runs as `PeriodFrom` describes: the answer is the first n whose axis state was seen before, with the planets advanced n steps. Without an answer within the bound, nothing repeated |
| Planets.PeriodFromMeans | 12/simultate_planets.py:46-59 | started with no repeat and a faithful record of seen states, the loop's answer is the first step whose axis state repeats an earlier one, and no answer means no repeat within the bound |
| Planets.PullCoord | 12/simultate_planets.py:20-23 | a pull changes each velocity component by the sign only |
| Planets.PairStepKeeps | 12/simultate_planets.py:41-42 | one pair's pulls keep positions and the total velocity on each axis |
| Planets.GravityKeeps | 12/simultate_planets.py:40-42 | the gravity phase keeps every position and the sum of all velocities on each axis |
| Planets.StepsKeepMomentum | 12/simultate_planets.py:38-44 | the sum of velocities on an axis never changes over any number of steps |
| Planets.StepAxis | 12/simultate_planets.py:50-58 | one axis's positions and velocities after a step depend only on that axis before it |
| Planets.StepAxisInjective | 12/simultate_planets.py:50-58 | and they determine that axis's state before the step |
| Planets.StepsAxis | 12/simultate_planets.py:50-58 | the same over any number of steps |
| Planets.StepsAdd | 12/simultate_planets.py:39 | m steps and then k more are m + k steps |
| Planets.FirstRepeatIsStart | 12/simultate_planets.py:50-52 | the first state to repeat is the starting one, so the answer is a true period |
| Planets.ReturnsEveryPeriod | 12/simultate_planets.py:46-59 | an axis back at its start after n steps is back after every multiple of n |
| Planets.CommonMultipleReturns | 12/simultate_planets.py:71-75 | after any common multiple of the three periods the whole system is back at its start |
| Planets.SpaceRun | 12/simultate_planets.py:31 | `\s*` takes the whole leading whitespace |
| Planets.SignedAtText | 12/simultate_planets.py:31 | `-?\d+` reads back any integer written out, sign included |
| Planets.CoordinateOf | 12/simultate_planets.py:31 | `.=\s*(-?\d+)` reads back a coordinate written as "x=n" |
| Planets.PositionTextInner | 12/simultate_planets.py:30 | inside the brackets is the coordinate list, with nothing to strip |
| Planets.CoordinateTextsSplit | 12/simultate_planets.py:30 | splitting at ", " gives the three coordinates back |
| Text.SplitJoin | 12/simultate_planets.py:30 | `split(sep)` of text joined at a separator gives the first piece and then the split of the rest |
| Text.SplitNone | 12/simultate_planets.py:30 | text that cannot start the separator is one piece |
| Text.Split | 12/simultate_planets.py:30 | `split` gives at least one piece |
| Planets.ParsePositionText | 12/simultate_planets.py:28-32 | "<x=a, y=b, z=c>" parses to (a, b, c) for every integer triple |
| Planets.TwoCoordinatesRefused | 12/simultate_planets.py:30-32 | a position with two coordinates gives no planet |
| Orbits.ParseLine | 6/orbits.py:84 | a line that does not split into two names raises, naming that line |
| Orbits.ParseLines | 6/orbits.py:83-84 | all lines parse, in order, or the error names one of them |
| Orbits.OrbitMap.constructor | 6/orbits.py:82 | the map starts empty |
| Orbits.OrbitMap.AddPlanet | 6/orbits.py:85-87 | a new planet is listed, with no children and no parents |
| Orbits.OrbitMap.Append | 6/orbits.py:12-14 | the child joins the parent's children and the parent the child's parents |
| Orbits.OrbitMap.AddLine | 6/orbits.py:85-95 | one line makes the child's node if new, then the parent's, then links them |
| Orbits.FromFile | 6/orbits.py:81-96 | the map is built from every line in order, or the first line that does not parse raises |
| Orbits.BuildPlanets | 6/orbits.py:81-96 | one node per distinct name the lines mention, each with children and parents |
| Orbits.BuildLinks | 6/orbits.py:81-96 | each planet's children and parents are those its lines give, in line order |
| Orbits.LinkPlanets | 6/orbits.py:85-95 | one line adds its two names, keeping them distinct |
| Orbits.LinkLinks | 6/orbits.py:95 | one line adds one child and one parent, and no other link |
| Orbits.ParseLineText | 6/orbits.py:84 | "A)B" reads back as parent A and child B |
| Orbits.TwoLinksRefused | 6/orbits.py:84 | "A)B)C" raises |
| Orbits.OrbitMap.CountDescendents | 6/orbits.py:25-36 | the recursive count computes the specified count, the names counted so far carrying from child to child |
| Orbits.CountTree | 6/orbits.py:25-36 | on a tree, a node's count is the number of nodes strictly below it (0 for a leaf), and every node below is then counted |
| Orbits.CountForest | 6/orbits.py:32-36 | the children's counts sum to the nodes below them |
| Orbits.UnseenRoots | 6/orbits.py:33 | on a tree, none of the children was counted yet |
| Orbits.OrbitMap.FindMinimumTransferPath | 6/orbits.py:38-65 | the path starts at the target and ends at the source, each element is a neighbour of the next, and no planet appears twice |
| Orbits.OrbitMap.Search | 6/orbits.py:41-56 | the search gives every planet a distance. The source has 0 and all are within 0..10**10. Every `previous` link leads to a neighbour strictly nearer the source |
| Orbits.OrbitMap.RelaxedWalksBack | 6/orbits.py:52-56 | relaxing keeps every `previous` link leading to a neighbour strictly nearer |
| Orbits.WalkBack | 6/orbits.py:58-65 | the walk back follows `previous` from target to source without repeating, or raises on a missing link |
| Orbits.InitialDistances | 6/orbits.py:41-44 | every planet starts at 10**10 and the source at 0 |
| Orbits.Nearest | 6/orbits.py:46-48 | the first remaining planet with the least distance |
| Orbits.Relax | 6/orbits.py:52-56 | distances only decrease. Every neighbour ends within one step of the current planet. Each change records the current planet as `previous`. The first neighbour, in `parents + children` order, without a distance raises |

## Left out

- Negative addresses: Python's wrap-around indexing (`code[-1]` reading the last cell) is not modelled; every address outside the tape is an error.
- Console I/O in 5/thermal_environment_supervision_terminal.py: `input()` is a supplied sequence of integers read from the front, and `print` is a returned trace. Text that `int` would refuse is not modelled.
- The drivers that import a richer interpreter (relative mode, suspension, `run_until_output`, `from_file`) are not part of this model. So are the drawing helpers in intcode/util.py and 17/ASCII.py.
- Unbounded loops and recursion (`run`, `find_period_for_axis`, `ore_needed_for_fuel`, `count_descendents`, the noun/verb search) take a `fuel` bound. What happens past the bound, including Python's recursion limit, is only reported as out of fuel.
- Floating point: `math.copysign` (12/simultate_planets.py:8), `ceil(a / b)` (14/stoichiometry.py:38) and `floor(mass / 3)` (1/fuel_requirements.py:4) are modelled as exact integer sign, ceiling and floor division.
- Whitespace, digits and word characters are the ASCII ones; Unicode classes of `str.strip`, `\s`, `\d` and `\w` are not modelled.
- CrossingWires.ParseInt: the non-ASCII digits and whitespace that `int` also accepts are not modelled.
- Code reading `./data/` files and printing at module level (for example 14/stoichiometry.py:48-64, 12/simultate_planets.py:63-75, 6/orbits.py:98-107, 10/asteroid_detector.py:50-67) is left out, and so are the asserts that need those files.
- Set and dictionary iteration order: the planets given to the orbit search are a sequence in the caller's order, and dictionaries are insertion-ordered association lists. Asteroids.MaxEntry: when several positions see the same largest number of asteroids, any of them may win (10/asteroid_detector.py:47), where Python's `max` returns the first in the dictionary's order.
- `create_path` in 3/crossing_wires.py is left out: it appends a list and then indexes it as a point (line 7), so it fails for a second instruction.
- 8/space_image_format.py:26-27 (rendering the message as text) is not part of this model.
- 14/ptoichiometry.py, an abandoned attempt with no tests, is not part of this model.
- Planets.Planet.FromString: Python builds a tuple of whatever length the text holds. The model parses exactly three coordinates and gives no planet otherwise.
- Planets.ApplyGravityToAll: the planets must be distinct objects; a list holding the same planet twice is not modelled.
- Planets.FindPeriodForAxis: the axes -3..-1, which Python's tuple indexing wraps to x, y and z, are modelled. Every other axis is excluded by the precondition. In Python such an axis raises an `IndexError` as soon as there is a planet, and with no planets the answer is 1 whatever the axis.
- Intcode.Program.constructor: the input is held as a value. Python keeps the caller's list object, which `input_` pops in place (intcode/intcode.py:23, 106), so the caller sees the inputs consumed. Python also replaces a falsy `input` (`None` or `[]`) with a new empty list; the model takes `[]` for both. The callers pass newly built lists (7/optimize_thrusters.py:11, 24).
- Planets: `__str__` is not modelled.
- Orbits: planets are identified by name (the source hashes by name and compares by identity); the optional `children` argument of `Orbit.__init__`, `__iter__` and `__repr__` are not modelled.
- Orbits.OrbitMap.FindMinimumTransferPath: the path is proved to be a walk along neighbours from target to source, not the shortest one.
- Orbits.OrbitMap.CountDescendents: the empty `already_counted` set that Python replaces by a new one is not shared back with the caller; the counted names are returned instead. A top-level call sees no difference.
- Orbits.WalkBack: the truthiness test on `previous[current]` is always true for a planet and is not modelled.
- Alarm.FindNounAndVerb: noun and verb loop variables after a search with no hit keep their last values (99, 99), as modelled; the printing is left out.

## Findings

| source | as written | input that shows it | evidently intended | confidence | as-written member | corrected member |
|---|---|---|---|---|---|---|
| 3/crossing_wires.py:13-15 | a move right or left takes its y coordinate from `start[0]`, the x of the start point | `('R', 1)` from `(0, 5)` gives `[(1, 0)]`, six steps from the start | y stays `start[1]`: `[(1, 5)]` | not executed | CrossingWires.AsWrittenJumpsRows | CrossingWires.ProcessInstructionIsConnected |
| 3/crossing_wires.py:30 | the file's own check expects `process_instruction(('U', 5), start=(0, 0))` to begin with the start `(0, 0)`, but lines 16-17 build only the points after the start | `('U', 5)` from `(0, 0)` gives `[(0, 1), ..., (0, 5)]`, five points, not the six the check lists | the check lists the points after the start, as the function builds them | not executed | CrossingWires.UpFromOrigin | CrossingWires.ProcessInstructionWalks |

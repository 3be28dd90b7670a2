/** The wire-path parser of 3/crossing_wires.py: a wire is a text such as
    "R75,D30", one direction letter and a distance per comma-separated
    piece; each piece becomes the list of grid points the wire passes
    after leaving its start point, one unit step at a time. */
module CrossingWires {
  import opened Wrappers
  import Decimal
  import opened DecimalText
  import Text

  type Point = (int, int)
  type Instruction = (char, int)

  datatype Error =
    | EmptyInstruction         // `instruction[0]` of an empty piece
    | NotAnInteger(text: string) // `int(instruction[1:])` of a malformed distance
    | UnknownOpcode(opcode: char)

  // ---------------------------------------------------------------------
  // `','.join` and `int`

  /** `','.join(pieces)`. */
  function Join(pieces: seq<string>): string {
    if pieces == [] then []
    else if |pieces| == 1 then pieces[0]
    else pieces[0] + "," + Join(pieces[1..])
  }

  /** What is left of a numeral after an optional leading sign. */
  function Unsigned(s: string): string {
    if s != [] && (s[0] == '-' || s[0] == '+') then s[1..] else s
  }

  /** The digit part `int` accepts: decimal digits, with a single `_`
      allowed between two of them. */
  predicate Grouped(body: string) {
    && body != [] && IsDigitChar(body[0])
    && forall i {:trigger body[i]} :: 0 <= i < |body| ==>
         IsDigitChar(body[i]) || (body[i] == '_' && i + 1 < |body| && IsDigitChar(body[i + 1]))
  }

  /** The digits of a numeral with its `_` separators taken out. */
  function DropUnderscores(body: string): string {
    if body == [] then []
    else (if body[0] == '_' then [] else [body[0]]) + DropUnderscores(body[1..])
  }

  /** `int(text)`: whitespace at either end is ignored, then an optional
      sign and digits that single underscores may group. */
  function ParseInt(text: string): (r: Result<int, Error>)
    ensures r.Ok? <==> Grouped(Unsigned(Text.Strip(text)))
    ensures r.Err? ==> r.error == NotAnInteger(text)
  {
    var s := Text.Strip(text);
    var body := Unsigned(s);
    if !Grouped(body) then Err(NotAnInteger(text))
    else
      var magnitude := Decimal.ValueMsf(DigitValues(DropUnderscores(body)));
      Ok(if s[0] == '-' then -magnitude else magnitude)
  }

  /** `str(n)`. */
  function Render(n: int): string {
    (if n < 0 then "-" else "") + ShowText(if n < 0 then -n else n)
  }

  // ---------------------------------------------------------------------
  // `compile_to_tuples`

  /** `compile_to_tuples(program)` as a list: the first character and the
      integer after it, for each comma-separated piece. */
  function CompileToTuples(program: string): Result<seq<Instruction>, Error> {
    CompilePieces(Text.Split(program, ","))
  }

  /** A piece is well formed: a first character and a distance `int` reads. */
  predicate Compiles(piece: string) {
    piece != [] && ParseInt(piece[1..]).Ok?
  }

  function CompilePieces(pieces: seq<string>): (r: Result<seq<Instruction>, Error>)
    ensures r.Ok? <==> forall k :: 0 <= k < |pieces| ==> Compiles(pieces[k])
    ensures r.Ok? ==> |r.value| == |pieces| && forall k :: 0 <= k < |pieces| ==>
      r.value[k].0 == pieces[k][0] && Ok(r.value[k].1) == ParseInt(pieces[k][1..])
    ensures r.Err? ==> exists k :: FailsFirstAt(pieces, k, r.error)
  {
    if pieces == [] then Ok([])
    else
      var piece := pieces[0];
      if piece == [] then
        assert FailsFirstAt(pieces, 0, EmptyInstruction);
        Err(EmptyInstruction)
      else
        var distance := ParseInt(piece[1..]);
        if distance.Err? then
          assert FailsFirstAt(pieces, 0, distance.error);
          Err(distance.error)
        else
          var rest := CompilePieces(pieces[1..]);
          if rest.Err? then
            FirstFailureShifts(pieces, rest.error);
            Err(rest.error)
          else
            assert pieces == [piece] + pieces[1..];
            CompiledCons(piece, pieces[1..], (piece[0], distance.value), rest.value);
            Ok([(piece[0], distance.value)] + rest.value)
  }

  /** The first piece's instruction in front of the later pieces' ones is
      the compiled list of all the pieces. */
  lemma CompiledCons(head: string, tail: seq<string>, first: Instruction, rest: seq<Instruction>)
    requires Compiles(head) && first.0 == head[0] && Ok(first.1) == ParseInt(head[1..])
    requires |rest| == |tail| && forall k :: 0 <= k < |tail| ==>
      Compiles(tail[k]) && rest[k].0 == tail[k][0] && Ok(rest[k].1) == ParseInt(tail[k][1..])
    ensures var pieces := [head] + tail;
      forall k :: 0 <= k < |pieces| ==> Compiles(pieces[k])
    ensures var pieces, all := [head] + tail, [first] + rest;
      |all| == |pieces| && forall k :: 0 <= k < |pieces| ==>
        all[k].0 == pieces[k][0] && Ok(all[k].1) == ParseInt(pieces[k][1..])
  {
    var pieces, all := [head] + tail, [first] + rest;
    assert forall k :: 1 <= k < |pieces| ==> pieces[k] == tail[k - 1] && all[k] == rest[k - 1];
  }

  /** The piece that fails first, with the error it raises. */
  ghost predicate FailsFirstAt(pieces: seq<string>, k: int, e: Error) {
    && 0 <= k < |pieces| && !Compiles(pieces[k])
    && (forall j :: 0 <= j < k ==> Compiles(pieces[j]))
    && e == (if pieces[k] == [] then EmptyInstruction else NotAnInteger(pieces[k][1..]))
  }

  /** A first failure among the later pieces is the first failure of all,
      when the first piece compiles. */
  lemma FirstFailureShifts(pieces: seq<string>, e: Error)
    requires |pieces| >= 1 && Compiles(pieces[0])
    requires exists k :: FailsFirstAt(pieces[1..], k, e)
    ensures exists k :: FailsFirstAt(pieces, k, e)
  {
    var k :| FailsFirstAt(pieces[1..], k, e);
    assert pieces[k + 1] == pieces[1..][k];
    assert forall j :: 1 <= j < k + 1 ==> pieces[j] == pieces[1..][j - 1];
    assert FailsFirstAt(pieces, k + 1, e);
  }

  /** The text an instruction is written as: its letter, then its distance. */
  function RenderInstruction(instruction: Instruction): string {
    [instruction.0] + Render(instruction.1)
  }

  function RenderAll(instructions: seq<Instruction>): (pieces: seq<string>)
    ensures |pieces| == |instructions|
    ensures forall k :: 0 <= k < |pieces| ==> pieces[k] == RenderInstruction(instructions[k])
  {
    if instructions == [] then [] else [RenderInstruction(instructions[0])] + RenderAll(instructions[1..])
  }

  // ---------------------------------------------------------------------
  // `process_instruction`

  /** The unit step of each direction letter. */
  function Direction(opcode: char): Option<Point> {
    match opcode
    case 'R' => Some((1, 0))
    case 'L' => Some((-1, 0))
    case 'U' => Some((0, 1))
    case 'D' => Some((0, -1))
    case _ => None
  }

  function Count(value: int): nat { if value < 0 then 0 else value }

  /** `process_instruction` as written: a horizontal move takes its y
      coordinate from `start[0]`, the x of the start point. */
  function ProcessInstructionAsWritten(instruction: Instruction, start: Point): (r: Result<seq<Point>, Error>)
    ensures r.Err? <==> Direction(instruction.0).None?
    ensures r.Err? ==> r.error == UnknownOpcode(instruction.0)
  {
    var (opcode, value) := instruction;
    var n := Count(value);
    match opcode
    case 'R' => Ok(seq(n, i => (start.0 + i + 1, start.0)))
    case 'L' => Ok(seq(n, i => (start.0 - i - 1, start.0)))
    case 'U' => Ok(seq(n, i => (start.0, start.1 + i + 1)))
    case 'D' => Ok(seq(n, i => (start.0, start.1 - i - 1)))
    case _ => Err(UnknownOpcode(opcode))
  }

  /** `process_instruction` with the horizontal moves keeping `start[1]`:
      the points one, two, ... `value` unit steps from `start`. */
  function ProcessInstruction(instruction: Instruction, start: Point): (r: Result<seq<Point>, Error>)
    ensures r.Err? <==> Direction(instruction.0).None?
    ensures r.Err? ==> r.error == UnknownOpcode(instruction.0)
  {
    var (opcode, value) := instruction;
    var n := Count(value);
    match opcode
    case 'R' => Ok(seq(n, i => (start.0 + i + 1, start.1)))
    case 'L' => Ok(seq(n, i => (start.0 - i - 1, start.1)))
    case 'U' => Ok(seq(n, i => (start.0, start.1 + i + 1)))
    case 'D' => Ok(seq(n, i => (start.0, start.1 - i - 1)))
    case _ => Err(UnknownOpcode(opcode))
  }

  function Manhattan(p: Point, q: Point): nat {
    (if p.0 < q.0 then q.0 - p.0 else p.0 - q.0) + (if p.1 < q.1 then q.1 - p.1 else p.1 - q.1)
  }

  // ---------------------------------------------------------------------
  // Properties

  /** The corrected move is `value` unit steps in the letter's direction:
      exactly max(value, 0) points, point i being i + 1 steps from start. */
  lemma ProcessInstructionWalks(instruction: Instruction, start: Point)
    requires Direction(instruction.0).Some?
    ensures var r := ProcessInstruction(instruction, start);
      var (dx, dy) := Direction(instruction.0).value;
      && r.Ok?
      && |r.value| == Count(instruction.1)
      && forall i :: 0 <= i < |r.value| ==> r.value[i] == (start.0 + (i + 1) * dx, start.1 + (i + 1) * dy)
  {
  }

  /** The path leaves the start point for good: it is never among the
      points, the first point is one step from it, and each point is one
      step from the one before. */
  lemma ProcessInstructionIsConnected(instruction: Instruction, start: Point)
    requires ProcessInstruction(instruction, start).Ok?
    ensures var path := ProcessInstruction(instruction, start).value;
      && start !in path
      && (path != [] ==> Manhattan(start, path[0]) == 1)
      && forall i :: 0 < i < |path| ==> Manhattan(path[i - 1], path[i]) == 1
  {
    var path := ProcessInstruction(instruction, start).value;
    ProcessInstructionWalks(instruction, start);
  }

  /** The last point is `value` steps from the start. */
  lemma ProcessInstructionEnds(instruction: Instruction, start: Point)
    requires ProcessInstruction(instruction, start).Ok? && instruction.1 > 0
    ensures var path := ProcessInstruction(instruction, start).value;
      path[|path| - 1] == (start.0 + instruction.1 * Direction(instruction.0).value.0,
                           start.1 + instruction.1 * Direction(instruction.0).value.1)
  {
    ProcessInstructionWalks(instruction, start);
  }

  /** The code as written agrees with the corrected move on vertical
      moves, on an empty move, and on a start point with equal
      coordinates, and only there. */
  lemma AsWrittenAgreesOnlyOnDiagonal(instruction: Instruction, start: Point)
    ensures ProcessInstructionAsWritten(instruction, start) == ProcessInstruction(instruction, start) <==>
      instruction.0 !in {'R', 'L'} || instruction.1 <= 0 || start.0 == start.1
  {
    var a, c := ProcessInstructionAsWritten(instruction, start), ProcessInstruction(instruction, start);
    if instruction.0 in {'R', 'L'} && instruction.1 > 0 && start.0 != start.1 {
      assert a.value[0].1 != c.value[0].1;
    }
  }

  /** As written, a move right from (0, 5) lands on (1, 0), two rows
      away from where it started, instead of (1, 5). */
  lemma AsWrittenJumpsRows()
    ensures ProcessInstructionAsWritten(('R', 1), (0, 5)) == Ok([(1, 0)])
    ensures ProcessInstruction(('R', 1), (0, 5)) == Ok([(1, 5)])
    ensures Manhattan((0, 5), (1, 0)) == 6
  {
    var a, c := ProcessInstructionAsWritten(('R', 1), (0, 5)).value, ProcessInstruction(('R', 1), (0, 5)).value;
    assert |a| == 1 && a[0] == (1, 0);
    assert a == [(1, 0)];
    assert |c| == 1 && c[0] == (1, 5);
    assert c == [(1, 5)];
  }

  /** The example the file checks for `process_instruction`: five steps
      up from the origin give (0, 1) to (0, 5), without the start point
      the file's expected list begins with. */
  lemma UpFromOrigin()
    ensures ProcessInstruction(('U', 5), (0, 0)) == Ok([(0, 1), (0, 2), (0, 3), (0, 4), (0, 5)])
    ensures ProcessInstructionAsWritten(('U', 5), (0, 0)) != Ok([(0, 0), (0, 1), (0, 2), (0, 3), (0, 4), (0, 5)])
  {
    var path := ProcessInstruction(('U', 5), (0, 0)).value;
    assert |path| == 5;
    assert path[0] == (0, 1) && path[1] == (0, 2) && path[2] == (0, 3) && path[3] == (0, 4) && path[4] == (0, 5);
    assert path == [(0, 1), (0, 2), (0, 3), (0, 4), (0, 5)];
    assert ProcessInstructionAsWritten(('U', 5), (0, 0)).value == path;
  }

  /** Splitting on commas and joining back gives the text back. */
  lemma {:induction false} JoinSplit(s: string)
    ensures Join(Text.Split(s, ",")) == s
    decreases |s|
  {
    if |s| >= 1 && s[..1] == "," {
      JoinSplit(s[1..]);
      JoinCons("", Text.Split(s[1..], ","));
      assert s == "," + s[1..];
    } else if s != [] {
      var rest := Text.Split(s[1..], ",");
      JoinSplit(s[1..]);
      JoinFront(s[0], rest);
      assert s == [s[0]] + s[1..];
    }
  }

  /** `join` puts a comma after the first piece when more follow. */
  lemma JoinCons(head: string, rest: seq<string>)
    requires |rest| >= 1
    ensures Join([head] + rest) == head + "," + Join(rest)
  {
    assert ([head] + rest)[1..] == rest;
  }

  /** A character put in front of the first piece comes out in front of
      the joined text. */
  lemma JoinFront(c: char, pieces: seq<string>)
    requires |pieces| >= 1
    ensures Join([[c] + pieces[0]] + pieces[1..]) == [c] + Join(pieces)
  {
    if |pieces| > 1 {
      JoinCons([c] + pieces[0], pieces[1..]);
      JoinCons(pieces[0], pieces[1..]);
      assert [pieces[0]] + pieces[1..] == pieces;
      Regroup(c, pieces[0], Join(pieces[1..]));
    }
  }

  /** A leading character can be grouped with the first piece or not. */
  lemma Regroup(c: char, first: string, tail: string)
    ensures ([c] + first) + "," + tail == [c] + (first + "," + tail)
  {
  }

  /** Joining comma-free pieces and splitting gives the pieces back. */
  lemma {:induction false} SplitJoin(pieces: seq<string>)
    requires |pieces| >= 1
    requires forall k :: 0 <= k < |pieces| ==> Text.Avoids(pieces[k], ',')
    ensures Text.Split(Join(pieces), ",") == pieces
  {
    if |pieces| == 1 {
      Text.SplitNone(pieces[0], ",");
    } else {
      var first := pieces[0];
      var rest := Join(pieces[1..]);
      JoinCons(first, pieces[1..]);
      assert pieces == [first] + pieces[1..];
      Text.SplitJoin(first, ",", rest);
      SplitJoin(pieces[1..]);
    }
  }

  /** `int` reads back what `str` writes. */
  lemma ParseRender(n: int)
    ensures ParseInt(Render(n)) == Ok(n)
  {
    if n < 0 {
      assert Render(n) == "-" + ShowText(-n);
      ParseNegative(-n);
    } else {
      assert Render(n) == ShowText(n);
      ParseShown(n);
    }
  }

  lemma ParseShown(m: nat)
    ensures ParseInt(ShowText(m)) == Ok(m)
  {
    ParseDigits(ShowText(m));
    Decimal.ValueMsfOfShow(m);
  }

  lemma ParseNegative(m: nat)
    ensures ParseInt("-" + ShowText(m)) == Ok(-(m as int))
  {
    ParseMinusDigits(ShowText(m));
    Decimal.ValueMsfOfShow(m);
  }

  /** `int` of plain digits. */
  lemma ParseDigits(t: string)
    requires t != [] && AllDigits(t)
    ensures ParseInt(t) == Ok(Decimal.ValueMsf(DigitValues(t)))
  {
    Text.StripPlain(t);
    assert Unsigned(t) == t;
    GroupedDigits(t);
  }

  /** `int` of a minus sign and digits. */
  lemma ParseMinusDigits(t: string)
    requires t != [] && AllDigits(t)
    ensures ParseInt("-" + t) == Ok(-Decimal.ValueMsf(DigitValues(t)))
  {
    var text := "-" + t;
    assert text[0] == '-' && text[|text| - 1] == t[|t| - 1];
    Text.StripPlain(text);
    assert Unsigned(text) == t;
    GroupedDigits(t);
  }

  /** `int` of digits that single underscores group. */
  lemma ParseGroupedText(t: string)
    requires Grouped(t)
    ensures ParseInt(t) == Ok(Decimal.ValueMsf(DigitValues(DropUnderscores(t))))
  {
    assert IsDigitChar(t[|t| - 1]);
    Text.StripPlain(t);
    assert Unsigned(t) == t;
  }

  /** Digits have no separators to drop. */
  lemma {:induction false} DropUnderscoresOfDigits(t: string)
    requires AllDigits(t)
    ensures DropUnderscores(t) == t
  {
    if t != [] {
      DropUnderscoresOfDigits(t[1..]);
      assert [t[0]] + t[1..] == t;
    }
  }

  /** Dropping separators works piece by piece. */
  lemma {:induction false} DropUnderscoresAppend(a: string, b: string)
    ensures DropUnderscores(a + b) == DropUnderscores(a) + DropUnderscores(b)
  {
    if a != [] {
      DropUnderscoresAppend(a[1..], b);
      assert (a + b)[1..] == a[1..] + b;
    } else {
      assert a + b == b;
    }
  }

  /** An underscore between two runs of digits does not change the number. */
  lemma ParseIntGrouped(a: string, b: string)
    requires a != [] && b != [] && AllDigits(a) && AllDigits(b)
    ensures ParseInt(a + "_" + b) == ParseInt(a + b)
    ensures ParseInt(a + b).Ok?
  {
    GroupedSeparated(a, b);
    ParseGroupedText(a + "_" + b);
    DropSeparated(a, b);
    ParseDigits(a + b);
  }

  lemma GroupedDigits(t: string)
    requires t != [] && AllDigits(t)
    ensures Grouped(t) && DropUnderscores(t) == t
  {
    DropUnderscoresOfDigits(t);
  }

  lemma GroupedSeparated(a: string, b: string)
    requires a != [] && b != [] && AllDigits(a) && AllDigits(b)
    ensures Grouped(a + "_" + b)
  {
    var grouped := a + "_" + b;
    forall i | 0 <= i < |grouped|
      ensures IsDigitChar(grouped[i]) || (grouped[i] == '_' && i + 1 < |grouped| && IsDigitChar(grouped[i + 1]))
    {
      if i < |a| {
        assert grouped[i] == a[i];
      } else if i == |a| {
        assert grouped[i + 1] == b[0];
      } else {
        assert grouped[i] == b[i - |a| - 1];
      }
    }
  }

  lemma DropSeparated(a: string, b: string)
    requires AllDigits(a) && AllDigits(b)
    ensures DropUnderscores(a + "_" + b) == a + b
    ensures AllDigits(a + b)
  {
    DropUnderscoresAppend(a + "_", b);
    DropOneSeparator(a);
    DropUnderscoresOfDigits(b);
    BothDigits(a, b);
  }

  lemma DropOneSeparator(a: string)
    requires AllDigits(a)
    ensures DropUnderscores(a + "_") == a
  {
    DropUnderscoresAppend(a, "_");
    DropUnderscoresOfDigits(a);
    assert DropUnderscores("_") == [];
    assert a + [] == a;
  }

  lemma BothDigits(a: string, b: string)
    requires AllDigits(a) && AllDigits(b)
    ensures AllDigits(a + b)
  {
    forall i | 0 <= i < |a + b| ensures IsDigitChar((a + b)[i]) {
      if i >= |a| {
        assert (a + b)[i] == b[i - |a|];
      }
    }
  }

  /** Whitespace around a number does not change it. */
  lemma ParseIntSpaced(pre: string, t: string, post: string)
    requires forall i :: 0 <= i < |pre| ==> Text.IsSpace(pre[i])
    requires forall i :: 0 <= i < |post| ==> Text.IsSpace(post[i])
    requires t != [] && !Text.IsSpace(t[0]) && !Text.IsSpace(t[|t| - 1])
    ensures ParseInt(pre + t + post).Ok? == ParseInt(t).Ok?
    ensures ParseInt(t).Ok? ==> ParseInt(pre + t + post) == ParseInt(t)
  {
    Text.StripAround(pre, t, post);
  }

  /** A distance read from a line that still ends in its newline reads
      as the number. */
  lemma ParseIntNewline(m: nat)
    ensures ParseInt(ShowText(m) + "\n") == Ok(m)
  {
    var t := ShowText(m);
    ParseShown(m);
    assert IsDigitChar(t[0]) && IsDigitChar(t[|t| - 1]);
    assert !Text.IsSpace(t[0]) && !Text.IsSpace(t[|t| - 1]);
    assert Text.IsSpace("\n"[0]);
    ParseIntSpaced("", t, "\n");
    assert "" + t + "\n" == t + "\n";
  }

  /** A separator must sit between two digits. */
  lemma ParseIntBadGroups()
    ensures ParseInt("7__5").Err? && ParseInt("75_").Err? && ParseInt("_75").Err?
  {
    Text.StripPlain("7__5");
    Text.StripPlain("75_");
    Text.StripPlain("_75");
    assert "7__5"[1] == '_';
    assert "75_"[2] == '_';
  }

  /** Rendered pieces contain no comma. */
  lemma NoCommaInRendered(instruction: Instruction)
    requires instruction.0 != ','
    ensures Text.Avoids(RenderInstruction(instruction), ',')
  {
  }

  /** `compile_to_tuples` reads back any non-empty list of instructions
      written as "<letter><distance>" and joined with commas. */
  lemma CompileRoundTrip(instructions: seq<Instruction>)
    requires |instructions| >= 1
    requires forall k :: 0 <= k < |instructions| ==> instructions[k].0 != ','
    ensures CompileToTuples(Join(RenderAll(instructions))) == Ok(instructions)
  {
    var pieces := RenderAll(instructions);
    forall k | 0 <= k < |pieces|
      ensures Text.Avoids(pieces[k], ',') && Compiles(pieces[k])
      ensures pieces[k][0] == instructions[k].0 && ParseInt(pieces[k][1..]) == Ok(instructions[k].1)
    {
      NoCommaInRendered(instructions[k]);
      ParseRender(instructions[k].1);
      assert pieces[k][1..] == Render(instructions[k].1);
    }
    SplitJoin(pieces);
    CompilesTo(pieces, instructions);
  }

  /** Pieces that each read as the matching instruction compile to the list. */
  lemma CompilesTo(pieces: seq<string>, instructions: seq<Instruction>)
    requires |pieces| == |instructions|
    requires forall k :: 0 <= k < |pieces| ==>
      Compiles(pieces[k]) && pieces[k][0] == instructions[k].0 && ParseInt(pieces[k][1..]) == Ok(instructions[k].1)
    ensures CompilePieces(pieces) == Ok(instructions)
  {
    assert CompilePieces(pieces).Ok?;
    var r := CompilePieces(pieces).value;
    forall k | 0 <= k < |instructions|
      ensures r[k] == instructions[k]
    {
    }
    assert r == instructions;
  }

  /** The example the file checks for `compile_to_tuples`. */
  lemma CompileExample()
    ensures CompileToTuples("R75,D30,R83,U83") == Ok([('R', 75), ('D', 30), ('R', 83), ('U', 83)])
  {
    var instructions := [('R', 75), ('D', 30), ('R', 83), ('U', 83)];
    ExampleRendered();
    CompileRoundTrip(instructions);
  }

  /** The example wire is what its four instructions write. */
  lemma ExampleRendered()
    ensures Join(RenderAll([('R', 75), ('D', 30), ('R', 83), ('U', 83)])) == "R75,D30,R83,U83"
  {
    ExamplePieces();
    var last := ["U83"];
    JoinCons("R83", last);
    JoinCons("D30", ["R83"] + last);
    JoinCons("R75", ["D30"] + (["R83"] + last));
    assert ["R75"] + (["D30"] + (["R83"] + last)) == ["R75", "D30", "R83", "U83"];
  }

  lemma ExamplePieces()
    ensures RenderAll([('R', 75), ('D', 30), ('R', 83), ('U', 83)]) == ["R75", "D30", "R83", "U83"]
  {
    RenderTwoDigits('R', 75);
    RenderTwoDigits('D', 30);
    RenderTwoDigits('R', 83);
    RenderTwoDigits('U', 83);
  }

  /** An instruction with a two-digit distance is written in three characters. */
  lemma RenderTwoDigits(direction: char, n: nat)
    requires 10 <= n < 100
    ensures RenderInstruction((direction, n)) == [direction, ('0' as int + n / 10) as char, ('0' as int + n % 10) as char]
  {
    ShowTwoDigits(n);
    assert Render(n) == ShowText(n);
  }

  /** A piece with no distance digits, and an empty piece, are refused. */
  lemma CompileErrors()
    ensures CompileToTuples("R").Err?
    ensures CompileToTuples("R1,,U2").Err?
    ensures CompileToTuples("").Err?
  {
    NoDistance();
    EmptyPiece();
    assert Text.Split("", ",") == [""];
  }

  lemma NoDistance()
    ensures CompileToTuples("R").Err?
  {
    Text.SplitNone("R", ",");
    assert !Compiles("R");
  }

  /** The empty second piece raises the `IndexError`, after the first
      piece has compiled. */
  lemma EmptyPiece()
    ensures CompileToTuples("R1,,U2") == Err(EmptyInstruction)
  {
    Text.SplitJoin("R1", ",", ",U2");
    assert "R1" + "," + ",U2" == "R1,,U2";
    assert ",U2"[..1] == ",";
    assert Text.Split(",U2", ",") == [""] + Text.Split("U2", ",");
    var pieces := Text.Split("R1,,U2", ",");
    assert pieces[0] == "R1" && pieces[1] == "";
    ParseDigits("1");
    assert "R1"[1..] == "1";
    assert Compiles(pieces[0]);
  }
}

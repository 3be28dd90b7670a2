/** The asteroid monitoring station of 10/asteroid_detector.py: a chart of
    '.' and '#' cells, the asteroids it shows as (column, row) points, the
    lattice points strictly inside the segment between two asteroids, and
    the asteroid from which the most others are in direct line of sight. */
module Asteroids {
  import opened Wrappers
  import opened Arithmetic
  import Text

  type Point = (int, int)
  type Chart = seq<seq<int>>

  datatype Error =
    | UnknownCell(c: char) // `char_to_int[ch]` of a character other than '.' and '#'
    | NoAsteroids          // `max` of an empty dictionary

  // ---------------------------------------------------------------------
  // `read_asteroid_chart`

  /** `[char_to_int[ch] for ch in text]`: '.' is 0 and '#' is 1; any other
      character raises, the first one first. */
  function ParseRow(text: string): (r: Result<seq<int>, Error>)
    ensures r.Ok? <==> forall i :: 0 <= i < |text| ==> text[i] in {'.', '#'}
    ensures r.Ok? ==> |r.value| == |text| && forall i :: 0 <= i < |text| ==> r.value[i] == (if text[i] == '#' then 1 else 0)
    ensures r.Err? ==>
      exists k :: 0 <= k < |text| && r.error == UnknownCell(text[k]) && text[k] !in {'.', '#'}
        && forall i :: 0 <= i < k ==> text[i] in {'.', '#'}
  {
    if text == [] then Ok([])
    else
      var cell := text[0];
      if cell !in {'.', '#'} then Err(UnknownCell(cell))
      else
        var rest := ParseRow(text[1..]);
        assert forall i :: 1 <= i < |text| ==> text[i] == text[1..][i - 1];
        if rest.Err? then
          var k :| 0 <= k < |text[1..]| && rest.error == UnknownCell(text[1..][k]) && text[1..][k] !in {'.', '#'}
            && forall i :: 0 <= i < k ==> text[1..][i] in {'.', '#'};
          assert text[k + 1] == text[1..][k];
          Err(rest.error)
        else Ok([if cell == '#' then 1 else 0] + rest.value)
  }

  /** `read_asteroid_chart`: one row per line, each line stripped first;
      reading stops at the first line with a foreign character. */
  method ReadChart(lines: seq<string>) returns (r: Result<Chart, Error>)
    ensures r.Ok? ==> |r.value| == |lines| && forall j :: 0 <= j < |lines| ==> ParseRow(Text.Strip(lines[j])) == Ok(r.value[j])
    ensures r.Err? ==>
      exists j :: 0 <= j < |lines| && ParseRow(Text.Strip(lines[j])) == Err(r.error)
        && forall i :: 0 <= i < j ==> ParseRow(Text.Strip(lines[i])).Ok?
  {
    var chart: Chart := [];
    var j := 0;
    while j < |lines|
      invariant 0 <= j <= |lines| && |chart| == j
      invariant RowsRead(lines, chart)
    {
      var row := ParseRow(Text.Strip(lines[j]));
      if row.Err? {
        assert ParseRow(Text.Strip(lines[j])) == Err(row.error);
        assert forall i :: 0 <= i < j ==> ParseRow(Text.Strip(lines[i])) == Ok(chart[i]);
        return Err(row.error);
      }
      RowsReadStep(lines, chart, row.value);
      chart := chart + [row.value];
      j := j + 1;
    }
    return Ok(chart);
  }

  /** Each row of the chart so far is the reading of its line. */
  ghost predicate RowsRead(lines: seq<string>, chart: Chart) {
    |chart| <= |lines| && forall k :: 0 <= k < |chart| ==> ParseRow(Text.Strip(lines[k])) == Ok(chart[k])
  }

  lemma RowsReadStep(lines: seq<string>, chart: Chart, row: seq<int>)
    requires RowsRead(lines, chart) && |chart| < |lines|
    requires ParseRow(Text.Strip(lines[|chart|])) == Ok(row)
    ensures RowsRead(lines, chart + [row])
  {
    var next := chart + [row];
    forall k | 0 <= k < |next|
      ensures ParseRow(Text.Strip(lines[k])) == Ok(next[k])
    {
      if k < |chart| {
        assert next[k] == chart[k];
      } else {
        assert k == |chart| && next[k] == row;
      }
    }
  }

  /** `str.strip` also removes the ASCII separators 28..31: a row "#"
      followed by a unit separator reads as one asteroid. */
  lemma StripsUnitSeparator()
    ensures ParseRow(Text.Strip(['#', 31 as char])) == Ok([1])
  {
    var line := ['#', 31 as char];
    assert Text.StripLeft(line) == line;
    assert line[..1] == "#";
    assert Text.StripRight(line) == Text.StripRight("#") == "#";
    assert Text.Strip(line) == "#";
    assert "#"[1..] == [];
    assert [1] + [] == [1];
    assert ParseRow("#") == Ok([1]);
  }

  // ---------------------------------------------------------------------
  // `get_asteroid_positions`

  /** The point (i, j), column first, of every non-zero cell of row j. */
  function PositionSet(chart: Chart): set<Point> {
    set j, i | 0 <= j < |chart| && 0 <= i < |chart[j]| && chart[j][i] != 0 :: (i, j)
  }

  /** The asteroids of the rows before j and of the first i cells of row j. */
  ghost function Seen(chart: Chart, j: int, i: int): set<Point> {
    set jj, ii | 0 <= jj < |chart| && 0 <= ii < |chart[jj]| && chart[jj][ii] != 0 && (jj < j || (jj == j && ii < i)) :: (ii, jj)
  }

  /** `get_asteroid_positions`: the two nested loops over rows and cells. */
  method Positions(chart: Chart) returns (positions: set<Point>)
    ensures positions == PositionSet(chart)
    ensures forall p :: p in positions <==> 0 <= p.1 < |chart| && 0 <= p.0 < |chart[p.1]| && chart[p.1][p.0] != 0
  {
    positions := {};
    var j := 0;
    while j < |chart|
      invariant 0 <= j <= |chart|
      invariant positions == Seen(chart, j, 0)
    {
      var i := 0;
      while i < |chart[j]|
        invariant 0 <= i <= |chart[j]|
        invariant positions == Seen(chart, j, i)
      {
        if chart[j][i] != 0 {
          positions := positions + {(i, j)};
        }
        i := i + 1;
      }
      assert Seen(chart, j, i) == Seen(chart, j + 1, 0);
      j := j + 1;
    }
    assert Seen(chart, j, 0) == PositionSet(chart);
  }

  // ---------------------------------------------------------------------
  // `get_integer_points_interior_to_segment`

  function Abs(x: int): nat { if x < 0 then -x else x }

  /** Euclid's algorithm on natural numbers. */
  function Euclid(a: nat, b: nat): nat
    decreases b
  {
    if b == 0 then a else Euclid(b, a % b)
  }

  /** `math.gcd`: the greatest common divisor of the absolute values, 0
      only for gcd(0, 0). */
  function Gcd(a: int, b: int): nat {
    Euclid(Abs(a), Abs(b))
  }

  /** `get_integer_points_interior_to_segment(p1, p2)`. */
  function Interior(p1: Point, p2: Point): set<Point> {
    var g := Gcd(p2.0 - p1.0, p2.1 - p1.1);
    set i | 1 <= i < g :: Step(p1, p2, i)
  }

  /** Element i of the comprehension: `(x1 + i * (x2 - x1) // g, y1 + i *
      (y2 - y1) // g)`. */
  function Step(p1: Point, p2: Point, i: int): Point
    requires Gcd(p2.0 - p1.0, p2.1 - p1.1) > 0
  {
    var (x1, y1) := p1;
    var (x2, y2) := p2;
    var g := Gcd(x2 - x1, y2 - y1);
    (x1 + i * (x2 - x1) / g, y1 + i * (y2 - y1) / g)
  }

  /** The smallest lattice step from p1 towards p2: (dx / g, dy / g). */
  function Unit(p1: Point, p2: Point): Point
    requires Gcd(p2.0 - p1.0, p2.1 - p1.1) > 0
  {
    var g := Gcd(p2.0 - p1.0, p2.1 - p1.1);
    ((p2.0 - p1.0) / g, (p2.1 - p1.1) / g)
  }

  /** The lattice point i unit steps away from p1. */
  function Lattice(p1: Point, p2: Point, i: int): Point
    requires Gcd(p2.0 - p1.0, p2.1 - p1.1) > 0
  {
    var u := Unit(p1, p2);
    (p1.0 + i * u.0, p1.1 + i * u.1)
  }

  // ---------------------------------------------------------------------
  // `get_asteroids_visible_from`

  /** The candidates no asteroid hides: no interior point is a position. */
  function VisibleSet(asteroid: Point, positions: set<Point>): set<Point> {
    set c | c in positions && Interior(asteroid, c) * positions == {}
  }

  /** `get_asteroids_visible_from`: one pass over the positions. */
  method VisibleFrom(asteroid: Point, positions: set<Point>) returns (visible: set<Point>)
    ensures visible == VisibleSet(asteroid, positions)
    ensures forall c :: c in visible <==> c in positions && Interior(asteroid, c) * positions == {}
  {
    visible := {};
    var remaining := positions;
    while remaining != {}
      invariant remaining <= positions
      invariant visible == set c | c in positions - remaining && Interior(asteroid, c) * positions == {}
      decreases |remaining|
    {
      var candidate :| candidate in remaining;
      var blocked := Interior(asteroid, candidate) * positions;
      if blocked == {} {
        visible := visible + {candidate};
      }
      remaining := remaining - {candidate};
    }
  }

  // ---------------------------------------------------------------------
  // `find_best_station_position`

  /** The number of other asteroids visible from p. */
  function Seeing(p: Point, positions: set<Point>): int {
    |VisibleSet(p, positions)| - 1
  }

  /** `find_best_station_position`: count, for each asteroid, the others it
      sees (the set includes itself, hence the - 1), then take the entry
      with the largest count; there is none on a chart with no asteroid. */
  method BestStation(chart: Chart) returns (r: Result<(Point, int), Error>)
    ensures r.Err? <==> PositionSet(chart) == {}
    ensures r.Err? ==> r.error == NoAsteroids
    ensures r.Ok? ==> var (best, count) := r.value;
      && best in PositionSet(chart)
      && count == Seeing(best, PositionSet(chart)) >= 0
      && forall p :: p in PositionSet(chart) ==> Seeing(p, PositionSet(chart)) <= count
  {
    var positions := Positions(chart);
    var candidates := Candidates(positions);
    if candidates == map[] {
      assert positions == candidates.Keys == {};
      return Err(NoAsteroids);
    }
    var best := MaxEntry(candidates);
    SelfVisible(best, positions);
    return Ok((best, candidates[best]));
  }

  /** The `candidates` dictionary: every position, mapped to the number of
      other asteroids it sees. */
  method Candidates(positions: set<Point>) returns (candidates: map<Point, int>)
    ensures candidates.Keys == positions
    ensures forall p :: p in candidates ==> candidates[p] == Seeing(p, positions)
  {
    candidates := map[];
    var remaining := positions;
    while remaining != {}
      invariant remaining <= positions
      invariant candidates.Keys == positions - remaining
      invariant forall p :: p in candidates ==> candidates[p] == Seeing(p, positions)
      decreases |remaining|
    {
      var position :| position in remaining;
      var visible := VisibleFrom(position, positions);
      candidates := candidates[position := |visible| - 1];
      remaining := remaining - {position};
    }
  }

  /** `max(candidates.items(), key=...)` of a non-empty dictionary: a key
      whose value no other value exceeds. */
  method MaxEntry(candidates: map<Point, int>) returns (best: Point)
    requires candidates != map[]
    ensures best in candidates
    ensures forall p :: p in candidates ==> candidates[p] <= candidates[best]
  {
    assert candidates.Keys != {};
    best :| best in candidates;
    var left := candidates.Keys - {best};
    while left != {}
      invariant left <= candidates.Keys && best in candidates
      invariant forall p :: p in candidates.Keys - left ==> candidates[p] <= candidates[best]
      decreases |left|
    {
      var p :| p in left;
      if candidates[p] > candidates[best] {
        best := p;
      }
      left := left - {p};
    }
  }

  // ---------------------------------------------------------------------
  // Properties

  /** `math.gcd` is 0 only for two zeros, and otherwise divides both. */
  lemma {:induction false} EuclidDivides(a: nat, b: nat)
    ensures Euclid(a, b) == 0 <==> a == 0 && b == 0
    ensures Euclid(a, b) > 0 ==> a % Euclid(a, b) == 0 && b % Euclid(a, b) == 0
    decreases b
  {
    if b > 0 {
      EuclidDivides(b, a % b);
      if Euclid(b, a % b) > 0 {
        DividesDividend(a, b, Euclid(b, a % b));
      }
    }
  }

  /** What divides the divisor and the remainder divides the dividend. */
  lemma DividesDividend(a: nat, b: nat, g: int)
    requires b > 0 && g > 0 && b % g == 0 && (a % b) % g == 0
    ensures a % g == 0
  {
    var s, t, q := b / g, (a % b) / g, a / b;
    MultipleOf(b, g);
    MultipleOf(a % b, g);
    assert a == b * q + a % b;
    ScaledSum(a, b, q, a % b, g, s, t);
    DivUnique(a, g, s * q + t, 0);
  }

  lemma MultipleOf(x: int, g: int)
    requires g > 0 && x % g == 0
    ensures x == g * (x / g)
  {
  }

  lemma ScaledSum(a: int, b: int, q: int, r: int, g: int, s: int, t: int)
    requires a == b * q + r && b == g * s && r == g * t
    ensures a == g * (s * q + t)
  {
    assert b * q == g * (s * q);
  }

  /** A multiple of g, of either sign, divides exactly. */
  lemma Exact(d: int, g: int)
    requires g > 0 && Abs(d) % g == 0
    ensures d == g * (d / g) && d % g == 0
  {
    var s := Abs(d) / g;
    assert Abs(d) == g * s;
    if d >= 0 {
      DivUnique(d, g, s, 0);
    } else {
      assert d == g * (-s);
      DivUnique(d, g, -s, 0);
    }
  }

  /** For distinct points g is positive and divides both differences, so
      g unit steps lead from p1 to p2, and a unit step is not zero. */
  lemma UnitSteps(p1: Point, p2: Point)
    requires p1 != p2
    ensures Gcd(p2.0 - p1.0, p2.1 - p1.1) > 0
    ensures var g, u := Gcd(p2.0 - p1.0, p2.1 - p1.1), Unit(p1, p2);
      p2.0 - p1.0 == g * u.0 && p2.1 - p1.1 == g * u.1 && u != (0, 0)
  {
    var dx, dy := p2.0 - p1.0, p2.1 - p1.1;
    var g := Gcd(dx, dy);
    EuclidDivides(Abs(dx), Abs(dy));
    Exact(dx, g);
    Exact(dy, g);
  }

  /** The steps of the comprehension are the lattice points: i * dx // g
      is exact because g divides dx. */
  lemma StepIsLattice(p1: Point, p2: Point, i: int)
    requires p1 != p2
    ensures Gcd(p2.0 - p1.0, p2.1 - p1.1) > 0
    ensures Step(p1, p2, i) == Lattice(p1, p2, i)
  {
    UnitSteps(p1, p2);
    var g, u := Gcd(p2.0 - p1.0, p2.1 - p1.1), Unit(p1, p2);
    ScaledQuotient(i, p2.0 - p1.0, g, u.0);
    ScaledQuotient(i, p2.1 - p1.1, g, u.1);
  }

  lemma ScaledQuotient(i: int, d: int, g: int, u: int)
    requires g > 0 && d == g * u
    ensures i * d / g == i * u
  {
    assert i * d == g * (i * u) by {
      assert i * (g * u) == g * (i * u);
    }
    DivUnique(i * d, g, i * u, 0);
  }

  lemma InteriorIsLattice(p1: Point, p2: Point)
    requires p1 != p2
    ensures Gcd(p2.0 - p1.0, p2.1 - p1.1) > 0
    ensures Interior(p1, p2) == set i | 1 <= i < Gcd(p2.0 - p1.0, p2.1 - p1.1) :: Lattice(p1, p2, i)
  {
    UnitSteps(p1, p2);
    forall i | 1 <= i < Gcd(p2.0 - p1.0, p2.1 - p1.1)
      ensures Step(p1, p2, i) == Lattice(p1, p2, i)
    {
      StepIsLattice(p1, p2, i);
    }
  }

  /** The interior of a segment between two distinct points lies on it,
      strictly between its ends: p2 is g unit steps from p1, and every
      interior point is 1 to g - 1 unit steps from p1. */
  lemma InteriorOnSegment(p1: Point, p2: Point)
    requires p1 != p2
    ensures var g := Gcd(p2.0 - p1.0, p2.1 - p1.1);
      && g >= 1
      && Lattice(p1, p2, 0) == p1 && Lattice(p1, p2, g) == p2
      && forall q :: q in Interior(p1, p2) <==> exists i :: 1 <= i < g && q == Lattice(p1, p2, i)
  {
    UnitSteps(p1, p2);
    InteriorIsLattice(p1, p2);
  }

  /** The interior of a segment between distinct points has gcd(|dx|,
      |dy|) - 1 points: the lattice steps never repeat. */
  lemma InteriorCount(p1: Point, p2: Point)
    requires p1 != p2
    ensures |Interior(p1, p2)| == Gcd(p2.0 - p1.0, p2.1 - p1.1) - 1
  {
    var g := Gcd(p2.0 - p1.0, p2.1 - p1.1);
    InteriorIsLattice(p1, p2);
    LatticeCount(p1, p2, g);
  }

  /** The first n - 1 steps are n - 1 different points. */
  lemma {:induction false} LatticeCount(p1: Point, p2: Point, n: int)
    requires p1 != p2 && n >= 1
    ensures Gcd(p2.0 - p1.0, p2.1 - p1.1) > 0
    ensures |set i | 1 <= i < n :: Lattice(p1, p2, i)| == n - 1
  {
    UnitSteps(p1, p2);
    if n == 1 {
      assert (set i | 1 <= i < n :: Lattice(p1, p2, i)) == {};
    } else {
      LatticeCount(p1, p2, n - 1);
      var before := set i | 1 <= i < n - 1 :: Lattice(p1, p2, i);
      var after := set i | 1 <= i < n :: Lattice(p1, p2, i);
      assert after == before + {Lattice(p1, p2, n - 1)};
      if Lattice(p1, p2, n - 1) in before {
        var i :| 1 <= i < n - 1 && Lattice(p1, p2, i) == Lattice(p1, p2, n - 1);
        LatticeInjective(p1, p2, i, n - 1);
      }
    }
  }

  /** Different step counts land on different points. */
  lemma LatticeInjective(p1: Point, p2: Point, i: int, j: int)
    requires p1 != p2 && Gcd(p2.0 - p1.0, p2.1 - p1.1) > 0
    requires Lattice(p1, p2, i) == Lattice(p1, p2, j)
    ensures i == j
  {
    UnitSteps(p1, p2);
    var u := Unit(p1, p2);
    assert i * u.0 == j * u.0 && i * u.1 == j * u.1;
    if u.0 != 0 {
      assert (i - j) * u.0 == i * u.0 - j * u.0;
      ProductZero(i - j, u.0);
    } else {
      assert (i - j) * u.1 == i * u.1 - j * u.1;
      ProductZero(i - j, u.1);
    }
  }

  lemma ProductZero(a: int, b: int)
    requires b != 0 && a * b == 0
    ensures a == 0
  {
    if a != 0 {
      MulAtLeast(Abs(a), Abs(b));
    }
  }

  /** A segment from a point to itself has no interior. */
  lemma InteriorOfPoint(p: Point)
    ensures Interior(p, p) == {}
  {
    assert Gcd(0, 0) == 0;
  }

  /** An asteroid always sees itself, and only ever sees asteroids. */
  lemma SelfVisible(asteroid: Point, positions: set<Point>)
    requires asteroid in positions
    ensures asteroid in VisibleSet(asteroid, positions)
    ensures VisibleSet(asteroid, positions) <= positions
    ensures Seeing(asteroid, positions) >= 0
  {
    InteriorOfPoint(asteroid);
    assert asteroid in VisibleSet(asteroid, positions);
  }

  /** Another asteroid is visible exactly when no asteroid sits on one of
      the lattice points strictly between the two. */
  lemma VisibleIffUnblocked(asteroid: Point, c: Point, positions: set<Point>)
    requires c != asteroid
    ensures Gcd(c.0 - asteroid.0, c.1 - asteroid.1) > 0
    ensures c in VisibleSet(asteroid, positions) <==> c in positions && Unblocked(asteroid, c, positions)
  {
    InteriorIsLattice(asteroid, c);
    var g := Gcd(c.0 - asteroid.0, c.1 - asteroid.1);
    var interior := Interior(asteroid, c);
    if c in VisibleSet(asteroid, positions) {
      assert interior * positions == {};
      forall i | 1 <= i < g
        ensures Lattice(asteroid, c, i) !in positions
      {
        assert Lattice(asteroid, c, i) in interior;
        assert Lattice(asteroid, c, i) !in interior * positions;
      }
    }
  }

  /** No position is 1 to g - 1 unit steps from the asteroid towards c. */
  predicate Unblocked(asteroid: Point, c: Point, positions: set<Point>)
    requires Gcd(c.0 - asteroid.0, c.1 - asteroid.1) > 0
  {
    forall i :: 1 <= i < Gcd(c.0 - asteroid.0, c.1 - asteroid.1) ==> Lattice(asteroid, c, i) !in positions
  }
}

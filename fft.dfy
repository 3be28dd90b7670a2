/** The flawed frequency transmission of 16/fft.py: each phase replaces
    element n of the signal by the last digit of the signal's dot product
    with the repeating pattern 0, 1, 0, -1 stretched n + 1 times and shifted
    left by one. */
module Fft {
  import opened Wrappers
  import Decimal
  import opened Arithmetic

  const BasePattern: seq<int> := [0, 1, 0, -1]

  /** `weights(n)`: the base pattern with each value repeated n times,
      cycled, without its first element; element k in closed form. */
  function Weight(n: int, k: int): int
    requires n >= 1 && k >= 0
  {
    BasePattern[((k + 1) / n) % 4]
  }

  /** One period of the cycle `weights(n)` walks: n zeros, n ones, n zeros,
      n minus ones. */
  function Period(n: nat): (p: seq<int>)
    ensures |p| == 4 * n
  {
    seq(n, _ => 0) + seq(n, _ => 1) + seq(n, _ => 0) + seq(n, _ => -1)
  }

  /** `sum(x * y for x, y in zip(signal, weights(n)))`: `zip` stops with
      the signal. */
  function Dot(signal: seq<int>, n: int): int
    requires n >= 1
  {
    if signal == [] then 0
    else Dot(signal[..|signal| - 1], n) + signal[|signal| - 1] * Weight(n, |signal| - 1)
  }

  function Abs(x: int): nat { if x < 0 then -x else x }

  /** The list `apply_phase` returns. */
  function Phase(signal: seq<int>): seq<int> {
    seq(|signal|, n requires 0 <= n < |signal| => Abs(Dot(signal, n + 1)) % 10)
  }

  /** The signal after `phases` phases. */
  function Phases(signal: seq<int>, phases: nat): seq<int> {
    if phases == 0 then signal else Phase(Phases(signal, phases - 1))
  }

  /** The characters of `''.join(map(str, signal))`, minus signs aside. */
  function JoinedDigits(signal: seq<int>): seq<int> {
    if signal == [] then [] else JoinedDigits(signal[..|signal| - 1]) + Decimal.Show(Abs(signal[|signal| - 1]))
  }

  /** `int(''.join(map(str, signal)))`: the empty text, or a minus sign
      anywhere but first, raises ValueError. */
  function JoinInt(signal: seq<int>): Option<int> {
    if signal == [] || exists i :: 1 <= i < |signal| && signal[i] < 0 then None
    else
      var v := Decimal.ValueMsf(JoinedDigits(signal));
      Some(if signal[0] < 0 then -v else v)
  }

  /** `parse_into_signal`: the characters of `str(s)` as digits; the minus
      sign of a negative number raises ValueError. */
  function ParseIntoSignal(s: int): Option<seq<int>> {
    if s < 0 then None else Some(Decimal.Show(s))
  }

  /** `apply_phase`: one dot product per position, appended in order, then
      the last digit of each absolute value. */
  method ApplyPhase(signal: seq<int>) returns (result: seq<int>)
    ensures |result| == |signal|
    ensures forall n :: 0 <= n < |signal| ==> result[n] == Abs(Dot(signal, n + 1)) % 10 && 0 <= result[n] <= 9
    ensures result == Phase(signal)
  {
    var sums: seq<int> := [];
    var n := 0;
    while n < |signal|
      invariant 0 <= n <= |signal| && |sums| == n
      invariant forall i :: 0 <= i < n ==> sums[i] == Dot(signal, i + 1)
    {
      sums := sums + [Dot(signal, n + 1)];
      n := n + 1;
    }
    result := seq(|sums|, i requires 0 <= i < |sums| => Abs(sums[i]) % 10);
  }

  /** `fft`: apply `phases` phases, then read the list as one number. */
  method Transform(signal: seq<int>, phases: nat) returns (r: Option<int>)
    ensures r == JoinInt(Phases(signal, phases))
  {
    var current := signal;
    var done := 0;
    while done < phases
      invariant 0 <= done <= phases && current == Phases(signal, done)
    {
      current := ApplyPhase(current);
      done := done + 1;
    }
    r := JoinInt(current);
  }

  // ---------------------------------------------------------------------
  // Properties

  /** Element k of `weights(n)` is element k + 1 of the cycle of periods. */
  lemma WeightIsCycle(n: int, k: int)
    requires n >= 1 && k >= 0
    ensures Weight(n, k) == Period(n)[(k + 1) % (4 * n)]
  {
    var q := (k + 1) % (4 * n);
    var t := (k + 1) / (4 * n);
    var j := q / n;
    var r := q % n;
    PeriodAt(n, q);
    Regroup(n, k + 1, t, q, j, r);
    DivUnique(k + 1, n, 4 * t + j, r);
    DivUnique(4 * t + j, 4, t, j);
  }

  /** Dividing by 4n and then by n is dividing by n and then by 4. */
  lemma Regroup(n: int, a: int, t: int, q: int, j: int, r: int)
    requires a == (4 * n) * t + q && q == n * j + r
    ensures a == n * (4 * t + j) + r
  {
    assert (4 * n) * t == n * (4 * t);
    assert n * (4 * t) + n * j == n * (4 * t + j);
  }

  /** Cell q of one period holds the base value of its quarter. */
  lemma PeriodAt(n: int, q: int)
    requires n >= 1 && 0 <= q < 4 * n
    ensures 0 <= q / n < 4 && q % n < n && q == n * (q / n) + q % n
    ensures Period(n)[q] == BasePattern[q / n]
  {
    if q < n {
      DivUnique(q, n, 0, q);
    } else if q < 2 * n {
      DivUnique(q, n, 1, q - n);
    } else if q < 3 * n {
      DivUnique(q, n, 2, q - 2 * n);
    } else {
      DivUnique(q, n, 3, q - 3 * n);
    }
  }

  /** Every phase keeps the length and leaves only digits. */
  lemma PhasesAreDigits(signal: seq<int>, phases: nat)
    ensures |Phases(signal, phases)| == |signal|
    ensures phases > 0 ==> Decimal.IsDigits(Phases(signal, phases))
  {
  }

  /** Single digits join to themselves. */
  lemma {:induction false} JoinedDigitsOfDigits(signal: seq<int>)
    requires Decimal.IsDigits(signal)
    ensures JoinedDigits(signal) == signal
  {
    if signal != [] {
      var last := signal[|signal| - 1];
      assert Decimal.IsDigits(signal[..|signal| - 1]);
      JoinedDigitsOfDigits(signal[..|signal| - 1]);
      assert 0 <= last <= 9;
      assert Decimal.Show(Abs(last)) == [last];
      assert signal[..|signal| - 1] + [signal[|signal| - 1]] == signal;
    }
  }

  /** A non-empty list of digits reads as the number it spells. */
  lemma JoinIntOfDigits(signal: seq<int>)
    requires signal != [] && Decimal.IsDigits(signal)
    ensures JoinInt(signal) == Some(Decimal.ValueMsf(signal))
  {
    JoinedDigitsOfDigits(signal);
  }

  /** With no phases `fft` gives back the number the signal was parsed from. */
  lemma ZeroPhasesRoundTrip(s: nat)
    ensures ParseIntoSignal(s).Some?
    ensures JoinInt(Phases(ParseIntoSignal(s).value, 0)) == Some(s)
  {
    JoinIntOfDigits(Decimal.Show(s));
    Decimal.ValueMsfOfShow(s);
  }

  /** The dot product of an eight-element signal, written out. */
  lemma DotOfEight(signal: seq<int>, n: int)
    requires |signal| == 8 && n >= 1
    ensures Dot(signal, n) == signal[0] * Weight(n, 0) + signal[1] * Weight(n, 1) + signal[2] * Weight(n, 2)
      + signal[3] * Weight(n, 3) + signal[4] * Weight(n, 4) + signal[5] * Weight(n, 5)
      + signal[6] * Weight(n, 6) + signal[7] * Weight(n, 7)
  {
    assert signal[..0] == [];
    assert signal[..1][..0] == signal[..0];
    assert Dot(signal[..1], n) == Dot(signal[..0], n) + signal[0] * Weight(n, 0);
    assert signal[..2][..1] == signal[..1];
    assert Dot(signal[..2], n) == Dot(signal[..1], n) + signal[1] * Weight(n, 1);
    assert signal[..3][..2] == signal[..2];
    assert Dot(signal[..3], n) == Dot(signal[..2], n) + signal[2] * Weight(n, 2);
    assert signal[..4][..3] == signal[..3];
    assert Dot(signal[..4], n) == Dot(signal[..3], n) + signal[3] * Weight(n, 3);
    assert signal[..5][..4] == signal[..4];
    assert Dot(signal[..5], n) == Dot(signal[..4], n) + signal[4] * Weight(n, 4);
    assert signal[..6][..5] == signal[..5];
    assert Dot(signal[..6], n) == Dot(signal[..5], n) + signal[5] * Weight(n, 5);
    assert signal[..7][..6] == signal[..6];
    assert Dot(signal[..7], n) == Dot(signal[..6], n) + signal[6] * Weight(n, 6);
    assert signal[..8][..7] == signal[..7];
    assert Dot(signal[..8], n) == Dot(signal[..7], n) + signal[7] * Weight(n, 7);
    assert signal[..8] == signal;
  }

  /** The eight rows of the pattern on an eight-element signal: row n adds
      and subtracts the elements its weights pick out. */
  lemma DotRow1(signal: seq<int>)
    requires |signal| == 8
    ensures Dot(signal, 1) == signal[0] - signal[2] + signal[4] - signal[6]
  {
    DotOfEight(signal, 1);
  }

  lemma DotRow2(signal: seq<int>)
    requires |signal| == 8
    ensures Dot(signal, 2) == signal[1] + signal[2] - signal[5] - signal[6]
  {
    DotOfEight(signal, 2);
  }

  lemma DotRow3(signal: seq<int>)
    requires |signal| == 8
    ensures Dot(signal, 3) == signal[2] + signal[3] + signal[4]
  {
    DotOfEight(signal, 3);
  }

  lemma DotRow4(signal: seq<int>)
    requires |signal| == 8
    ensures Dot(signal, 4) == signal[3] + signal[4] + signal[5] + signal[6]
  {
    DotOfEight(signal, 4);
  }

  lemma DotRow5(signal: seq<int>)
    requires |signal| == 8
    ensures Dot(signal, 5) == signal[4] + signal[5] + signal[6] + signal[7]
  {
    DotOfEight(signal, 5);
  }

  lemma DotRow6(signal: seq<int>)
    requires |signal| == 8
    ensures Dot(signal, 6) == signal[5] + signal[6] + signal[7]
  {
    DotOfEight(signal, 6);
  }

  lemma DotRow7(signal: seq<int>)
    requires |signal| == 8
    ensures Dot(signal, 7) == signal[6] + signal[7]
  {
    DotOfEight(signal, 7);
  }

  lemma DotRow8(signal: seq<int>)
    requires |signal| == 8
    ensures Dot(signal, 8) == signal[7]
  {
    DotOfEight(signal, 8);
  }

  /** One phase of an eight-element signal, written out row by row. */
  lemma PhaseOfEight(signal: seq<int>)
    requires |signal| == 8
    ensures Phase(signal) == [Abs(signal[0] - signal[2] + signal[4] - signal[6]) % 10,
                             Abs(signal[1] + signal[2] - signal[5] - signal[6]) % 10,
                             Abs(signal[2] + signal[3] + signal[4]) % 10,
                             Abs(signal[3] + signal[4] + signal[5] + signal[6]) % 10,
                             Abs(signal[4] + signal[5] + signal[6] + signal[7]) % 10,
                             Abs(signal[5] + signal[6] + signal[7]) % 10,
                             Abs(signal[6] + signal[7]) % 10,
                             Abs(signal[7]) % 10]
  {
    DotRow1(signal);
    DotRow2(signal);
    DotRow3(signal);
    DotRow4(signal);
    DotRow5(signal);
    DotRow6(signal);
    DotRow7(signal);
    DotRow8(signal);
  }

  /** Phase 1 of the example. */
  lemma ExamplePhase1()
    ensures Phase([1, 2, 3, 4, 5, 6, 7, 8]) == [4, 8, 2, 2, 6, 1, 5, 8]
  {
    var s := [1, 2, 3, 4, 5, 6, 7, 8];
    PhaseOfEight(s);
  }

  /** Phase 2 of the example. */
  lemma ExamplePhase2()
    ensures Phase([4, 8, 2, 2, 6, 1, 5, 8]) == [3, 4, 0, 4, 0, 4, 3, 8]
  {
    var s := [4, 8, 2, 2, 6, 1, 5, 8];
    PhaseOfEight(s);
  }

  /** Phase 3 of the example. */
  lemma ExamplePhase3()
    ensures Phase([3, 4, 0, 4, 0, 4, 3, 8]) == [0, 3, 4, 1, 5, 5, 1, 8]
  {
    var s := [3, 4, 0, 4, 0, 4, 3, 8];
    PhaseOfEight(s);
  }

  /** Phase 4 of the example. */
  lemma ExamplePhase4()
    ensures Phase([0, 3, 4, 1, 5, 5, 1, 8]) == [0, 1, 0, 2, 9, 4, 9, 8]
  {
    var s := [0, 3, 4, 1, 5, 5, 1, 8];
    PhaseOfEight(s);
  }

  /** 12345678 parses into its eight digits. */
  lemma ParseExample()
    ensures ParseIntoSignal(12345678) == Some([1, 2, 3, 4, 5, 6, 7, 8])
  {
    assert Decimal.Show(1) == [1];
    assert Decimal.Show(12) == [1, 2];
    assert Decimal.Show(123) == [1, 2, 3];
    assert Decimal.Show(1234) == [1, 2, 3, 4];
    assert Decimal.Show(12345) == [1, 2, 3, 4, 5];
    assert Decimal.Show(123456) == [1, 2, 3, 4, 5, 6];
    assert Decimal.Show(1234567) == [1, 2, 3, 4, 5, 6, 7];
    assert Decimal.Show(12345678) == [1, 2, 3, 4, 5, 6, 7, 8];
  }

  /** 01029498 read as a number. */
  lemma ReadExample()
    ensures JoinInt([0, 1, 0, 2, 9, 4, 9, 8]) == Some(1029498)
  {
    var p4 := [0, 1, 0, 2, 9, 4, 9, 8];
    JoinIntOfDigits(p4);
    assert p4[..1][..0] == p4[..0];
    assert Decimal.ValueMsf(p4[..1]) == 0;
    assert p4[..2][..1] == p4[..1];
    assert Decimal.ValueMsf(p4[..2]) == 1;
    assert p4[..3][..2] == p4[..2];
    assert Decimal.ValueMsf(p4[..3]) == 10;
    assert p4[..4][..3] == p4[..3];
    assert Decimal.ValueMsf(p4[..4]) == 102;
    assert p4[..5][..4] == p4[..4];
    assert Decimal.ValueMsf(p4[..5]) == 1029;
    assert p4[..6][..5] == p4[..5];
    assert Decimal.ValueMsf(p4[..6]) == 10294;
    assert p4[..7][..6] == p4[..6];
    assert Decimal.ValueMsf(p4[..7]) == 102949;
    assert p4[..8][..7] == p4[..7];
    assert Decimal.ValueMsf(p4[..8]) == 1029498;
    assert p4[..8] == p4;
  }

  /** The example the file checks: 12345678 after four phases is 01029498,
      and the leading zero is lost when it is read as a number. */
  lemma FourPhasesExample()
    ensures ParseIntoSignal(12345678) == Some([1, 2, 3, 4, 5, 6, 7, 8])
    ensures JoinInt(Phases([1, 2, 3, 4, 5, 6, 7, 8], 4)) == Some(1029498)
  {
    ParseExample();
    ReadExample();
    var s := [1, 2, 3, 4, 5, 6, 7, 8];
    ExamplePhase1();
    ExamplePhase2();
    ExamplePhase3();
    ExamplePhase4();
    assert Phases(s, 1) == [4, 8, 2, 2, 6, 1, 5, 8];
    assert Phases(s, 2) == [3, 4, 0, 4, 0, 4, 3, 8];
    assert Phases(s, 3) == [0, 3, 4, 1, 5, 5, 1, 8];
    assert Phases(s, 4) == [0, 1, 0, 2, 9, 4, 9, 8];
  }
}

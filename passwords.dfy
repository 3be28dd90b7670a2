/** The password rules of 4/passwords.py: two adjacent equal digits, and
    digits that never decrease from left to right. Both are loops that peel
    decimal digits off the right end of the number. */
module Passwords {
  import Decimal

  const Low := 246540
  const High := 787419

  /** Two neighbouring decimal digits of `n` are equal (never for n <= 0,
      where the loop does not run). */
  predicate TwoAdjacentSame(n: int) {
    n > 0 && exists i :: 0 <= i < |Decimal.Digits(n)| - 1 && Decimal.Digits(n)[i] == Decimal.Digits(n)[i + 1]
  }

  /** Read left to right the digits never go down: read from the right,
      each digit is at least the one to its left. */
  predicate NonDecreasing(n: int) {
    n <= 0 || forall i :: 0 <= i < |Decimal.Digits(n)| - 1 ==> Decimal.Digits(n)[i + 1] <= Decimal.Digits(n)[i]
  }

  predicate IsGood(n: int) {
    TwoAdjacentSame(n) && NonDecreasing(n)
  }

  /** How many of lo, lo + 1, ..., hi - 1 pass both rules. */
  function GoodCount(lo: int, hi: int): nat
    decreases hi - lo
  {
    if hi <= lo then 0 else GoodCount(lo, hi - 1) + (if IsGood(hi - 1) then 1 else 0)
  }

  /** `has_two_adjacent_digits_same`: compare each digit with the next one
      to its left. */
  method HasTwoAdjacentDigitsSame(n: int) returns (same: bool)
    ensures same == TwoAdjacentSame(n)
  {
    ghost var ds := Decimal.Digits(if n > 0 then n else 0);
    ghost var k := 1;
    var digit, rest := n % 10, n / 10;
    PeelFirst(n, ds);
    while rest > 0
      invariant Peeled(n, ds, k, digit, rest)
      invariant UnequalBelow(ds, k)
      decreases rest
    {
      var nextDigit := rest % 10;
      PeelNext(n, ds, k, digit, rest);
      rest := rest / 10;
      if digit == nextDigit {
        EqualPairFound(n, ds, k);
        return true;
      }
      UnequalStep(ds, k);
      digit := nextDigit;
      k := k + 1;
    }
    if n > 0 {
      NoEqualPair(n, ds, k);
    }
    return false;
  }

  /** `increasing`: fail as soon as a digit is larger than the one to its
      right. */
  method Increasing(n: int) returns (increasing: bool)
    ensures increasing == NonDecreasing(n)
  {
    ghost var ds := Decimal.Digits(if n > 0 then n else 0);
    ghost var k := 1;
    var digit, rest := n % 10, n / 10;
    PeelFirst(n, ds);
    while rest > 0
      invariant Peeled(n, ds, k, digit, rest)
      invariant DescendingBelow(ds, k)
      decreases rest
    {
      var nextDigit := rest % 10;
      PeelNext(n, ds, k, digit, rest);
      rest := rest / 10;
      if digit < nextDigit {
        RiseFound(n, ds, k);
        return false;
      }
      DescendingStep(ds, k);
      digit := nextDigit;
      k := k + 1;
    }
    if n > 0 {
      NoRise(n, ds, k);
    }
    return true;
  }

  /** No two neighbours among the first k digits are equal. */
  ghost predicate UnequalBelow(ds: seq<int>, k: int) {
    forall i :: 0 <= i < k - 1 && i + 1 < |ds| ==> ds[i] != ds[i + 1]
  }

  /** Among the first k digits each is at least the one after it. */
  ghost predicate DescendingBelow(ds: seq<int>, k: int) {
    forall i :: 0 <= i < k - 1 && i + 1 < |ds| ==> ds[i + 1] <= ds[i]
  }

  lemma UnequalStep(ds: seq<int>, k: nat)
    requires 1 <= k < |ds| && UnequalBelow(ds, k) && ds[k - 1] != ds[k]
    ensures UnequalBelow(ds, k + 1)
  {
  }

  lemma DescendingStep(ds: seq<int>, k: nat)
    requires 1 <= k < |ds| && DescendingBelow(ds, k) && ds[k] <= ds[k - 1]
    ensures DescendingBelow(ds, k + 1)
  {
  }

  lemma EqualPairFound(n: int, ds: seq<int>, k: nat)
    requires n > 0 && ds == Decimal.Digits(n) && 1 <= k < |ds| && ds[k - 1] == ds[k]
    ensures TwoAdjacentSame(n)
  {
    assert ds[k - 1] == ds[k - 1 + 1];
  }

  lemma RiseFound(n: int, ds: seq<int>, k: nat)
    requires n > 0 && ds == Decimal.Digits(n) && 1 <= k < |ds| && ds[k - 1] < ds[k]
    ensures !NonDecreasing(n)
  {
    assert !(ds[k - 1 + 1] <= ds[k - 1]);
  }

  lemma NoEqualPair(n: int, ds: seq<int>, k: nat)
    requires n > 0 && ds == Decimal.Digits(n) && k == |ds| && UnequalBelow(ds, k)
    ensures !TwoAdjacentSame(n)
  {
  }

  lemma NoRise(n: int, ds: seq<int>, k: nat)
    requires n > 0 && ds == Decimal.Digits(n) && k == |ds| && DescendingBelow(ds, k)
    ensures NonDecreasing(n)
  {
  }

  /** The state of both loops: `digit` is the k-th digit of n from the
      right and `rest` holds the digits to its left (for n <= 0 the loop
      does not run). */
  ghost predicate Peeled(n: int, ds: seq<int>, k: int, digit: int, rest: int) {
    && (n > 0 ==> 1 <= k <= |ds| && rest >= 0 && digit == ds[k - 1] && Decimal.Digits(rest) == ds[k..])
    && (n <= 0 ==> rest <= 0 && k == 1)
  }

  lemma PeelFirst(n: int, ds: seq<int>)
    requires ds == Decimal.Digits(if n > 0 then n else 0)
    ensures Peeled(n, ds, 1, n % 10, n / 10)
  {
    if n > 0 {
      assert ds[0..] == ds;
      DigitsTail(ds, 0, n);
    }
  }

  /** One more turn of either loop moves one digit along. */
  lemma PeelNext(n: int, ds: seq<int>, k: int, digit: int, rest: int)
    requires Peeled(n, ds, k, digit, rest) && rest > 0
    ensures n > 0 && 1 <= k < |ds| && ds[k - 1] == digit && ds[k] == rest % 10
    ensures Peeled(n, ds, k + 1, rest % 10, rest / 10)
  {
    DigitsTail(ds, k, rest);
  }

  /** Taking the last decimal digit off a number whose digits end a
      digit sequence. */
  lemma DigitsTail(ds: seq<int>, k: nat, rest: int)
    requires rest > 0 && k <= |ds| && Decimal.Digits(rest) == ds[k..]
    ensures k < |ds| && ds[k] == rest % 10 && ds[k + 1..] == Decimal.Digits(rest / 10)
  {
    assert ds[k..][1..] == ds[k + 1..];
  }

  /** `sum(has_two_adjacent_digits_same(n) and increasing(n) for n in
      range(lo, hi + 1))`. */
  method CountGood(lo: int, hi: int) returns (count: nat)
    ensures count == GoodCount(lo, hi + 1)
  {
    count := 0;
    var n := lo;
    while n < hi + 1
      invariant lo <= n && (n <= hi + 1 || n == lo)
      invariant count == GoodCount(lo, n)
      decreases hi + 1 - n
    {
      var adjacent := HasTwoAdjacentDigitsSame(n);
      var increasing := Increasing(n);
      GoodCountStep(lo, n);
      if adjacent && increasing {
        count := count + 1;
      }
      n := n + 1;
    }
  }

  /** Counting one more number adds one exactly when it is good. */
  lemma GoodCountStep(lo: int, n: int)
    requires lo <= n
    ensures GoodCount(lo, n + 1) == GoodCount(lo, n) + if IsGood(n) then 1 else 0
  {
  }

  /** The puzzle's range. */
  method CountInPuzzleRange() returns (count: nat)
    ensures count == GoodCount(Low, High + 1)
  {
    count := CountGood(Low, High);
  }

  // ---------------------------------------------------------------------
  // Properties

  /** A single digit has no neighbour to repeat, and nothing to go down to. */
  lemma SingleDigit(n: int)
    requires 0 <= n < 10
    ensures !TwoAdjacentSame(n) && NonDecreasing(n)
  {
    assert n > 0 ==> Decimal.Digits(n) == [n];
  }

  /** The rule read on the written number (`str(n)`, most significant
      digit first): each digit is at most the next one. */
  lemma NonDecreasingLeftToRight(n: int)
    requires n > 0
    ensures NonDecreasing(n) <==>
      forall i :: 0 <= i < |Decimal.Show(n)| - 1 ==> Decimal.Show(n)[i] <= Decimal.Show(n)[i + 1]
  {
    var ds, s := Decimal.Digits(n), Decimal.Show(n);
    Decimal.ShowReversed(n);
    assert ds == Decimal.Reverse(s);
    if NonDecreasing(n) {
      forall i | 0 <= i < |s| - 1
        ensures s[i] <= s[i + 1]
      {
        var j := |s| - 2 - i;
        assert s[i] == ds[j + 1] && s[i + 1] == ds[j];
      }
    } else {
      var j :| 0 <= j < |ds| - 1 && ds[j + 1] > ds[j];
      var i := |s| - 2 - j;
      assert s[i] == ds[j + 1] && s[i + 1] == ds[j];
    }
  }

  /** The same with two equal neighbours. */
  lemma TwoAdjacentSameLeftToRight(n: int)
    requires n > 0
    ensures TwoAdjacentSame(n) <==>
      exists i :: 0 <= i < |Decimal.Show(n)| - 1 && Decimal.Show(n)[i] == Decimal.Show(n)[i + 1]
  {
    var ds, s := Decimal.Digits(n), Decimal.Show(n);
    Decimal.ShowReversed(n);
    assert ds == Decimal.Reverse(s);
    if TwoAdjacentSame(n) {
      var j :| 0 <= j < |ds| - 1 && ds[j] == ds[j + 1];
      var i := |s| - 2 - j;
      assert s[i] == ds[j + 1] && s[i + 1] == ds[j];
    }
    if exists i :: 0 <= i < |s| - 1 && s[i] == s[i + 1] {
      var i :| 0 <= i < |s| - 1 && s[i] == s[i + 1];
      var j := |s| - 2 - i;
      assert ds[j] == s[i + 1] && ds[j + 1] == s[i];
    }
  }

  /** The digits of a positive number: its last digit, then the digits of
      the rest. */
  lemma DigitsCons(n: int, ds: seq<int>)
    requires n > 0 && Decimal.Digits(n / 10) == ds
    ensures Decimal.Digits(n) == [n % 10] + ds
  {
  }

  // ---------------------------------------------------------------------
  // The examples the file checks

  lemma AdjacentExamples()
    ensures !TwoAdjacentSame(12345)
    ensures !TwoAdjacentSame(2)
    ensures TwoAdjacentSame(1123)
    ensures TwoAdjacentSame(1223)
    ensures TwoAdjacentSame(1233)
    ensures TwoAdjacentSame(22)
  {
    DigitsOf12345();
    DigitsCons(2, []);
    DigitsOf1123();
    assert Decimal.Digits(1123)[2] == Decimal.Digits(1123)[3];
    DigitsOf1223();
    assert Decimal.Digits(1223)[1] == Decimal.Digits(1223)[2];
    DigitsOf1233();
    assert Decimal.Digits(1233)[0] == Decimal.Digits(1233)[1];
    DigitsCons(22, [2]);
    assert Decimal.Digits(22)[0] == Decimal.Digits(22)[1];
  }

  lemma IncreasingExamples()
    ensures NonDecreasing(12345)
    ensures !NonDecreasing(54321)
    ensures NonDecreasing(123345)
    ensures !NonDecreasing(12321)
  {
    Rising12345();
    Falling54321();
    Rising123345();
    Dipping12321();
  }

  lemma Rising12345()
    ensures NonDecreasing(12345)
  {
    DigitsOf12345();
  }

  lemma Falling54321()
    ensures !NonDecreasing(54321)
  {
    DigitsOf54321();
    assert Decimal.Digits(54321)[1] > Decimal.Digits(54321)[0];
  }

  lemma Rising123345()
    ensures NonDecreasing(123345)
  {
    DigitsOf123345();
  }

  lemma Dipping12321()
    ensures !NonDecreasing(12321)
  {
    DigitsOf12321();
    assert Decimal.Digits(12321)[1] > Decimal.Digits(12321)[0];
  }

  // The digits of the example numbers, least significant first.

  lemma DigitsOf123()
    ensures Decimal.Digits(123) == [3, 2, 1]
  {
    DigitsCons(1, []);
    DigitsCons(12, [1]);
    DigitsCons(123, [2, 1]);
  }

  lemma DigitsOf12345()
    ensures Decimal.Digits(12345) == [5, 4, 3, 2, 1]
  {
    DigitsOf123();
    DigitsCons(1234, [3, 2, 1]);
    DigitsCons(12345, [4, 3, 2, 1]);
  }

  lemma DigitsOf54321()
    ensures Decimal.Digits(54321) == [1, 2, 3, 4, 5]
  {
    DigitsCons(5, []);
    DigitsCons(54, [5]);
    DigitsCons(543, [4, 5]);
    DigitsCons(5432, [3, 4, 5]);
    DigitsCons(54321, [2, 3, 4, 5]);
  }

  lemma DigitsOf1233()
    ensures Decimal.Digits(1233) == [3, 3, 2, 1]
  {
    DigitsOf123();
    DigitsCons(1233, [3, 2, 1]);
  }

  lemma DigitsOf123345()
    ensures Decimal.Digits(123345) == [5, 4, 3, 3, 2, 1]
  {
    DigitsOf1233();
    DigitsCons(12334, [3, 3, 2, 1]);
    DigitsCons(123345, [4, 3, 3, 2, 1]);
  }

  lemma DigitsOf12321()
    ensures Decimal.Digits(12321) == [1, 2, 3, 2, 1]
  {
    DigitsOf123();
    DigitsCons(1232, [3, 2, 1]);
    DigitsCons(12321, [2, 3, 2, 1]);
  }

  lemma DigitsOf1123()
    ensures Decimal.Digits(1123) == [3, 2, 1, 1]
  {
    DigitsCons(1, []);
    DigitsCons(11, [1]);
    DigitsCons(112, [1, 1]);
    DigitsCons(1123, [2, 1, 1]);
  }

  lemma DigitsOf1223()
    ensures Decimal.Digits(1223) == [3, 2, 2, 1]
  {
    DigitsCons(1, []);
    DigitsCons(12, [1]);
    DigitsCons(122, [2, 1]);
    DigitsCons(1223, [2, 2, 1]);
  }
}

/** Decimal digits of natural numbers, as Python's `str`, `int` and the
    `% 10` / `// 10` loops of the puzzles see them. */
module Decimal {

  predicate IsDigits(ds: seq<int>) {
    forall i :: 0 <= i < |ds| ==> 0 <= ds[i] <= 9
  }

  /** The decimal digits of `n`, least significant first; empty for 0. */
  function Digits(n: nat): (ds: seq<int>)
    ensures IsDigits(ds)
    ensures ds != [] ==> ds[|ds| - 1] != 0
    ensures n == 0 <==> ds == []
  {
    if n == 0 then [] else [n % 10] + Digits(n / 10)
  }

  /** The number a least-significant-first digit list denotes. */
  function Value(ds: seq<int>): int {
    if ds == [] then 0 else ds[0] + 10 * Value(ds[1..])
  }

  /** The digits of `str(n)`, most significant first ("0" for 0). */
  function Show(n: nat): (ds: seq<int>)
    ensures IsDigits(ds) && 1 <= |ds|
    ensures |ds| > 1 ==> ds[0] != 0
  {
    if n < 10 then [n] else Show(n / 10) + [n % 10]
  }

  /** The number a most-significant-first digit list denotes, as
      `int(''.join(map(str, ds)))` reads it. */
  function ValueMsf(ds: seq<int>): int {
    if ds == [] then 0 else 10 * ValueMsf(ds[..|ds| - 1]) + ds[|ds| - 1]
  }

  function Reverse(s: seq<int>): (r: seq<int>)
    ensures |r| == |s|
    ensures forall i :: 0 <= i < |s| ==> r[i] == s[|s| - 1 - i]
  {
    if s == [] then [] else Reverse(s[1..]) + [s[0]]
  }

  lemma {:induction false} ValueOfDigits(n: nat)
    ensures Value(Digits(n)) == n
  {
    if n > 0 {
      ValueOfDigits(n / 10);
    }
  }

  lemma {:induction false} DigitsOfValue(ds: seq<int>)
    requires IsDigits(ds)
    requires ds != [] ==> ds[|ds| - 1] != 0
    ensures Value(ds) >= 0
    ensures Digits(Value(ds)) == ds
  {
    if ds != [] {
      DigitsOfValue(ds[1..]);
      var v := Value(ds[1..]);
      assert ds[1..] == [] ==> ds[0] != 0;
      assert Value(ds) > 0;
      assert Value(ds) % 10 == ds[0] && Value(ds) / 10 == v;
      assert ds == [ds[0]] + ds[1..];
    }
  }

  lemma {:induction false} ValueMsfOfShow(n: nat)
    ensures ValueMsf(Show(n)) == n
  {
    if n >= 10 {
      ValueMsfOfShow(n / 10);
      var s := Show(n / 10) + [n % 10];
      assert s[..|s| - 1] == Show(n / 10);
    }
  }

  /** Reading `str(n)` backwards gives the least-significant-first digits. */
  lemma {:induction false} ShowReversed(n: nat)
    requires n > 0
    ensures Reverse(Show(n)) == Digits(n)
  {
    if n >= 10 {
      ShowReversed(n / 10);
      var s := Show(n / 10) + [n % 10];
      assert Reverse(s) == [n % 10] + Reverse(Show(n / 10)) by {
        ReverseAppend(Show(n / 10), [n % 10]);
      }
    }
  }

  lemma {:induction false} ReverseAppend(a: seq<int>, b: seq<int>)
    ensures Reverse(a + b) == Reverse(b) + Reverse(a)
  {
    var l, r := Reverse(a + b), Reverse(b) + Reverse(a);
    assert |l| == |r|;
    forall i | 0 <= i < |l| ensures l[i] == r[i] {
    }
  }
}

/** Decimal numerals as text: `str(n)` and the digits `int` reads. */
module DecimalText {
  import Decimal

  predicate IsDigitChar(c: char) { '0' as int <= c as int <= '9' as int }

  /** The digit each character of `text` stands for. */
  function DigitValues(text: string): (ds: seq<int>)
    ensures |ds| == |text|
    ensures (forall i :: 0 <= i < |text| ==> IsDigitChar(text[i])) ==> Decimal.IsDigits(ds)
  {
    seq(|text|, i requires 0 <= i < |text| => text[i] as int - '0' as int)
  }

  /** `str(n)` of a natural number: its decimal digits as characters. */
  function ShowText(n: nat): (text: string)
    ensures |text| >= 1 && forall i :: 0 <= i < |text| ==> IsDigitChar(text[i])
    ensures DigitValues(text) == Decimal.Show(n)
  {
    var digits := Decimal.Show(n);
    var text := seq(|digits|, i requires 0 <= i < |digits| => ('0' as int + digits[i]) as char);
    assert DigitValues(text) == digits;
    text
  }

  /** `int(text)` of a non-empty run of digits. */
  function ReadNat(text: string): nat
    requires forall i :: 0 <= i < |text| ==> IsDigitChar(text[i])
  {
    var v := Decimal.ValueMsf(DigitValues(text));
    ValueMsfNonNegative(DigitValues(text));
    v
  }

  lemma {:induction false} ValueMsfNonNegative(ds: seq<int>)
    requires Decimal.IsDigits(ds)
    ensures Decimal.ValueMsf(ds) >= 0
  {
    if ds != [] {
      ValueMsfNonNegative(ds[..|ds| - 1]);
    }
  }

  /** `int(str(n)) == n`. */
  lemma ReadShow(n: nat)
    ensures ReadNat(ShowText(n)) == n
  {
    Decimal.ValueMsfOfShow(n);
  }

  /** `str(n)` of a one-digit number. */
  lemma ShowOneDigit(n: nat)
    requires n < 10
    ensures ShowText(n) == [('0' as int + n) as char]
  {
    assert Decimal.Show(n) == [n];
  }

  /** `str(n)` of a two-digit number. */
  lemma ShowTwoDigits(n: nat)
    requires 10 <= n < 100
    ensures ShowText(n) == [('0' as int + n / 10) as char, ('0' as int + n % 10) as char]
  {
    assert Decimal.Show(n) == [n / 10, n % 10];
  }

  /** Every character is one `\d` matches (ASCII only). */
  predicate AllDigits(s: string) {
    forall i :: 0 <= i < |s| ==> IsDigitChar(s[i])
  }

  /** How many characters the greedy `\d+` takes at the front of s. */
  function DigitRun(s: string): (n: nat)
    ensures n <= |s|
    ensures n == |s| || !IsDigitChar(s[n])
  {
    if s == [] || !IsDigitChar(s[0]) then 0
    else 1 + DigitRun(s[1..])
  }

  /** Everything the run covers is a digit. */
  lemma {:induction false} DigitRunDigits(s: string)
    ensures AllDigits(s[..DigitRun(s)])
  {
    if s != [] && IsDigitChar(s[0]) {
      var n := DigitRun(s);
      DigitRunDigits(s[1..]);
      assert forall i :: 1 <= i < n ==> s[..n][i] == s[1..][..n - 1][i - 1];
    }
  }

  /** The greedy `\d+` run stops exactly where the digits stop. */
  lemma {:induction false} DigitRunOf(t: string, rest: string)
    requires AllDigits(t)
    requires rest == [] || !IsDigitChar(rest[0])
    ensures DigitRun(t + rest) == |t|
  {
    if t != [] {
      assert (t + rest)[1..] == t[1..] + rest;
      DigitRunOf(t[1..], rest);
    }
  }
}

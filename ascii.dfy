/** `to_ascii` of 17/ASCII.py: the text a robot routine is typed as, one
    character code per character and a newline code at the end, optionally
    reversed so that an Intcode program popping its input from the back
    reads it in order. */
module Ascii {
  import Decimal
  import IntcodeSpec

  const LineEnd := 10

  /** `to_ascii(code, reverse)`. */
  function ToAscii(code: string, reverse: bool): (r: seq<int>)
    ensures |r| == |code| + 1
  {
    var codes := seq(|code|, i requires 0 <= i < |code| => code[i] as int) + [LineEnd];
    if reverse then Decimal.Reverse(codes) else codes
  }

  /** In reading order: the code of each character, then the newline. */
  lemma ToAsciiInOrder(code: string)
    ensures forall i :: 0 <= i < |code| ==> ToAscii(code, false)[i] == code[i] as int
    ensures ToAscii(code, false)[|code|] == LineEnd
    ensures ToAscii("", false) == ToAscii("", true) == [LineEnd]
  {
  }

  /** Reversed: the newline first, and element i is element |code| - i of
      the unreversed list. */
  lemma ToAsciiReversed(code: string)
    ensures ToAscii(code, true) == Decimal.Reverse(ToAscii(code, false))
    ensures ToAscii(code, true)[0] == LineEnd
    ensures forall i :: 0 <= i < |code| ==> ToAscii(code, true)[|code| - i] == code[i] as int
  {
  }

  /** Reversing twice gives the reading order back. */
  lemma {:induction false} ReverseReverse(s: seq<int>)
    ensures Decimal.Reverse(Decimal.Reverse(s)) == s
  {
    var r := Decimal.Reverse(Decimal.Reverse(s));
    assert forall i :: 0 <= i < |s| ==> r[i] == s[i];
  }

  /** Filling an empty program input with `to_ascii(code, reverse=True)`
      (17/ASCII.py:43) and popping from the back, as intcode/intcode.py
      does, runs exactly as reading `to_ascii(code)` from the front: the
      characters arrive in order with the newline last. */
  lemma ReversedInputReadsInOrder(code: string, tape: seq<int>, output: seq<int>, ip: int, fuel: nat)
    ensures var m := IntcodeSpec.Machine(tape, ToAscii(code, false), output);
      IntcodeSpec.Run(IntcodeSpec.Machine(tape, ToAscii(code, true), output), ip, IntcodeSpec.Back, fuel)
        == IntcodeSpec.FlipOutcome(IntcodeSpec.Run(m, ip, IntcodeSpec.Front, fuel))
  {
    var m := IntcodeSpec.Machine(tape, ToAscii(code, false), output);
    assert IntcodeSpec.Flip(m) == IntcodeSpec.Machine(tape, ToAscii(code, true), output);
    IntcodeSpec.RunFrontIsBackReversed(m, ip, fuel);
  }
}

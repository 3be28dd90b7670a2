/** The string operations the input readers use: `str.strip()` and
    `str.split(sep)`. */
module Text {

  /** The characters `str.strip` and the regular expression `\s` treat as
      whitespace (ASCII only). */
  predicate IsSpace(c: char) {
    c == ' ' || 9 <= c as int <= 13 || 28 <= c as int <= 31
  }

  function StripLeft(s: string): string {
    if s != [] && IsSpace(s[0]) then StripLeft(s[1..]) else s
  }

  function StripRight(s: string): string {
    if s != [] && IsSpace(s[|s| - 1]) then StripRight(s[..|s| - 1]) else s
  }

  /** `str.strip()`. */
  function Strip(s: string): string {
    StripRight(StripLeft(s))
  }

  /** What `StripLeft` removes is whitespace, and it stops at a character
      that is not. */
  lemma {:induction false} StripLeftDrops(s: string)
    ensures var t := StripLeft(s);
      && |t| <= |s| && t == s[|s| - |t|..]
      && (forall i :: 0 <= i < |s| - |t| ==> IsSpace(s[i]))
      && (t != [] ==> !IsSpace(t[0]))
  {
    if s != [] && IsSpace(s[0]) {
      StripLeftDrops(s[1..]);
      var t := StripLeft(s);
      assert s[1..][|s| - 1 - |t|..] == s[|s| - |t|..];
      forall i | 0 <= i < |s| - |t| ensures IsSpace(s[i]) {
        if i > 0 {
          assert s[i] == s[1..][i - 1];
        }
      }
    }
  }

  /** What `StripRight` removes is whitespace, and it stops at a character
      that is not. */
  lemma {:induction false} StripRightDrops(s: string)
    ensures var t := StripRight(s);
      && |t| <= |s| && t == s[..|t|]
      && (forall i :: |t| <= i < |s| ==> IsSpace(s[i]))
      && (t != [] ==> !IsSpace(t[|t| - 1]))
  {
    if s != [] && IsSpace(s[|s| - 1]) {
      StripRightDrops(s[..|s| - 1]);
      var t := StripRight(s);
      assert s[..|s| - 1][..|t|] == s[..|t|];
      forall i | |t| <= i < |s| ensures IsSpace(s[i]) {
        if i < |s| - 1 {
          assert s[i] == s[..|s| - 1][i];
        }
      }
    }
  }

  /** `str.strip()` keeps one stretch of s, which starts at the first
      character that is not whitespace; everything around it is whitespace
      and neither end of it is. */
  lemma StripTrims(s: string)
    ensures |Strip(s)| <= |StripLeft(s)| <= |s|
    ensures var r := Strip(s); var a := |s| - |StripLeft(s)|;
      && a + |r| <= |s| && r == s[a..a + |r|]
      && (forall i :: 0 <= i < |s| && !(a <= i < a + |r|) ==> IsSpace(s[i]))
    ensures var r := Strip(s); r != [] ==> !IsSpace(r[0]) && !IsSpace(r[|r| - 1])
  {
    var t := StripLeft(s);
    var a := |s| - |t|;
    StripLeftDrops(s);
    StripRightDrops(t);
    var r := Strip(s);
    assert r == s[a..a + |r|];
    forall i | 0 <= i < |s| && !(a <= i < a + |r|) ensures IsSpace(s[i]) {
      if i >= a + |r| {
        assert s[i] == t[i - a];
      }
    }
    if r != [] {
      assert r[0] == t[0];
    }
  }

  /** Whitespace in front of text that starts with something else is
      what `StripLeft` removes. */
  lemma {:induction false} StripLeftSpaces(pre: string, t: string)
    requires forall i :: 0 <= i < |pre| ==> IsSpace(pre[i])
    requires t == [] || !IsSpace(t[0])
    ensures StripLeft(pre + t) == t
  {
    if pre != [] {
      assert (pre + t)[0] == pre[0] && (pre + t)[1..] == pre[1..] + t;
      StripLeftSpaces(pre[1..], t);
    } else {
      assert pre + t == t;
    }
  }

  /** Whitespace behind text that ends with something else is what
      `StripRight` removes. */
  lemma {:induction false} StripRightSpaces(t: string, post: string)
    requires forall i :: 0 <= i < |post| ==> IsSpace(post[i])
    requires t == [] || !IsSpace(t[|t| - 1])
    ensures StripRight(t + post) == t
  {
    if post != [] {
      var last := |post| - 1;
      assert (t + post)[|t + post| - 1] == post[last];
      assert (t + post)[..|t + post| - 1] == t + post[..last];
      StripRightSpaces(t, post[..last]);
    } else {
      assert t + post == t;
    }
  }

  /** `str.strip()` of text with whitespace put around it gives the text. */
  lemma StripAround(pre: string, t: string, post: string)
    requires forall i :: 0 <= i < |pre| ==> IsSpace(pre[i])
    requires forall i :: 0 <= i < |post| ==> IsSpace(post[i])
    requires t != [] && !IsSpace(t[0]) && !IsSpace(t[|t| - 1])
    ensures Strip(pre + t + post) == t
  {
    assert pre + t + post == pre + (t + post);
    assert (t + post)[0] == t[0];
    StripLeftSpaces(pre, t + post);
    StripRightSpaces(t, post);
  }

  /** `s.split(sep)`: the pieces between separators, found left to right. */
  function Split(s: string, sep: string): (parts: seq<string>)
    requires sep != []
    ensures |parts| >= 1
    decreases |s|
  {
    if |s| >= |sep| && s[..|sep|] == sep then [""] + Split(s[|sep|..], sep)
    else if s == [] then [""]
    else
      var rest := Split(s[1..], sep);
      [[s[0]] + rest[0]] + rest[1..]
  }

  predicate Avoids(s: string, c: char) {
    forall i :: 0 <= i < |s| ==> s[i] != c
  }

  /** No piece of a split at a one-character separator holds that character. */
  lemma {:induction false} SplitAvoids(s: string, c: char)
    ensures forall k :: 0 <= k < |Split(s, [c])| ==> Avoids(Split(s, [c])[k], c)
    decreases |s|
  {
    if |s| >= 1 && s[..1] == [c] {
      SplitAvoids(s[1..], c);
      assert Split(s, [c]) == [""] + Split(s[1..], [c]);
    } else if s != [] {
      SplitAvoids(s[1..], c);
      assert s[0] != c by {
        assert s[..1] == [s[0]];
      }
    }
  }

  /** Text without whitespace at either end is left as it is. */
  lemma StripPlain(s: string)
    requires s != [] && !IsSpace(s[0]) && !IsSpace(s[|s| - 1])
    ensures Strip(s) == s
  {
  }

  /** Text that cannot start a separator is not split. */
  lemma {:induction false} SplitNone(a: string, sep: string)
    requires sep != [] && Avoids(a, sep[0])
    ensures Split(a, sep) == [a]
  {
    if a != [] {
      SplitNone(a[1..], sep);
      assert [a[0]] + a[1..] == a;
    }
  }

  /** Splitting at the first separator. */
  lemma {:induction false} SplitJoin(a: string, sep: string, b: string)
    requires sep != [] && Avoids(a, sep[0])
    ensures Split(a + sep + b, sep) == [a] + Split(b, sep)
  {
    var s := a + sep + b;
    if a == [] {
      assert s[..|sep|] == sep && s[|sep|..] == b;
    } else {
      assert s[..|sep|] != sep by {
        assert s[0] == a[0] != sep[0];
      }
      assert s[1..] == a[1..] + sep + b;
      SplitJoin(a[1..], sep, b);
      assert [a[0]] + a[1..] == a;
    }
  }
}

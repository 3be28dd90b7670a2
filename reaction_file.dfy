/** The reaction list of 14/stoichiometry.py: each line names the amounts
    of the reactants and, last, the amount of the product, for instance
    "7 A, 1 E => 1 FUEL". A line is read with the regular expression
    `\d+ \w+`, and the lines are collected into a table keyed by product. */
module ReactionFile {
  import opened Wrappers
  import opened Dicts
  import opened DecimalText

  type Chemical = string
  /** `MaterialAmt`: a chemical and a count. */
  type Amount = (Chemical, nat)
  /** The table entry of a product: how many one reaction makes, and the
      reactants one reaction consumes. */
  type Entry = (nat, seq<Amount>)
  /** `Reaction`: a product and its entry. */
  type Reaction = (Chemical, Entry)
  type Table = Dict<Chemical, Entry>

  datatype Error =
    | NoMatches                  // `parsed_matches[-1]` of a line without amounts
    | UnknownChemical(c: Chemical) // `table[chem]` of a chemical no line makes
    | ZeroBatch(c: Chemical)       // a reaction that makes 0, then divided by

  /** The characters `\w` matches (ASCII only). */
  predicate IsWordChar(c: char) {
    'a' <= c <= 'z' || 'A' <= c <= 'Z' || IsDigitChar(c) || c == '_'
  }

  predicate AllWordChars(s: string) {
    forall i :: 0 <= i < |s| ==> IsWordChar(s[i])
  }

  /** How many characters the greedy `\w+` takes at the front of s. */
  function WordRun(s: string): (n: nat)
    ensures n <= |s|
    ensures n == |s| || !IsWordChar(s[n])
  {
    if s == [] || !IsWordChar(s[0]) then 0
    else 1 + WordRun(s[1..])
  }

  /** Everything the run covers is a word character. */
  lemma {:induction false} WordRunChars(s: string)
    ensures AllWordChars(s[..WordRun(s)])
  {
    if s != [] && IsWordChar(s[0]) {
      var n := WordRun(s);
      WordRunChars(s[1..]);
      assert forall i :: 1 <= i < n ==> s[..n][i] == s[1..][..n - 1][i - 1];
    }
  }

  /** `\d+ \w+` tried at the front of s: the length of the match and the
      amount `match.split(' ')` and `int(n)` read from it. */
  function MatchAt(s: string): (r: Option<(nat, Amount)>)
    ensures r.Some? ==> 0 < r.value.0 <= |s|
  {
    var d := DigitRun(s);
    if d == 0 || d == |s| || s[d] != ' ' then None
    else
      DigitRunDigits(s);
      var w := WordRun(s[d + 1..]);
      if w == 0 then None
      else Some((d + 1 + w, (NameAfter(s, d), ReadNat(s[..d]))))
  }

  /** The `\w+` run after the space at d. */
  function NameAfter(s: string, d: nat): string
    requires d < |s|
  {
    s[d + 1..d + 1 + WordRun(s[d + 1..])]
  }

  /** A match starts with a digit, takes a name as the chemical and ends
      where the word characters end. */
  lemma MatchShape(s: string)
    ensures |s| > 0 && !IsDigitChar(s[0]) ==> MatchAt(s).None?
    ensures MatchAt(s).Some? ==> IsName(MatchAt(s).value.1.0)
    ensures MatchAt(s).Some? ==> MatchAt(s).value.0 == |s| || !IsWordChar(s[MatchAt(s).value.0])
  {
    if MatchAt(s).Some? {
      var d := DigitRun(s);
      var w := WordRun(s[d + 1..]);
      WordRunChars(s[d + 1..]);
      assert s[d + 1..][..w] == s[d + 1..d + 1 + w];
    }
  }

  /** `re.findall(r"\d+ \w+", line)`, each match already split into its
      amount: matches are tried left to right and do not overlap. */
  function FindAll(s: string): seq<Amount>
    decreases |s|
  {
    if s == [] then []
    else
      var m := MatchAt(s);
      if m.Some? then [m.value.1] + FindAll(s[m.value.0..])
      else FindAll(s[1..])
  }

  /** `parse_line`: the last amount on the line is the product with the
      count one reaction makes, the earlier ones are the reactants in
      order; a line with no amount raises. */
  function ParseLine(line: string): (r: Result<Reaction, Error>)
    ensures r.Err? <==> FindAll(line) == []
    ensures r.Err? ==> r.error == NoMatches
    ensures r.Ok? ==> FindAll(line) == r.value.1.1 + [(r.value.0, r.value.1.0)]
  {
    var ms := FindAll(line);
    if ms == [] then Err(NoMatches)
    else
      var last := ms[|ms| - 1];
      assert ms == ms[..|ms| - 1] + [last];
      Ok((last.0, (last.1, ms[..|ms| - 1])))
  }

  /** The lines read one after the other; the first line without an amount
      raises. */
  function ParseAll(lines: seq<string>): (r: Result<seq<Reaction>, Error>)
    ensures r.Ok? <==> forall i :: 0 <= i < |lines| ==> ParseLine(lines[i]).Ok?
    ensures r.Ok? ==> |r.value| == |lines| && forall i :: 0 <= i < |lines| ==> r.value[i] == ParseLine(lines[i]).value
    ensures r.Err? ==> r.error == NoMatches
  {
    if lines == [] then Ok([])
    else
      var n := |lines| - 1;
      var front := ParseAll(lines[..n]);
      assert forall i :: 0 <= i < n ==> lines[..n][i] == lines[i];
      match front
      case Err(e) => Err(e)
      case Ok(rs) =>
        match ParseLine(lines[n])
        case Err(e) => Err(e)
        case Ok(reaction) => Ok(rs + [reaction])
  }

  /** `table[resultant] = entry` for each reaction in turn. */
  function Tabulate(reactions: seq<Reaction>): (table: Table)
    ensures Distinct(table)
  {
    if reactions == [] then []
    else
      var n := |reactions| - 1;
      PutDistinct(Tabulate(reactions[..n]), reactions[n].0, reactions[n].1);
      Put(Tabulate(reactions[..n]), reactions[n].0, reactions[n].1)
  }

  /** `read_reaction_file`: the table of all the lines, or the error of the
      first line that has no amount. */
  method ReadReactionFile(lines: seq<string>) returns (r: Result<Table, Error>)
    ensures r.Err? <==> ParseAll(lines).Err?
    ensures r.Err? ==> r.error == NoMatches
    ensures r.Ok? ==> r.value == Tabulate(ParseAll(lines).value)
  {
    var table: Table := [];
    var i := 0;
    while i < |lines|
      invariant 0 <= i <= |lines|
      invariant ParseAll(lines[..i]).Ok? && table == Tabulate(ParseAll(lines[..i]).value)
    {
      var parsed := ParseLine(lines[i]);
      if parsed.Err? {
        assert ParseAll(lines).Err?;
        return Err(parsed.error);
      }
      assert lines[..i + 1][..i] == lines[..i];
      assert ParseAll(lines[..i + 1]).value == ParseAll(lines[..i]).value + [parsed.value];
      assert ParseAll(lines[..i + 1]).value[..i] == ParseAll(lines[..i]).value;
      table := Put(table, parsed.value.0, parsed.value.1);
      i := i + 1;
    }
    assert lines[..i] == lines;
    return Ok(table);
  }

  // ---------------------------------------------------------------------
  // Writing a line back

  /** "<n> <chem>". */
  function AmountText(a: Amount): string {
    ShowText(a.1) + " " + a.0
  }

  /** The reactants separated by ", ". */
  function Terms(amounts: seq<Amount>): string
    decreases |amounts|
  {
    if amounts == [] then ""
    else if |amounts| == 1 then AmountText(amounts[0])
    else AmountText(amounts[0]) + ", " + Terms(amounts[1..])
  }

  /** The line of a reaction, as in "7 A, 1 E => 1 FUEL". */
  function RenderLine(reaction: Reaction): string {
    Terms(reaction.1.1) + " => " + AmountText((reaction.0, reaction.1.0))
  }

  /** A chemical name is a non-empty run of word characters. */
  predicate IsName(c: Chemical) {
    c != [] && AllWordChars(c)
  }

  predicate WellNamed(reaction: Reaction) {
    IsName(reaction.0) && forall i :: 0 <= i < |reaction.1.1| ==> IsName(reaction.1.1[i].0)
  }

  // ---------------------------------------------------------------------
  // Properties

  /** The greedy `\w+` run stops exactly where the word characters stop. */
  lemma {:induction false} WordRunOf(t: string, rest: string)
    requires AllWordChars(t)
    requires rest == [] || !IsWordChar(rest[0])
    ensures WordRun(t + rest) == |t|
  {
    if t != [] {
      assert (t + rest)[1..] == t[1..] + rest;
      WordRunOf(t[1..], rest);
    }
  }

  /** Where the parts of an amount written out lie. */
  lemma AmountParts(a: Amount, rest: string)
    ensures var s, d := AmountText(a) + rest, |ShowText(a.1)|;
      && d + 1 + |a.0| == |AmountText(a)|
      && s[..d] == ShowText(a.1) && s[d] == ' '
      && s[d + 1..] == a.0 + rest && s[d + 1..d + 1 + |a.0|] == a.0
  {
    var s, digits := AmountText(a) + rest, ShowText(a.1);
    assert s == digits + [' '] + a.0 + rest;
  }

  /** An amount written out, followed by a character that is not a word
      character, is one whole match. */
  lemma MatchAmount(a: Amount, rest: string)
    requires IsName(a.0)
    requires rest == [] || !IsWordChar(rest[0])
    ensures var m := MatchAt(AmountText(a) + rest);
      m.Some? && m.value.0 == |AmountText(a)| && m.value.1 == a
  {
    var digits := ShowText(a.1);
    var s := AmountText(a) + rest;
    var d := |digits|;
    assert d + 1 + |a.0| == |AmountText(a)| && s[d] == ' ' && s[d + 1..d + 1 + |a.0|] == a.0 by {
      AmountParts(a, rest);
    }
    assert DigitRun(s) == d by {
      AmountParts(a, rest);
      assert s == s[..d] + s[d..];
      DigitRunOf(digits, s[d..]);
    }
    assert WordRun(s[d + 1..]) == |a.0| by {
      AmountParts(a, rest);
      WordRunOf(a.0, rest);
    }
    assert ReadNat(s[..d]) == a.1 by {
      AmountParts(a, rest);
      ReadShow(a.1);
    }
    DigitRunDigits(s);
    MatchWith(s);
    NameAfterIs(s, d, a.0);
  }

  /** A run of digits, a space and a run of word characters is a match of
      all three. */
  lemma MatchWith(s: string)
    requires var d := DigitRun(s);
      && 0 < d < |s| && s[d] == ' ' && AllDigits(s[..d]) && 0 < WordRun(s[d + 1..])
    ensures var d := DigitRun(s); var w := WordRun(s[d + 1..]); var m := MatchAt(s);
      && m.Some? && m.value.0 == d + 1 + w
      && m.value.1.0 == NameAfter(s, d) && m.value.1.1 == ReadNat(s[..d])
  {
  }

  lemma NameAfterIs(s: string, d: nat, name: string)
    requires d < |s| && WordRun(s[d + 1..]) == |name|
    requires d + 1 + |name| <= |s| && s[d + 1..d + 1 + |name|] == name
    ensures NameAfter(s, d) == name
  {
  }

  /** An amount written out is matched whole, and matching goes on after it. */
  lemma FindAllAmount(a: Amount, rest: string)
    requires IsName(a.0)
    requires rest == [] || !IsWordChar(rest[0])
    ensures FindAll(AmountText(a) + rest) == [a] + FindAll(rest)
  {
    var s := AmountText(a) + rest;
    MatchAmount(a, rest);
    assert s != [];
    assert s[|AmountText(a)|..] == rest;
  }

  /** Text without digits holds no match. */
  lemma {:induction false} FindAllSkips(sep: string, rest: string)
    requires forall i :: 0 <= i < |sep| ==> !IsDigitChar(sep[i])
    ensures FindAll(sep + rest) == FindAll(rest)
  {
    if sep != [] {
      var s := sep + rest;
      assert s[1..] == sep[1..] + rest;
      assert s[0] == sep[0];
      MatchShape(s);
      FindAllSkips(sep[1..], rest);
    } else {
      assert sep + rest == rest;
    }
  }

  /** A reactant and its ", " separator. */
  lemma FindAllLeading(first: Amount, after: string)
    requires IsName(first.0)
    ensures FindAll(AmountText(first) + ", " + after) == [first] + FindAll(after)
  {
    Regroup(AmountText(first), ", ", after);
    FindAllBeforeComma(first, after);
    FindAllComma(after);
  }

  lemma FindAllBeforeComma(first: Amount, after: string)
    requires IsName(first.0)
    ensures FindAll(AmountText(first) + (", " + after)) == [first] + FindAll(", " + after)
  {
    FindAllAmount(first, ", " + after);
  }

  lemma FindAllComma(after: string)
    ensures FindAll(", " + after) == FindAll(after)
  {
    FindAllSkips(", ", after);
  }

  lemma Regroup(x: string, y: string, z: string)
    ensures x + y + z == x + (y + z)
  {
  }

  /** `findall` over the amounts of the reactants, then the rest of the
      line, gives the amounts in order. */
  lemma {:induction false} FindAllTerms(amounts: seq<Amount>, rest: string)
    requires forall i :: 0 <= i < |amounts| ==> IsName(amounts[i].0)
    requires rest == [] || !IsWordChar(rest[0])
    ensures FindAll(Terms(amounts) + rest) == amounts + FindAll(rest)
  {
    if amounts == [] {
      assert Terms(amounts) + rest == rest;
    } else if |amounts| == 1 {
      FindAllLast(amounts, rest);
    } else {
      FindAllTerms(amounts[1..], rest);
      FindAllTermsStep(amounts, rest);
    }
  }

  lemma FindAllLast(amounts: seq<Amount>, rest: string)
    requires |amounts| == 1 && IsName(amounts[0].0)
    requires rest == [] || !IsWordChar(rest[0])
    ensures FindAll(Terms(amounts) + rest) == amounts + FindAll(rest)
  {
    FindAllAmount(amounts[0], rest);
    assert [amounts[0]] == amounts;
  }

  lemma FindAllTermsStep(amounts: seq<Amount>, rest: string)
    requires |amounts| >= 2 && IsName(amounts[0].0)
    requires FindAll(Terms(amounts[1..]) + rest) == amounts[1..] + FindAll(rest)
    ensures FindAll(Terms(amounts) + rest) == amounts + FindAll(rest)
  {
    var first, others := amounts[0], amounts[1..];
    var after := Terms(others) + rest;
    TermsSplit(amounts, rest);
    FindAllLeading(first, after);
    ConsFound(FindAll(Terms(amounts) + rest), first, FindAll(after), others, FindAll(rest));
    assert [first] + others == amounts;
  }

  /** `Terms` of two or more amounts: the first, ", ", then the others. */
  lemma TermsSplit(amounts: seq<Amount>, rest: string)
    requires |amounts| >= 2
    ensures Terms(amounts) + rest == AmountText(amounts[0]) + ", " + (Terms(amounts[1..]) + rest)
  {
  }

  lemma ConsFound(found: seq<Amount>, first: Amount, after: seq<Amount>, others: seq<Amount>, last: seq<Amount>)
    requires found == [first] + after && after == others + last
    ensures found == ([first] + others) + last
  {
  }

  /** Reading a written line gives the reaction back. */
  lemma ParseRendered(reaction: Reaction)
    requires WellNamed(reaction)
    ensures ParseLine(RenderLine(reaction)) == Ok(reaction)
  {
    var product := (reaction.0, reaction.1.0);
    var reactants := reaction.1.1;
    FindAllAmount(product, "");
    assert AmountText(product) + "" == AmountText(product);
    FindAllSkips(" => ", AmountText(product));
    assert RenderLine(reaction) == Terms(reactants) + (" => " + AmountText(product));
    FindAllTerms(reactants, " => " + AmountText(product));
    var ms := FindAll(RenderLine(reaction));
    assert ms == reactants + [product];
    assert ms[..|ms| - 1] == reactants;
  }

  /** A product no line makes has no entry in the table. */
  lemma {:induction false} TabulateMissing(reactions: seq<Reaction>, c: Chemical)
    requires forall j :: 0 <= j < |reactions| ==> reactions[j].0 != c
    ensures Get(Tabulate(reactions), c) == None
  {
    if reactions != [] {
      var n := |reactions| - 1;
      var front := reactions[..n];
      assert forall j :: 0 <= j < n ==> front[j] == reactions[j];
      TabulateMissing(front, c);
      GetPut(Tabulate(front), reactions[n].0, reactions[n].1, c);
    }
  }

  /** The entry of a product is that of the last line that makes it: a
      later line overwrites an earlier one. */
  lemma {:induction false} TabulateLastWins(reactions: seq<Reaction>, j: nat)
    requires j < |reactions|
    requires forall k :: j < k < |reactions| ==> reactions[k].0 != reactions[j].0
    ensures Get(Tabulate(reactions), reactions[j].0) == Some(reactions[j].1)
  {
    var n := |reactions| - 1;
    var front := reactions[..n];
    var c := reactions[j].0;
    assert Tabulate(reactions) == Put(Tabulate(front), reactions[n].0, reactions[n].1);
    GetPut(Tabulate(front), reactions[n].0, reactions[n].1, c);
    if j < n {
      assert front[j] == reactions[j];
      forall k | j < k < n
        ensures front[k].0 != c
      {
        assert front[k] == reactions[k];
      }
      TabulateLastWins(front, j);
      assert Get(Tabulate(front), c) == Some(reactions[j].1);
      assert reactions[n].0 != c;
      assert Get(Tabulate(reactions), c) == Some(reactions[j].1);
    } else {
      assert j == n;
      assert Get(Tabulate(reactions), c) == Some(reactions[j].1);
    }
  }

  /** "3 ORE => 2 A" reads as two A made from three ORE. */
  lemma ParseExample()
    ensures ParseLine("3 ORE => 2 A") == Ok(("A", (2, [("ORE", 3)])))
  {
    ShowOneDigit(3);
    ShowOneDigit(2);
    ParseRendered(("A", (2, [("ORE", 3)])));
    assert Terms([("ORE", 3)]) == "3 ORE";
    assert RenderLine(("A", (2, [("ORE", 3)]))) == "3 ORE => 2 A";
  }
}

/** `ore_needed_for_fuel` of 14/stoichiometry.py: starting from one FUEL,
    each round replaces every needed chemical other than ORE by the
    reactants of just enough runs of its reaction, keeping what a run makes
    beyond the need as a reserve for later rounds, until only ORE is needed. */
module Stoichiometry {
  import opened Wrappers
  import opened Dicts
  import opened ReactionFile
  import Arithmetic

  const Ore: Chemical := "ORE"
  const Fuel: Chemical := "FUEL"

  /** The `need`, `new_need` and `reserves` dictionaries. */
  type Counts = Dict<Chemical, int>

  /** How `ore_needed_for_fuel` stops without an answer: an exception, or
      more rounds than the model was given. */
  datatype Stop = Raised(error: Error) | Exhausted

  /** `ceil(a / b)` for a positive b, on exact integers. */
  function CeilDiv(a: int, b: int): int
    requires b > 0
  {
    -((-a) / b)
  }

  /** The total quantity of c a reactant list names. */
  function Quantity(reactants: seq<Amount>, c: Chemical): nat {
    if reactants == [] then 0
    else (if reactants[0].0 == c then reactants[0].1 else 0) + Quantity(reactants[1..], c)
  }

  /** The reactant loop: `new_need[reactant] += n_reactions_needed *
      n_reactant`, in order. */
  function AddAll(need: Counts, reactants: seq<Amount>, runs: int): Counts
    decreases |reactants|
  {
    if reactants == [] then need
    else
      var c := reactants[0].0;
      AddAll(Put(need, c, GetOr(need, c, 0) + runs * reactants[0].1), reactants[1..], runs)
  }

  /** One turn of the loop over `need.items()`: the chemical `chem` is
      needed n times, `acc` holds `new_need` and `reserves` so far. */
  function React(table: Table, chem: Chemical, n: int, acc: (Counts, Counts)): Result<(Counts, Counts), Error> {
    var newNeed := acc.0;
    var reserves := acc.1;
    if chem == Ore then Ok((Put(newNeed, Ore, GetOr(newNeed, Ore, 0) + n), reserves))
    else match Get(table, chem)
      case None => Err(UnknownChemical(chem))
      case Some(entry) =>
        var batch := entry.0;
        if batch == 0 then Err(ZeroBatch(chem))
        else
          var reserve := GetOr(reserves, chem, 0);
          var runs := CeilDiv(n - reserve, batch);
          var extra := runs * batch - n;
          Ok((AddAll(newNeed, entry.1, runs), Put(reserves, chem, reserve + extra)))
  }

  /** The round from the k-th needed chemical on. */
  function RoundFrom(table: Table, need: Counts, k: nat, acc: (Counts, Counts)): Result<(Counts, Counts), Error>
    requires k <= |need|
    decreases |need| - k
  {
    if k == |need| then Ok(acc)
    else match React(table, need[k].0, need[k].1, acc)
      case Err(e) => Err(e)
      case Ok(next) => RoundFrom(table, need, k + 1, next)
  }

  /** One pass of the `while` body: the next `need` and `reserves`. */
  function RoundSpec(table: Table, need: Counts, reserves: Counts): Result<(Counts, Counts), Error> {
    RoundFrom(table, need, 0, ([], reserves))
  }

  /** The `while` loop, given at most `fuel` more rounds: it ends when the
      needed chemicals are exactly {ORE} and answers the ORE needed. */
  function OreFrom(table: Table, need: Counts, reserves: Counts, fuel: nat): Result<int, Stop>
    decreases fuel
  {
    if Keys(need) == {Ore} then Ok(GetOr(need, Ore, 0))
    else if fuel == 0 then Err(Exhausted)
    else match RoundSpec(table, need, reserves)
      case Err(e) => Err(Raised(e))
      case Ok(next) => OreFrom(table, next.0, next.1, fuel - 1)
  }

  /** `ore_needed_for_fuel(table)`, run for at most `fuel` rounds. */
  method OreNeededForFuel(table: Table, fuel: nat) returns (r: Result<int, Stop>)
    ensures r == OreFrom(table, [(Fuel, 1)], [], fuel)
  {
    var need: Counts := [(Fuel, 1)];
    var reserves: Counts := [];
    var left := fuel;
    while Keys(need) != {Ore}
      invariant OreFrom(table, need, reserves, left) == OreFrom(table, [(Fuel, 1)], [], fuel)
      decreases left
    {
      if left == 0 {
        return Err(Exhausted);
      }
      var next := Round(table, need, reserves);
      if next.Err? {
        return Err(Raised(next.error));
      }
      need, reserves := next.value.0, next.value.1;
      left := left - 1;
    }
    return Ok(GetOr(need, Ore, 0));
  }

  /** The body of the `while` loop: one pass over the needed chemicals. */
  method Round(table: Table, need: Counts, reserves: Counts) returns (r: Result<(Counts, Counts), Error>)
    ensures r == RoundSpec(table, need, reserves)
  {
    var newNeed: Counts := [];
    var stock := reserves;
    var k := 0;
    while k < |need|
      invariant 0 <= k <= |need|
      invariant RoundFrom(table, need, k, (newNeed, stock)) == RoundSpec(table, need, reserves)
    {
      var chem, n := need[k].0, need[k].1;
      if chem == Ore {
        newNeed := Put(newNeed, Ore, GetOr(newNeed, Ore, 0) + n);
      } else {
        var entry := Get(table, chem);
        if entry.None? {
          return Err(UnknownChemical(chem));
        }
        var batch, reactants := entry.value.0, entry.value.1;
        if batch == 0 {
          return Err(ZeroBatch(chem));
        }
        var reserve := GetOr(stock, chem, 0);
        var runs := CeilDiv(n - reserve, batch);
        var extra := runs * batch - n;
        stock := Put(stock, chem, reserve + extra);
        newNeed := AddReactants(newNeed, reactants, runs);
      }
      k := k + 1;
    }
    return Ok((newNeed, stock));
  }

  /** The loop over `reactants` at lines 41-42. */
  method AddReactants(need: Counts, reactants: seq<Amount>, runs: int) returns (r: Counts)
    ensures r == AddAll(need, reactants, runs)
  {
    r := need;
    var i := 0;
    while i < |reactants|
      invariant 0 <= i <= |reactants|
      invariant AddAll(r, reactants[i..], runs) == AddAll(need, reactants, runs)
    {
      var c, q := reactants[i].0, reactants[i].1;
      assert reactants[i..][1..] == reactants[i + 1..];
      r := Put(r, c, GetOr(r, c, 0) + runs * q);
      i := i + 1;
    }
  }

  // ---------------------------------------------------------------------
  // Invariants of the loop

  /** Every count in the dictionary is at least 0. */
  predicate NonNegative(counts: Counts) {
    forall i :: 0 <= i < |counts| ==> counts[i].1 >= 0
  }

  /** A reserve is kept only for a chemical some reaction makes, and is
      less than what one run of that reaction makes. */
  predicate InReserve(table: Table, kept: (Chemical, int)) {
    match Get(table, kept.0)
    case Some(entry) => 0 <= kept.1 < entry.0
    case None => false
  }

  predicate ValidReserves(table: Table, reserves: Counts) {
    forall i :: 0 <= i < |reserves| ==> InReserve(table, reserves[i])
  }

  // ---------------------------------------------------------------------
  // Properties

  /** `ceil(a / b)` is the least q with a <= q * b. */
  lemma CeilDivBounds(a: int, b: int)
    requires b > 0
    ensures (CeilDiv(a, b) - 1) * b < a <= CeilDiv(a, b) * b
  {
    var f := (-a) / b;
    assert -a == f * b + (-a) % b;
    assert (-f - 1) * b == -f * b - b;
  }

  /** Lines 38-40: with a reserve below one batch and a need of at least 0,
      the number of runs is at least 0 and the new reserve, what those runs
      make beyond the need, is again below one batch. */
  lemma ReserveStaysInRange(n: int, reserve: int, batch: int)
    requires batch > 0 && 0 <= reserve < batch && n >= 0
    ensures CeilDiv(n - reserve, batch) >= 0
    ensures 0 <= reserve + CeilDiv(n - reserve, batch) * batch - n < batch
  {
    CeilDivBounds(n - reserve, batch);
  }

  /** Lines 41-42: every chemical's need grows by the runs times the
      quantity the reactants name. */
  lemma AddAllGrows(need: Counts, reactants: seq<Amount>, runs: int)
    ensures forall c :: GetOr(AddAll(need, reactants, runs), c, 0) == GetOr(need, c, 0) + runs * Quantity(reactants, c)
  {
    forall c ensures GetOr(AddAll(need, reactants, runs), c, 0) == GetOr(need, c, 0) + runs * Quantity(reactants, c) {
      AddAllGrowsAt(need, reactants, runs, c);
    }
  }

  lemma {:induction false} AddAllGrowsAt(need: Counts, reactants: seq<Amount>, runs: int, c: Chemical)
    ensures GetOr(AddAll(need, reactants, runs), c, 0) == GetOr(need, c, 0) + runs * Quantity(reactants, c)
    decreases |reactants|
  {
    if reactants != [] {
      var c0, q := reactants[0].0, reactants[0].1;
      var next := Put(need, c0, GetOr(need, c0, 0) + runs * q);
      AddAllGrowsAt(next, reactants[1..], runs, c);
      var mine := if c0 == c then q else 0;
      GetPut(need, c0, GetOr(need, c0, 0) + runs * q, c);
      if c0 == c {
        assert GetOr(next, c, 0) == GetOr(need, c, 0) + runs * mine;
      } else {
        assert GetOr(next, c, 0) == GetOr(need, c, 0) + runs * mine;
      }
      var all, others := Quantity(reactants, c), Quantity(reactants[1..], c);
      assert all == mine + others;
      Arithmetic.Distribute(runs, mine, others);
    }
  }

  /** With at least 0 runs, no need drops below 0. */
  lemma {:induction false} AddAllNonNegative(need: Counts, reactants: seq<Amount>, runs: int)
    requires NonNegative(need) && runs >= 0
    ensures NonNegative(AddAll(need, reactants, runs))
    decreases |reactants|
  {
    if reactants != [] {
      var c0, q := reactants[0].0, reactants[0].1;
      GetOrNonNegative(need, c0);
      var next := Put(need, c0, GetOr(need, c0, 0) + runs * q);
      PutPairs(need, c0, GetOr(need, c0, 0) + runs * q);
      assert NonNegative(next);
      AddAllNonNegative(next, reactants[1..], runs);
    }
  }

  lemma GetOrNonNegative(counts: Counts, c: Chemical)
    requires NonNegative(counts)
    ensures GetOr(counts, c, 0) >= 0
  {
    GetFound(counts, c);
    if Get(counts, c).Some? {
      var i :| 0 <= i < |counts| && counts[i] == (c, Get(counts, c).value);
    }
  }

  /** Lines 34-36: ORE is carried over, added to the ORE already needed
      this round; nothing else changes. */
  lemma ReactOre(table: Table, n: int, acc: (Counts, Counts))
    ensures React(table, Ore, n, acc).Ok?
    ensures React(table, Ore, n, acc).value.1 == acc.1
    ensures forall c :: GetOr(React(table, Ore, n, acc).value.0, c, 0) == GetOr(acc.0, c, 0) + (if c == Ore then n else 0)
  {
    GetOrPut(acc.0, Ore, GetOr(acc.0, Ore, 0) + n, 0);
  }

  /** Lines 37-42 for a chemical other than ORE: a chemical no reaction
      makes, or a reaction that makes 0, raises; otherwise the runs are the
      fewest that cover the need beyond the reserve, the reserve keeps what
      they make beyond the need, and every reactant's need grows by the
      runs times its quantity. */
  lemma ReactEffect(table: Table, chem: Chemical, n: int, acc: (Counts, Counts))
    requires chem != Ore
    ensures Get(table, chem).None? <==> React(table, chem, n, acc) == Err(UnknownChemical(chem))
    ensures (Get(table, chem).Some? && Get(table, chem).value.0 == 0) <==> React(table, chem, n, acc) == Err(ZeroBatch(chem))
    ensures React(table, chem, n, acc).Ok? ==>
      var entry := Get(table, chem).value;
      var reserve := GetOr(acc.1, chem, 0);
      var runs := CeilDiv(n - reserve, entry.0);
      var next := React(table, chem, n, acc).value;
      && reserve + (runs - 1) * entry.0 < n <= reserve + runs * entry.0
      && GetOr(next.1, chem, 0) == reserve + runs * entry.0 - n
      && (forall c :: c != chem ==> GetOr(next.1, c, 0) == GetOr(acc.1, c, 0))
      && (forall c :: GetOr(next.0, c, 0) == GetOr(acc.0, c, 0) + runs * Quantity(entry.1, c))
  {
    if React(table, chem, n, acc).Ok? {
      ReactRuns(table, chem, n, acc);
    }
  }

  /** The successful turn of a chemical some reaction makes. */
  lemma ReactRuns(table: Table, chem: Chemical, n: int, acc: (Counts, Counts))
    requires chem != Ore && Get(table, chem).Some? && Get(table, chem).value.0 != 0
    ensures React(table, chem, n, acc).Ok?
    ensures
      var entry := Get(table, chem).value;
      var reserve := GetOr(acc.1, chem, 0);
      var runs := CeilDiv(n - reserve, entry.0);
      var next := React(table, chem, n, acc).value;
      && reserve + (runs - 1) * entry.0 < n <= reserve + runs * entry.0
      && GetOr(next.1, chem, 0) == reserve + runs * entry.0 - n
      && (forall c :: c != chem ==> GetOr(next.1, c, 0) == GetOr(acc.1, c, 0))
      && (forall c :: GetOr(next.0, c, 0) == GetOr(acc.0, c, 0) + runs * Quantity(entry.1, c))
  {
    var entry := Get(table, chem).value;
    var reserve := GetOr(acc.1, chem, 0);
    var runs := CeilDiv(n - reserve, entry.0);
    var extra := runs * entry.0 - n;
    var next := (AddAll(acc.0, entry.1, runs), Put(acc.1, chem, reserve + extra));
    assert React(table, chem, n, acc) == Ok(next);
    CeilDivBounds(n - reserve, entry.0);
    GetOrPut(acc.1, chem, reserve + extra, 0);
    AddAllGrows(acc.0, entry.1, runs);
  }

  /** One turn keeps the needs at least 0 and the reserves in range. */
  lemma ReactKeepsValid(table: Table, chem: Chemical, n: int, acc: (Counts, Counts))
    requires n >= 0 && NonNegative(acc.0) && ValidReserves(table, acc.1)
    requires React(table, chem, n, acc).Ok?
    ensures NonNegative(React(table, chem, n, acc).value.0)
    ensures ValidReserves(table, React(table, chem, n, acc).value.1)
  {
    GetOrNonNegative(acc.0, Ore);
    if chem == Ore {
      PutPairs(acc.0, Ore, GetOr(acc.0, Ore, 0) + n);
    } else {
      var entry := Get(table, chem).value;
      var batch := entry.0;
      var reserve := GetOr(acc.1, chem, 0);
      assert 0 <= reserve < batch by {
        GetFound(acc.1, chem);
        if Get(acc.1, chem).Some? {
          var i :| 0 <= i < |acc.1| && acc.1[i] == (chem, Get(acc.1, chem).value);
          assert InReserve(table, acc.1[i]);
        }
      }
      ReserveStaysInRange(n, reserve, batch);
      var runs := CeilDiv(n - reserve, batch);
      AddAllNonNegative(acc.0, entry.1, runs);
      assert InReserve(table, (chem, reserve + runs * batch - n));
      PutPairs(acc.1, chem, reserve + runs * batch - n);
    }
  }

  /** The rest of a round keeps the needs at least 0 and the reserves in
      range. */
  lemma {:induction false} RoundKeepsValid(table: Table, need: Counts, k: nat, acc: (Counts, Counts))
    requires k <= |need| && NonNegative(need) && NonNegative(acc.0) && ValidReserves(table, acc.1)
    requires RoundFrom(table, need, k, acc).Ok?
    ensures NonNegative(RoundFrom(table, need, k, acc).value.0)
    ensures ValidReserves(table, RoundFrom(table, need, k, acc).value.1)
    decreases |need| - k
  {
    if k < |need| {
      ReactKeepsValid(table, need[k].0, need[k].1, acc);
      RoundKeepsValid(table, need, k + 1, React(table, need[k].0, need[k].1, acc).value);
    }
  }

  /** From needs of at least 0 and reserves in range, the ORE needed is
      at least 0. */
  lemma {:induction false} OreNonNegative(table: Table, need: Counts, reserves: Counts, fuel: nat)
    requires NonNegative(need) && ValidReserves(table, reserves)
    requires OreFrom(table, need, reserves, fuel).Ok?
    ensures OreFrom(table, need, reserves, fuel).value >= 0
    decreases fuel
  {
    if Keys(need) == {Ore} {
      GetOrNonNegative(need, Ore);
    } else {
      var next := RoundSpec(table, need, reserves).value;
      RoundKeepsValid(table, need, 0, ([], reserves));
      OreNonNegative(table, next.0, next.1, fuel - 1);
    }
  }

  /** The ORE `ore_needed_for_fuel` answers is at least 0. */
  lemma AnswerNonNegative(table: Table, fuel: nat)
    requires OreFrom(table, [(Fuel, 1)], [], fuel).Ok?
    ensures OreFrom(table, [(Fuel, 1)], [], fuel).value >= 0
  {
    OreNonNegative(table, [(Fuel, 1)], [], fuel);
  }

  /** An answer found within some number of rounds is found, unchanged,
      with any more. */
  lemma {:induction false} MoreFuel(table: Table, need: Counts, reserves: Counts, fuel: nat, more: nat)
    requires OreFrom(table, need, reserves, fuel).Ok?
    ensures OreFrom(table, need, reserves, fuel + more) == OreFrom(table, need, reserves, fuel)
    decreases fuel
  {
    if Keys(need) != {Ore} {
      var next := RoundSpec(table, need, reserves).value;
      MoreFuel(table, next.0, next.1, fuel - 1, more);
    }
  }

  // ---------------------------------------------------------------------
  // An example

  /** "3 ORE => 2 A" and "3 A => 1 FUEL". */
  const Example: Table := [("A", (2, [("ORE", 3)])), ("FUEL", (1, [("A", 3)]))]

  /** The lookups and sums the example's rounds make. */
  lemma ExampleSteps()
    ensures Get(Example, Fuel) == Some((1, [("A", 3)]))
    ensures Get(Example, "A") == Some((2, [(Ore, 3)]))
    ensures GetOr([(Fuel, 0)], "A", 0) == 0
    ensures AddAll([], [("A", 3)], 1) == [("A", 3)]
    ensures AddAll([], [(Ore, 3)], 2) == [(Ore, 6)]
    ensures Put([(Fuel, 0)], "A", 1) == [(Fuel, 0), ("A", 1)]
    ensures GetOr([], Fuel, 0) == 0 && Put([], Fuel, 0) == [(Fuel, 0)]
  {
    assert Example[0].0 != Fuel;
    assert Example[1..] == [(Fuel, (1, [("A", 3)]))];
    var d: Counts := [(Fuel, 0)];
    assert d[0].0 != "A" && d[1..] == [];
    assert Get(d[1..], "A") == None;
    var a: seq<Amount> := [("A", 3)];
    var o: seq<Amount> := [(Ore, 3)];
    assert a[1..] == [] && o[1..] == [];
  }

  /** The FUEL reaction runs once. */
  lemma ExampleReact1()
    ensures React(Example, Fuel, 1, ([], [])) == Ok(([("A", 3)], [(Fuel, 0)]))
  {
    ExampleSteps();
    assert Fuel != Ore;
    var entry := Get(Example, Fuel).value;
    assert entry.0 == 1 && entry.1 == [("A", 3)];
    var runs := CeilDiv(1 - 0, 1);
    assert runs == 1;
    assert AddAll([], entry.1, runs) == [("A", 3)];
    assert Put([], Fuel, 0 + runs * entry.0 - 1) == [(Fuel, 0)];
  }

  /** The first round makes one FUEL from three A. */
  lemma ExampleRound1()
    ensures RoundSpec(Example, [(Fuel, 1)], []) == Ok(([("A", 3)], [(Fuel, 0)]))
  {
    ExampleReact1();
    var need: Counts := [(Fuel, 1)];
    assert need[0].0 == Fuel && need[0].1 == 1;
    assert RoundFrom(Example, need, 1, ([("A", 3)], [(Fuel, 0)])) == Ok(([("A", 3)], [(Fuel, 0)]));
  }

  /** The second round runs the A reaction twice, needing six ORE and
      keeping one A. */
  lemma ExampleRound2()
    ensures RoundSpec(Example, [("A", 3)], [(Fuel, 0)]) == Ok(([(Ore, 6)], [(Fuel, 0), ("A", 1)]))
  {
    ExampleSteps();
    assert CeilDiv(3, 2) == 2;
    assert React(Example, "A", 3, ([], [(Fuel, 0)])) == Ok(([(Ore, 6)], [(Fuel, 0), ("A", 1)]));
  }

  /** Six ORE make one FUEL. */
  lemma ExampleOre()
    ensures OreFrom(Example, [(Fuel, 1)], [], 2) == Ok(6)
  {
    ExampleOreFirst();
    ExampleOreSecond();
    ExampleOreLast();
  }

  lemma ExampleOreFirst()
    ensures OreFrom(Example, [(Fuel, 1)], [], 2) == OreFrom(Example, [("A", 3)], [(Fuel, 0)], 1)
  {
    KeysCons((Fuel, 1), []);
    assert Fuel != Ore;
    ExampleRound1();
  }

  lemma ExampleOreSecond()
    ensures OreFrom(Example, [("A", 3)], [(Fuel, 0)], 1) == OreFrom(Example, [(Ore, 6)], [(Fuel, 0), ("A", 1)], 0)
  {
    KeysCons(("A", 3), []);
    assert "A" != Ore;
    ExampleRound2();
  }

  lemma ExampleOreLast()
    ensures OreFrom(Example, [(Ore, 6)], [(Fuel, 0), ("A", 1)], 0) == Ok(6)
  {
    KeysCons((Ore, 6), []);
  }
}

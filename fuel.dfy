/** Fuel for modules of a given mass (1/fuel_requirements.py and 1/1a.py):
    a third of the mass rounded down, less 2, and for the recursive
    requirement the fuel for that fuel, until it is no longer positive. */
module Fuel {

  /** `fuel_given_mass`: `floor(mass / 3) - 2`. */
  function FuelGivenMass(mass: int): (fuel: int)
    ensures 3 * (fuel + 2) <= mass < 3 * (fuel + 2) + 3
  {
    mass / 3 - 2
  }

  /** `total_fuel_given_mass(mass, current_total)`: add the fuel for the
      fuel to the running total until the next fuel is not positive. */
  function TotalFuelGivenMass(mass: int, currentTotal: int): int
    decreases if mass < 0 then 0 else mass
  {
    var newMass := FuelGivenMass(mass);
    if newMass <= 0 then currentTotal
    else TotalFuelGivenMass(newMass, currentTotal + newMass)
  }

  /** The default total of 0. */
  function TotalFuel(mass: int): int {
    TotalFuelGivenMass(mass, 0)
  }

  /** `sum(fuel_given_mass(int(line)) for line in f)`. */
  function Requirement(masses: seq<int>): int {
    if masses == [] then 0 else Requirement(masses[..|masses| - 1]) + FuelGivenMass(masses[|masses| - 1])
  }

  /** `sum(total_fuel_given_mass(int(line)) for line in f)`. */
  function RecursiveRequirement(masses: seq<int>): int {
    if masses == [] then 0 else RecursiveRequirement(masses[..|masses| - 1]) + TotalFuel(masses[|masses| - 1])
  }

  /** The fuel is always less than the mass, which is why the recursion ends. */
  lemma FuelLessThanMass(mass: int)
    requires FuelGivenMass(mass) > 0
    ensures FuelGivenMass(mass) < mass
  {
  }

  /** The running total is only ever added to: the result is the starting
      total plus the total from nothing. */
  lemma {:induction false} TotalAccumulates(mass: int, currentTotal: int)
    ensures TotalFuelGivenMass(mass, currentTotal) == currentTotal + TotalFuel(mass)
    decreases if mass < 0 then 0 else mass
  {
    var newMass := FuelGivenMass(mass);
    if newMass > 0 {
      TotalAccumulates(newMass, currentTotal + newMass);
      TotalAccumulates(newMass, newMass);
    }
  }

  /** The recursive requirement is the fuel for the mass plus the
      recursive requirement of that fuel, and never negative. */
  lemma TotalFuelUnfolds(mass: int)
    ensures FuelGivenMass(mass) <= 0 ==> TotalFuel(mass) == 0
    ensures FuelGivenMass(mass) > 0 ==> TotalFuel(mass) == FuelGivenMass(mass) + TotalFuel(FuelGivenMass(mass))
  {
    var newMass := FuelGivenMass(mass);
    if newMass > 0 {
      TotalAccumulates(newMass, newMass);
    }
  }

  /** With a total of 0 the result is never negative, and it is less than
      half the mass: each fuel is under a third of what it carries. */
  lemma {:induction false} TotalFuelBounds(mass: int)
    ensures 0 <= TotalFuel(mass)
    ensures mass > 0 ==> 2 * TotalFuel(mass) < mass
    decreases if mass < 0 then 0 else mass
  {
    TotalFuelUnfolds(mass);
    var newMass := FuelGivenMass(mass);
    if newMass > 0 {
      TotalFuelBounds(newMass);
    }
  }

  /** The recursive requirement is at least the naive one, module by module. */
  lemma {:induction false} RecursiveCoversNaive(masses: seq<int>)
    ensures Requirement(masses) <= RecursiveRequirement(masses)
  {
    if masses != [] {
      var last := masses[|masses| - 1];
      RecursiveCoversNaive(masses[..|masses| - 1]);
      TotalFuelUnfolds(last);
      TotalFuelBounds(FuelGivenMass(last));
    }
  }

  /** Sums over the lines of two files add up. */
  lemma {:induction false} RequirementAppend(a: seq<int>, b: seq<int>)
    ensures Requirement(a + b) == Requirement(a) + Requirement(b)
    ensures RecursiveRequirement(a + b) == RecursiveRequirement(a) + RecursiveRequirement(b)
    decreases |b|
  {
    if b != [] {
      var b' := b[..|b| - 1];
      assert (a + b)[..|a + b| - 1] == a + b';
      assert (a + b)[|a + b| - 1] == b[|b| - 1];
      RequirementAppend(a, b');
    } else {
      assert a + b == a;
    }
  }

  // ---------------------------------------------------------------------
  // The examples both files check

  lemma FuelExamples()
    ensures FuelGivenMass(12) == 2
    ensures FuelGivenMass(14) == 2
    ensures FuelGivenMass(1969) == 654
    ensures FuelGivenMass(100756) == 33583
  {
  }

  lemma TotalFuelExamples()
    ensures TotalFuel(14) == 2
    ensures TotalFuel(1969) == 966
    ensures TotalFuel(100756) == 50346
  {
    assert TotalFuel(1969) == TotalFuelGivenMass(654, 654) == TotalFuelGivenMass(216, 870)
      == TotalFuelGivenMass(70, 940) == TotalFuelGivenMass(21, 961) == TotalFuelGivenMass(5, 966);
    assert TotalFuel(100756) == TotalFuelGivenMass(33583, 33583) == TotalFuelGivenMass(11192, 44775)
      == TotalFuelGivenMass(3728, 48503) == TotalFuelGivenMass(1240, 49743) == TotalFuelGivenMass(411, 50154)
      == TotalFuelGivenMass(135, 50289) == TotalFuelGivenMass(43, 50332) == TotalFuelGivenMass(12, 50344)
      == TotalFuelGivenMass(2, 50346);
  }
}

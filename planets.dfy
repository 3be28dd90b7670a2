/** The integer n-body step: moons with a position and a velocity, pulled
    one unit towards each other per axis, then moved by their velocity. */
module Planets {
  import opened Wrappers
  import opened DecimalText
  import opened Text
  import Arithmetic

  datatype Vec3 = Vec3(x: int, y: int, z: int)

  const Zero := Vec3(0, 0, 0)

  /** `position[axis]` for the three axes 0, 1 and 2. */
  function Coord(v: Vec3, axis: nat): int
    requires axis < 3
  {
    if axis == 0 then v.x else if axis == 1 then v.y else v.z
  }

  /** The axis `position[axis]` reads for an index into the 3-tuple: a
      negative index counts from the end, so -3, -2 and -1 are x, y and z. */
  function AxisIndex(axis: int): (i: nat)
    requires -3 <= axis < 3
    ensures i < 3 && (i - axis) % 3 == 0
  {
    if axis < 0 then axis + 3 else axis
  }

  function Add(a: Vec3, b: Vec3): Vec3 {
    Vec3(a.x + b.x, a.y + b.y, a.z + b.z)
  }

  function Sub(a: Vec3, b: Vec3): Vec3 {
    Vec3(a.x - b.x, a.y - b.y, a.z - b.z)
  }

  /** `sign`: -1, 0 or 1 (an integer here, where the source has a float). */
  function Sign(d: int): int {
    if d == 0 then 0 else if d > 0 then 1 else -1
  }

  function SignVec(d: Vec3): Vec3 {
    Vec3(Sign(d.x), Sign(d.y), Sign(d.z))
  }

  function Abs(n: int): nat {
    if n < 0 then -n else n
  }

  /** `sum(abs(x) for x in v)`. */
  function Norm(v: Vec3): nat {
    Abs(v.x) + Abs(v.y) + Abs(v.z)
  }

  // ---------------------------------------------------------------------
  // The system as a value: one body per planet, in list order

  datatype Body = Body(pos: Vec3, vel: Vec3)

  type System = seq<Body>

  /** `apply_gravity`: the velocity moves one step towards `toward` on each
      axis; the position stays. */
  function Pull(b: Body, toward: Vec3): Body {
    Body(b.pos, Add(b.vel, SignVec(Sub(toward, b.pos))))
  }

  /** `update`: the position moves by the velocity. */
  function Move(b: Body): Body {
    Body(Add(b.pos, b.vel), b.vel)
  }

  /** One pair of `combinations`: `p1.apply_gravity(p2)`, then
      `p2.apply_gravity(p1)`. */
  function PairStep(s: System, i: nat, j: nat): (r: System)
    requires i < |s| && j < |s|
    ensures |r| == |s|
  {
    var s1 := s[i := Pull(s[i], s[j].pos)];
    s1[j := Pull(s1[j], s1[i].pos)]
  }

  /** The pairs (i, j), (i, j + 1), ..., (i, |s| - 1), in that order. */
  function GravityRow(s: System, i: nat, j: nat): (r: System)
    requires i < |s| && j <= |s|
    ensures |r| == |s|
    decreases |s| - j
  {
    if j == |s| then s else GravityRow(PairStep(s, i, j), i, j + 1)
  }

  /** The rows i, i + 1, ...: the rest of `combinations(planets, r=2)`. */
  function GravityFrom(s: System, i: nat): (r: System)
    requires i <= |s|
    ensures |r| == |s|
    decreases |s| - i
  {
    if i == |s| then s else GravityFrom(GravityRow(s, i, i + 1), i + 1)
  }

  /** The gravity phase of one step, every unordered pair in the order
      `combinations` lists them. */
  function Gravity(s: System): (r: System)
    ensures |r| == |s|
  {
    GravityFrom(s, 0)
  }

  /** The move phase of one step. */
  function Movement(s: System): (r: System)
    ensures |r| == |s|
  {
    seq(|s|, k requires 0 <= k < |s| => Move(s[k]))
  }

  /** One step: gravity for every pair before any planet moves. */
  function Step(s: System): (r: System)
    ensures |r| == |s|
  {
    Movement(Gravity(s))
  }

  function Steps(s: System, n: nat): (r: System)
    ensures |r| == |s|
  {
    if n == 0 then s else Step(Steps(s, n - 1))
  }

  /** The per-axis state `find_period_for_axis` remembers:
      `(p.position[axis], p.velocity[axis])` for every planet. */
  function AxisOf(s: System, axis: nat): seq<(int, int)>
    requires axis < 3
  {
    seq(|s|, k requires 0 <= k < |s| => (Coord(s[k].pos, axis), Coord(s[k].vel, axis)))
  }

  function Positions(s: System, axis: nat): seq<int>
    requires axis < 3
  {
    seq(|s|, k requires 0 <= k < |s| => Coord(s[k].pos, axis))
  }

  /** How far apart the velocities of two systems are, planet by planet. */
  function Offsets(u: System, v: System, axis: nat): seq<int>
    requires |u| == |v| && axis < 3
  {
    seq(|u|, k requires 0 <= k < |u| => Coord(u[k].vel, axis) - Coord(v[k].vel, axis))
  }

  /** The total velocity of the system on one axis. */
  function Momentum(s: System, axis: nat): int
    requires axis < 3
  {
    if s == [] then 0 else Coord(s[0].vel, axis) + Momentum(s[1..], axis)
  }

  // ---------------------------------------------------------------------
  // Planets as objects

  class Planet {
    var position: Vec3
    var velocity: Vec3

    /** A new planet is at rest. */
    constructor (position: Vec3)
      ensures this.position == position && velocity == Zero
    {
      this.position := position;
      velocity := Zero;
    }

    method Update()
      modifies this
      ensures position == Add(old(position), old(velocity))
      ensures velocity == old(velocity)
    {
      position := Add(position, velocity);
    }

    /** One unit towards `other` on each axis where it lies elsewhere. */
    method ApplyGravity(other: Planet)
      modifies this
      ensures velocity == Add(old(velocity), SignVec(Sub(old(other.position), old(position))))
      ensures forall axis :: 0 <= axis < 3 ==> Coord(velocity, axis) - Coord(old(velocity), axis) in {-1, 0, 1}
      ensures position == old(position)
    {
      velocity := Add(velocity, SignVec(Sub(other.position, position)));
    }

    /** Potential times kinetic energy. */
    function Energy(): (r: int)
      reads this
      ensures r >= 0
      ensures r == 0 <==> position == Zero || velocity == Zero
    {
      Norm(position) * Norm(velocity)
    }

    /** A planet at rest at the position `<x=a, y=b, z=c>` gives, or null
        where the text does not have three coordinates. */
    static method FromString(s: string) returns (p: Planet?)
      ensures p == null <==> ParsePosition(s).None?
      ensures p != null ==> fresh(p) && p.position == ParsePosition(s).value && p.velocity == Zero
    {
      var parsed := ParsePosition(s);
      if parsed.None? {
        return null;
      }
      p := new Planet(parsed.value);
    }
  }

  /** Planets in the list are different objects. */
  predicate Distinct(planets: seq<Planet>) {
    forall i, j :: 0 <= i < j < |planets| ==> planets[i] != planets[j]
  }

  /** The planets as values. */
  function Snapshot(planets: seq<Planet>): (s: System)
    reads planets
    ensures |s| == |planets|
  {
    seq(|planets|, k requires 0 <= k < |planets| reads planets => Body(planets[k].position, planets[k].velocity))
  }

  /** One pair of the gravity phase, applied to the planets in place. */
  method ApplyPair(planets: seq<Planet>, i: nat, j: nat)
    requires Distinct(planets) && i < j < |planets|
    modifies planets[i], planets[j]
    ensures Snapshot(planets) == PairStep(old(Snapshot(planets)), i, j)
  {
    ghost var before := Snapshot(planets);
    planets[i].ApplyGravity(planets[j]);
    planets[j].ApplyGravity(planets[i]);
    assert forall k :: 0 <= k < |planets| ==> Snapshot(planets)[k] == PairStep(before, i, j)[k];
  }

  /** The gravity phase of a step, applied to the planets in place. */
  method ApplyGravityToAll(planets: seq<Planet>)
    requires Distinct(planets)
    modifies planets
    ensures Snapshot(planets) == Gravity(old(Snapshot(planets)))
  {
    ghost var cur := Snapshot(planets);
    ghost var goal := Gravity(cur);
    var n := |planets|;
    var i := 0;
    while i < n
      invariant 0 <= i <= n && |cur| == n
      invariant Snapshot(planets) == cur
      invariant GravityFrom(cur, i) == goal
    {
      var j := i + 1;
      while j < n
        invariant i + 1 <= j <= n && |cur| == n
        invariant Snapshot(planets) == cur
        invariant GravityFrom(GravityRow(cur, i, j), i + 1) == goal
      {
        ApplyPair(planets, i, j);
        cur := PairStep(cur, i, j);
        j := j + 1;
      }
      i := i + 1;
    }
  }

  /** The move phase of a step, applied to the planets in place. */
  method UpdateAll(planets: seq<Planet>)
    requires Distinct(planets)
    modifies planets
    ensures Snapshot(planets) == Movement(old(Snapshot(planets)))
  {
    ghost var start := Snapshot(planets);
    var n := |planets|;
    var k := 0;
    while k < n
      invariant 0 <= k <= n
      invariant forall m :: 0 <= m < n ==> Snapshot(planets)[m] == if m < k then Move(start[m]) else start[m]
    {
      planets[k].Update();
      k := k + 1;
    }
    assert forall m :: 0 <= m < n ==> Snapshot(planets)[m] == Movement(start)[m];
  }

  /** One step of `simulate` or of `find_period_for_axis`. */
  method StepAll(planets: seq<Planet>)
    requires Distinct(planets)
    modifies planets
    ensures Snapshot(planets) == Step(old(Snapshot(planets)))
  {
    ApplyGravityToAll(planets);
    UpdateAll(planets);
  }

  /** `simulate`: `n_steps` steps, 100 unless given (none when it is
      negative). */
  method Simulate(planets: seq<Planet>, nSteps: int := 100)
    requires Distinct(planets)
    modifies planets
    ensures Snapshot(planets) == Steps(old(Snapshot(planets)), if nSteps < 0 then 0 else nSteps)
  {
    ghost var start := Snapshot(planets);
    var t := 0;
    while t < nSteps
      invariant 0 <= t <= if nSteps < 0 then 0 else nSteps
      invariant Snapshot(planets) == Steps(start, t)
    {
      StepAll(planets);
      t := t + 1;
    }
    assert t == if nSteps < 0 then 0 else nSteps;
  }

  /** No per-axis state among the first n repeats an earlier one. */
  ghost predicate NoRepeat(s: System, axis: nat, n: nat)
    requires axis < 3
  {
    forall m1, m2 :: 0 <= m1 < m2 < n ==> AxisOf(Steps(s, m1), axis) != AxisOf(Steps(s, m2), axis)
  }

  /** The per-axis state after n steps was seen after fewer. */
  ghost predicate Repeats(s: System, axis: nat, n: nat)
    requires axis < 3
  {
    exists m :: 0 <= m < n && AxisOf(Steps(s, m), axis) == AxisOf(Steps(s, n), axis)
  }

  /** `find_period_for_axis`: the first step count whose per-axis state was
      already seen, with the planets advanced by that many steps. The loop
      runs at most `fuel` steps; `None` means it gave up after that many.
      The axis may also be -3..-1, which index the tuple from its end. */
  method FindPeriodForAxis(planets: seq<Planet>, axis: int, fuel: nat) returns (r: Option<nat>)
    requires Distinct(planets) && -3 <= axis < 3
    modifies planets
    ensures r == PeriodFrom(old(Snapshot(planets)), AxisIndex(axis), 0, map[], fuel)
    ensures r.Some? ==>
      && NoRepeat(old(Snapshot(planets)), AxisIndex(axis), r.value)
      && Repeats(old(Snapshot(planets)), AxisIndex(axis), r.value)
    ensures r.Some? ==> Snapshot(planets) == Steps(old(Snapshot(planets)), r.value)
    ensures r.None? ==> NoRepeat(old(Snapshot(planets)), AxisIndex(axis), fuel + 1)
    ensures r.None? ==> Snapshot(planets) == Steps(old(Snapshot(planets)), fuel)
  {
    var index := AxisIndex(axis);
    ghost var start := Snapshot(planets);
    var n := 0;
    var past: map<seq<(int, int)>, nat> := map[];
    while true
      invariant n <= fuel
      invariant Snapshot(planets) == Steps(start, n)
      invariant PeriodFrom(start, index, n, past, fuel - n) == PeriodFrom(start, index, 0, map[], fuel)
      decreases fuel - n
    {
      var state := AxisOf(Snapshot(planets), index);
      if state in past {
        PeriodFromMeans(start, index, 0, map[], fuel);
        return Some(n);
      }
      if n == fuel {
        PeriodFromMeans(start, index, 0, map[], fuel);
        return None;
      }
      past := past[state := n];
      StepAll(planets);
      n := n + 1;
    }
  }

  /** The loop of `find_period_for_axis` from step n on, with `past` the
      states already seen and at most `left` more steps. */
  ghost function PeriodFrom(s: System, axis: nat, n: nat, past: map<seq<(int, int)>, nat>, left: nat): Option<nat>
    requires axis < 3
    decreases left
  {
    var state := AxisOf(Steps(s, n), axis);
    if state in past then Some(n)
    else if left == 0 then None
    else PeriodFrom(s, axis, n + 1, past[state := n], left - 1)
  }

  /** Started with no repeat so far and a faithful record of the states
      seen, the loop answers the first step whose state repeats, and gives
      up only when no state repeated. */
  lemma {:induction false} PeriodFromMeans(s: System, axis: nat, n: nat, past: map<seq<(int, int)>, nat>, left: nat)
    requires axis < 3 && NoRepeat(s, axis, n) && Remembers(past, s, axis, n)
    ensures var r := PeriodFrom(s, axis, n, past, left);
      && (r.Some? ==> NoRepeat(s, axis, r.value) && Repeats(s, axis, r.value))
      && (r.None? ==> NoRepeat(s, axis, n + left + 1))
    decreases left
  {
    var state := AxisOf(Steps(s, n), axis);
    if state in past {
      Recall(past, s, axis, n, state);
    } else {
      Advance(past, s, axis, n);
      if left > 0 {
        PeriodFromMeans(s, axis, n + 1, past[state := n], left - 1);
      }
    }
  }

  /** `past` maps each per-axis state of the first n steps to its step. */
  ghost predicate Remembers(past: map<seq<(int, int)>, nat>, s: System, axis: nat, n: nat)
    requires axis < 3
  {
    && past.Keys == Seen(s, axis, n)
    && forall st :: st in past ==> past[st] < n && AxisOf(Steps(s, past[st]), axis) == st
  }

  /** A state not seen before extends both the run without repeats and
      the record of the states seen. */
  lemma Advance(past: map<seq<(int, int)>, nat>, s: System, axis: nat, n: nat)
    requires axis < 3 && NoRepeat(s, axis, n) && Remembers(past, s, axis, n)
    requires AxisOf(Steps(s, n), axis) !in past
    ensures NoRepeat(s, axis, n + 1) && Remembers(past[AxisOf(Steps(s, n), axis) := n], s, axis, n + 1)
  {
    NoRepeatExtend(s, axis, n);
  }

  lemma Recall(past: map<seq<(int, int)>, nat>, s: System, axis: nat, n: nat, state: seq<(int, int)>)
    requires axis < 3 && Remembers(past, s, axis, n) && state in past
    requires state == AxisOf(Steps(s, n), axis)
    ensures Repeats(s, axis, n)
  {
    assert AxisOf(Steps(s, past[state]), axis) == AxisOf(Steps(s, n), axis);
  }

  /** The per-axis states after 0, 1, ..., n - 1 steps. */
  ghost function Seen(s: System, axis: nat, n: nat): set<seq<(int, int)>>
    requires axis < 3
  {
    if n == 0 then {} else Seen(s, axis, n - 1) + {AxisOf(Steps(s, n - 1), axis)}
  }

  lemma {:induction false} SeenHas(s: System, axis: nat, n: nat, m: nat)
    requires axis < 3 && m < n
    ensures AxisOf(Steps(s, m), axis) in Seen(s, axis, n)
  {
    if m < n - 1 {
      SeenHas(s, axis, n - 1, m);
    }
  }

  /** A state unlike every earlier one keeps the states distinct. */
  lemma NoRepeatExtend(s: System, axis: nat, n: nat)
    requires axis < 3 && NoRepeat(s, axis, n)
    requires AxisOf(Steps(s, n), axis) !in Seen(s, axis, n)
    ensures NoRepeat(s, axis, n + 1)
  {
    forall m1, m2 | 0 <= m1 < m2 < n + 1
      ensures AxisOf(Steps(s, m1), axis) != AxisOf(Steps(s, m2), axis)
    {
      if m2 == n {
        SeenHas(s, axis, n, m1);
      }
    }
  }

  // ---------------------------------------------------------------------
  // Properties of a step

  /** Pulling on one axis moves the velocity by the sign of the distance. */
  lemma PullCoord(b: Body, toward: Vec3, axis: nat)
    requires axis < 3
    ensures Pull(b, toward).pos == b.pos
    ensures Coord(Pull(b, toward).vel, axis) == Coord(b.vel, axis) + Sign(Coord(toward, axis) - Coord(b.pos, axis))
  {
  }

  lemma {:induction false} MomentumUpdate(s: System, i: nat, b: Body, axis: nat)
    requires i < |s| && axis < 3
    ensures Momentum(s[i := b], axis) == Momentum(s, axis) - Coord(s[i].vel, axis) + Coord(b.vel, axis)
  {
    if i > 0 {
      assert s[i := b][1..] == s[1..][i - 1 := b];
      MomentumUpdate(s[1..], i - 1, b, axis);
    }
  }

  /** Systems with the same velocities have the same momentum. */
  lemma {:induction false} MomentumOfVelocities(u: System, v: System, axis: nat)
    requires |u| == |v| && axis < 3
    requires forall k :: 0 <= k < |u| ==> u[k].vel == v[k].vel
    ensures Momentum(u, axis) == Momentum(v, axis)
  {
    if u != [] {
      MomentumOfVelocities(u[1..], v[1..], axis);
    }
  }

  /** Within one pair the two pulls are equal and opposite, and nothing
      moves. */
  lemma PairStepKeeps(s: System, i: nat, j: nat, axis: nat)
    requires i < j < |s| && axis < 3
    ensures forall k :: 0 <= k < |s| ==> PairStep(s, i, j)[k].pos == s[k].pos
    ensures Momentum(PairStep(s, i, j), axis) == Momentum(s, axis)
  {
    var s1 := s[i := Pull(s[i], s[j].pos)];
    PullCoord(s[i], s[j].pos, axis);
    PullCoord(s[j], s[i].pos, axis);
    MomentumUpdate(s, i, Pull(s[i], s[j].pos), axis);
    MomentumUpdate(s1, j, Pull(s1[j], s1[i].pos), axis);
    assert Sign(Coord(s[i].pos, axis) - Coord(s[j].pos, axis)) == -Sign(Coord(s[j].pos, axis) - Coord(s[i].pos, axis));
  }

  lemma {:induction false} GravityRowKeeps(s: System, i: nat, j: nat, axis: nat)
    requires i < j <= |s| && axis < 3
    ensures forall k :: 0 <= k < |s| ==> GravityRow(s, i, j)[k].pos == s[k].pos
    ensures Momentum(GravityRow(s, i, j), axis) == Momentum(s, axis)
    decreases |s| - j
  {
    if j < |s| {
      PairStepKeeps(s, i, j, axis);
      GravityRowKeeps(PairStep(s, i, j), i, j + 1, axis);
    }
  }

  lemma {:induction false} GravityFromKeeps(s: System, i: nat, axis: nat)
    requires i <= |s| && axis < 3
    ensures forall k :: 0 <= k < |s| ==> GravityFrom(s, i)[k].pos == s[k].pos
    ensures Momentum(GravityFrom(s, i), axis) == Momentum(s, axis)
    decreases |s| - i
  {
    if i < |s| {
      GravityRowKeeps(s, i, i + 1, axis);
      GravityFromKeeps(GravityRow(s, i, i + 1), i + 1, axis);
    }
  }

  /** The gravity phase moves no planet and keeps the total velocity on
      every axis. */
  lemma GravityKeeps(s: System)
    ensures forall k :: 0 <= k < |s| ==> Gravity(s)[k].pos == s[k].pos
    ensures forall axis :: 0 <= axis < 3 ==> Momentum(Gravity(s), axis) == Momentum(s, axis)
  {
    GravityFromKeeps(s, 0, 0);
    forall axis | 0 <= axis < 3
      ensures Momentum(Gravity(s), axis) == Momentum(s, axis)
    {
      GravityFromKeeps(s, 0, axis);
    }
  }

  /** A whole step, and so any number of steps, keeps the total velocity. */
  lemma {:induction false} StepsKeepMomentum(s: System, n: nat, axis: nat)
    requires axis < 3
    ensures Momentum(Steps(s, n), axis) == Momentum(s, axis)
  {
    if n > 0 {
      var before := Steps(s, n - 1);
      StepsKeepMomentum(s, n - 1, axis);
      GravityKeeps(before);
      MomentumOfVelocities(Step(before), Gravity(before), axis);
    }
  }

  /** Two systems whose positions agree on an axis feel the same pulls on
      it: the gravity phase keeps the differences of their velocities. */
  lemma PairStepOffsets(u: System, v: System, i: nat, j: nat, axis: nat)
    requires |u| == |v| && i < j < |u| && axis < 3
    requires Positions(u, axis) == Positions(v, axis)
    ensures Positions(PairStep(u, i, j), axis) == Positions(u, axis)
    ensures Positions(PairStep(v, i, j), axis) == Positions(v, axis)
    ensures Offsets(PairStep(u, i, j), PairStep(v, i, j), axis) == Offsets(u, v, axis)
  {
    assert Positions(u, axis)[i] == Positions(v, axis)[i];
    assert Positions(u, axis)[j] == Positions(v, axis)[j];
    PullCoord(u[i], u[j].pos, axis);
    PullCoord(v[i], v[j].pos, axis);
    PullCoord(u[j], u[i].pos, axis);
    PullCoord(v[j], v[i].pos, axis);
    PairStepKeeps(u, i, j, axis);
    PairStepKeeps(v, i, j, axis);
  }

  lemma {:induction false} GravityRowOffsets(u: System, v: System, i: nat, j: nat, axis: nat)
    requires |u| == |v| && i < j <= |u| && axis < 3
    requires Positions(u, axis) == Positions(v, axis)
    ensures Positions(GravityRow(u, i, j), axis) == Positions(u, axis)
    ensures Positions(GravityRow(v, i, j), axis) == Positions(v, axis)
    ensures Offsets(GravityRow(u, i, j), GravityRow(v, i, j), axis) == Offsets(u, v, axis)
    decreases |u| - j
  {
    if j < |u| {
      PairStepOffsets(u, v, i, j, axis);
      GravityRowOffsets(PairStep(u, i, j), PairStep(v, i, j), i, j + 1, axis);
    }
  }

  lemma {:induction false} GravityFromOffsets(u: System, v: System, i: nat, axis: nat)
    requires |u| == |v| && i <= |u| && axis < 3
    requires Positions(u, axis) == Positions(v, axis)
    ensures Positions(GravityFrom(u, i), axis) == Positions(u, axis)
    ensures Positions(GravityFrom(v, i), axis) == Positions(v, axis)
    ensures Offsets(GravityFrom(u, i), GravityFrom(v, i), axis) == Offsets(u, v, axis)
    decreases |u| - i
  {
    if i < |u| {
      GravityRowOffsets(u, v, i, i + 1, axis);
      GravityFromOffsets(GravityRow(u, i, i + 1), GravityRow(v, i, i + 1), i + 1, axis);
    }
  }

  /** The axes are independent: the state of one axis after a step depends
      only on the state of that axis before it. */
  lemma StepAxis(u: System, v: System, axis: nat)
    requires axis < 3 && AxisOf(u, axis) == AxisOf(v, axis)
    ensures AxisOf(Step(u), axis) == AxisOf(Step(v), axis)
  {
    assert |u| == |AxisOf(u, axis)| == |v|;
    assert Positions(u, axis) == Positions(v, axis) by {
      forall k | 0 <= k < |u| ensures Positions(u, axis)[k] == Positions(v, axis)[k] {
        assert AxisOf(u, axis)[k] == AxisOf(v, axis)[k];
      }
    }
    GravityFromOffsets(u, v, 0, axis);
    var gu, gv := Gravity(u), Gravity(v);
    forall k | 0 <= k < |u| ensures AxisOf(Step(u), axis)[k] == AxisOf(Step(v), axis)[k] {
      assert AxisOf(u, axis)[k] == AxisOf(v, axis)[k];
      assert Offsets(gu, gv, axis)[k] == Offsets(u, v, axis)[k];
      assert Positions(gu, axis)[k] == Positions(gv, axis)[k];
    }
  }

  /** A step can be undone on each axis: two states that agree on an axis
      after a step agreed on it before. */
  lemma StepAxisInjective(u: System, v: System, axis: nat)
    requires axis < 3 && AxisOf(Step(u), axis) == AxisOf(Step(v), axis)
    ensures AxisOf(u, axis) == AxisOf(v, axis)
  {
    assert |u| == |AxisOf(Step(u), axis)| == |v|;
    var gu, gv := Gravity(u), Gravity(v);
    GravityKeeps(u);
    GravityKeeps(v);
    assert Positions(u, axis) == Positions(v, axis) by {
      forall k | 0 <= k < |u| ensures Positions(u, axis)[k] == Positions(v, axis)[k] {
        assert AxisOf(Step(u), axis)[k] == AxisOf(Step(v), axis)[k];
      }
    }
    GravityFromOffsets(u, v, 0, axis);
    forall k | 0 <= k < |u| ensures AxisOf(u, axis)[k] == AxisOf(v, axis)[k] {
      assert AxisOf(Step(u), axis)[k] == AxisOf(Step(v), axis)[k];
      assert Offsets(gu, gv, axis)[k] == Offsets(u, v, axis)[k];
      assert Positions(u, axis)[k] == Positions(v, axis)[k];
    }
  }

  lemma {:induction false} StepsAxis(u: System, v: System, axis: nat, n: nat)
    requires axis < 3 && AxisOf(u, axis) == AxisOf(v, axis)
    ensures AxisOf(Steps(u, n), axis) == AxisOf(Steps(v, n), axis)
  {
    if n > 0 {
      StepsAxis(u, v, axis, n - 1);
      StepAxis(Steps(u, n - 1), Steps(v, n - 1), axis);
    }
  }

  lemma {:induction false} StepsAdd(s: System, m: nat, k: nat)
    ensures Steps(s, m + k) == Steps(Steps(s, m), k)
  {
    if k > 0 {
      StepsAdd(s, m, k - 1);
    }
  }

  /** The state `find_period_for_axis` finds repeated is the starting one:
      since a step can be undone, the first repeat returns to the start. */
  lemma FirstRepeatIsStart(s: System, axis: nat, n: nat)
    requires axis < 3 && NoRepeat(s, axis, n) && Repeats(s, axis, n)
    ensures n > 0 && AxisOf(Steps(s, n), axis) == AxisOf(s, axis)
  {
    var m :| 0 <= m < n && AxisOf(Steps(s, m), axis) == AxisOf(Steps(s, n), axis);
    if m > 0 {
      StepAxisInjective(Steps(s, m - 1), Steps(s, n - 1), axis);
      assert false;
    }
  }

  /** An axis that returns to its start after n steps repeats every n
      steps. */
  lemma {:induction false} ReturnsEveryPeriod(s: System, axis: nat, n: nat, q: nat)
    requires axis < 3 && AxisOf(Steps(s, n), axis) == AxisOf(s, axis)
    ensures AxisOf(Steps(s, q * n), axis) == AxisOf(s, axis)
  {
    if q > 0 {
      ReturnsEveryPeriod(s, axis, n, q - 1);
      MultipleStep(q, n);
      ReturnAgain(s, axis, n, (q - 1) * n, q * n);
    }
  }

  /** An axis back at its start after `before` steps is back again n steps
      later, when n steps from the start bring it back. */
  lemma ReturnAgain(s: System, axis: nat, n: nat, before: nat, total: nat)
    requires axis < 3 && AxisOf(Steps(s, n), axis) == AxisOf(s, axis)
    requires AxisOf(Steps(s, before), axis) == AxisOf(s, axis)
    requires total == before + n
    ensures AxisOf(Steps(s, total), axis) == AxisOf(s, axis)
  {
    StepsAdd(s, before, n);
    StepsAxis(Steps(s, before), s, axis, n);
  }

  lemma MultipleStep(q: nat, n: nat)
    requires q > 0
    ensures 0 <= (q - 1) * n && q * n == (q - 1) * n + n
  {
    Arithmetic.MulMonotone(0, q - 1, n);
  }

  /** A system whose three axes are all back at their start is back at its
      start: after any common multiple of the three periods (the least one
      is what the lcm of the periods computes) the whole system repeats. */
  lemma CommonMultipleReturns(s: System, periods: seq<nat>, c: nat)
    requires |periods| == 3
    requires forall axis :: 0 <= axis < 3 ==> AxisOf(Steps(s, periods[axis]), axis) == AxisOf(s, axis)
    requires forall axis :: 0 <= axis < 3 ==> exists q: nat :: c == q * periods[axis]
    ensures Steps(s, c) == s
  {
    forall axis | 0 <= axis < 3 ensures AxisOf(Steps(s, c), axis) == AxisOf(s, axis) {
      var q: nat :| c == q * periods[axis];
      ReturnsEveryPeriod(s, axis, periods[axis], q);
    }
    var t := Steps(s, c);
    forall k | 0 <= k < |s| ensures t[k] == s[k] {
      assert AxisOf(t, 0)[k] == AxisOf(s, 0)[k];
      assert AxisOf(t, 1)[k] == AxisOf(s, 1)[k];
      assert AxisOf(t, 2)[k] == AxisOf(s, 2)[k];
    }
  }

  // ---------------------------------------------------------------------
  // Parsing `<x=-1, y=0, z=2>`

  /** How many characters the greedy `\s*` takes at the front of s. */
  function SpaceRun(s: string): (n: nat)
    ensures n <= |s|
    ensures n == |s| || !IsSpace(s[n])
  {
    if s == [] || !IsSpace(s[0]) then 0 else 1 + SpaceRun(s[1..])
  }

  /** `-?\d+` at the front of s, as `int` reads it. */
  function SignedAt(s: string): Option<int> {
    if s != [] && s[0] == '-' && DigitRun(s[1..]) > 0 then
      DigitRunDigits(s[1..]);
      var magnitude: int := ReadNat(s[1..][..DigitRun(s[1..])]);
      Some(-magnitude)
    else if DigitRun(s) > 0 then
      DigitRunDigits(s);
      Some(ReadNat(s[..DigitRun(s)]))
    else
      None
  }

  /** `int(re.match(r'.=\s*(-?\d+)', part).groups()[0])`; `None` where the
      pattern does not match. */
  function Coordinate(part: string): Option<int> {
    if |part| < 2 || part[0] == '\n' || part[1] != '=' then None
    else
      var rest := part[2..];
      SignedAt(rest[SpaceRun(rest)..])
  }

  /** `from_string`'s reading of the position: the text inside the
      brackets, stripped, split at ", " and read coordinate by coordinate. */
  function ParsePosition(s: string): Option<Vec3> {
    var inner := if |s| >= 2 then s[1..|s| - 1] else "";
    var parts := Split(Strip(inner), ", ");
    if |parts| != 3 then None
    else
      var x :- Coordinate(parts[0]);
      var y :- Coordinate(parts[1]);
      var z :- Coordinate(parts[2]);
      Some(Vec3(x, y, z))
  }

  /** `str(n)` of an integer. */
  function IntText(n: int): string {
    if n < 0 then "-" + ShowText(-n) else ShowText(n)
  }

  /** A position as the input file writes it. */
  function PositionText(v: Vec3): string {
    "<" + CoordinateList(v) + ">"
  }

  /** The three coordinates separated by ", ". */
  function CoordinateList(v: Vec3): string {
    var parts := CoordinateTexts(v);
    parts[0] + ", " + parts[1] + ", " + parts[2]
  }

  // ---------------------------------------------------------------------
  // Properties of parsing

  /** `-?\d+` reads back an integer written out. */
  lemma SignedAtText(n: int)
    ensures SignedAt(IntText(n)) == Some(n)
  {
    var digits := ShowText(if n < 0 then -n else n);
    assert digits == digits + [];
    DigitRunOf(digits, []);
    assert DigitRun(digits) == |digits| && digits[..|digits|] == digits;
    ReadShow(if n < 0 then -n else n);
    if n < 0 {
      assert IntText(n)[1..] == digits;
    } else {
      assert IntText(n) == digits && !(digits[0] == '-');
    }
  }

  /** A coordinate as the input writes it reads back as its value. */
  lemma CoordinateOf(c: char, n: int)
    requires c != '\n' && c != ','
    ensures Coordinate([c, '='] + IntText(n)) == Some(n)
    ensures Avoids([c, '='] + IntText(n), ',')
  {
    var text := IntText(n);
    var part := [c, '='] + text;
    IntTextChars(n);
    assert part[2..] == text;
    assert SpaceRun(text) == 0;
    assert text[0..] == text;
    SignedAtText(n);
    forall i | 0 <= i < |part|
      ensures part[i] != ','
    {
      if i >= 2 {
        assert part[i] == text[i - 2];
      }
    }
  }

  /** `str(n)` is a minus sign or digits, none of them whitespace. */
  lemma IntTextChars(n: int)
    ensures var text := IntText(n);
      && |text| >= 1 && !IsSpace(text[0]) && !IsSpace(text[|text| - 1])
      && forall i :: 0 <= i < |text| ==> text[i] == '-' || IsDigitChar(text[i])
  {
    var digits := ShowText(if n < 0 then -n else n);
    if n < 0 {
      assert forall i :: 1 <= i < |IntText(n)| ==> IntText(n)[i] == digits[i - 1];
    }
  }


  /** The three coordinates of a position as the input writes it. */
  function CoordinateTexts(v: Vec3): seq<string> {
    [['x', '='] + IntText(v.x), ['y', '='] + IntText(v.y), ['z', '='] + IntText(v.z)]
  }

  /** Inside the brackets are the three coordinates, with nothing to strip. */
  lemma PositionTextInner(v: Vec3)
    ensures var text := PositionText(v); Strip(text[1..|text| - 1]) == CoordinateList(v)
  {
    var parts := CoordinateTexts(v);
    var head := parts[0] + ", " + parts[1] + ", ";
    var inner := head + parts[2];
    Unbracket(inner);
    var last := IntText(v.z);
    assert !IsSpace(last[|last| - 1]) by {
      assert last[|last| - 1] == '-' || IsDigitChar(last[|last| - 1]);
    }
    StripEnds(head, parts[2]);
  }

  /** The text between the angle brackets. */
  lemma Unbracket(inner: string)
    ensures var text := "<" + inner + ">"; |text| >= 2 && text[1..|text| - 1] == inner
  {
    var text := "<" + inner + ">";
    assert text[1..|text| - 1] == inner;
  }

  /** Text that starts and ends with a visible character is not stripped. */
  lemma StripEnds(a: string, b: string)
    requires a != [] && b != [] && !IsSpace(a[0]) && !IsSpace(b[|b| - 1])
    ensures Strip(a + b) == a + b
  {
    var t := a + b;
    assert t[0] == a[0] && t[|t| - 1] == b[|b| - 1];
    StripPlain(t);
  }

  /** Three pieces without a separator, joined by two, split apart again. */
  lemma SplitThree(a: string, b: string, c: string, sep: string)
    requires sep != [] && Avoids(a, sep[0]) && Avoids(b, sep[0]) && Avoids(c, sep[0])
    ensures Split(a + sep + b + sep + c, sep) == [a, b, c]
  {
    SplitNone(c, sep);
    SplitJoin(b, sep, c);
    assert a + sep + b + sep + c == a + sep + (b + sep + c);
    SplitJoin(a, sep, b + sep + c);
  }

  /** Split at the two separators, the coordinates come apart again. */
  lemma CoordinateTextsSplit(v: Vec3)
    ensures var parts := CoordinateTexts(v);
      Split(CoordinateList(v), ", ") == parts
  {
    var parts := CoordinateTexts(v);
    CoordinateOf('x', v.x);
    CoordinateOf('y', v.y);
    CoordinateOf('z', v.z);
    SplitThree(parts[0], parts[1], parts[2], ", ");
  }

  /** `from_string` reads back every position the input format writes,
      minus signs included. */
  lemma ParsePositionText(v: Vec3)
    ensures ParsePosition(PositionText(v)) == Some(v)
  {
    PositionTextInner(v);
    CoordinateTextsSplit(v);
    CoordinateOf('x', v.x);
    CoordinateOf('y', v.y);
    CoordinateOf('z', v.z);
  }

  /** A position with two coordinates is refused (the source would build a
      planet of two dimensions). */
  lemma TwoCoordinatesRefused()
    ensures ParsePosition("<x=1, y=2>") == None
  {
    var text := "<x=1, y=2>";
    assert text[1..|text| - 1] == "x=1, y=2";
    StripPlain("x=1, y=2");
    SplitNone("y=2", ", ");
    SplitJoin("x=1", ", ", "y=2");
    assert "x=1" + ", " + "y=2" == "x=1, y=2";
    assert Split("x=1, y=2", ", ") == ["x=1", "y=2"];
  }
}

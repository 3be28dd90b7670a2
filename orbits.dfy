/** The orbit map: planets by name, each with the planets orbiting it
    (its children) and the planets it orbits (its parents). */
module Orbits {
  import opened Wrappers
  import opened Text

  type Name = string

  datatype Error =
    | BadLine(line: string)  // `parent, child = ...split(")")` without exactly two parts
    | MissingKey(name: Name) // `distances[nbr]` or `previous[current]` of a name without an entry

  /** The distance every planet starts with in the search, `10**10`. */
  const Unreached := 10_000_000_000

  predicate Distinct<T(==)>(s: seq<T>) {
    forall i, j :: 0 <= i < j < |s| ==> s[i] != s[j]
  }

  function Elems<T>(s: seq<T>): set<T> {
    set x | x in s
  }

  /** `orbit.children` (or `orbit.parents`) of the planet called `name`:
      empty for a name without an entry. */
  function Links(links: map<Name, seq<Name>>, name: Name): seq<Name> {
    if name in links then links[name] else []
  }

  // ---------------------------------------------------------------------
  // The map of orbits as a value

  /** The planets in the order the `planets` dictionary holds them, and
      each one's children and parents. */
  datatype Graph = Graph(planets: seq<Name>, children: map<Name, seq<Name>>, parents: map<Name, seq<Name>>)

  const Empty := Graph([], map[], map[])

  /** `Orbit(planet=name)` stored as `planets[name]`: no children, no
      parents. */
  function NewPlanet(g: Graph, name: Name): Graph {
    Graph(g.planets + [name], g.children[name := []], g.parents[name := []])
  }

  /** `parent.append(child)`. */
  function Attach(g: Graph, parent: Name, child: Name): Graph {
    Graph(g.planets, g.children[parent := Links(g.children, parent) + [child]],
      g.parents[child := Links(g.parents, child) + [parent]])
  }

  /** One line `parent)child` of `from_file`: the child's node, made if it
      is new, then the parent's, then the link. */
  function Link(g: Graph, edge: (Name, Name)): Graph {
    var parent, child := edge.0, edge.1;
    Attach(WithPlanet(WithPlanet(g, child), parent), parent, child)
  }

  /** `if name not in planets: planets[name] = Orbit(planet=name)`. */
  function WithPlanet(g: Graph, name: Name): Graph {
    if name in g.planets then g else NewPlanet(g, name)
  }

  /** The map the lines `parent)child` build, in order. */
  function Build(edges: seq<(Name, Name)>): Graph {
    if edges == [] then Empty else Link(Build(edges[..|edges| - 1]), edges[|edges| - 1])
  }

  /** `line.strip().split(")")` unpacked into parent and child. */
  function ParseLine(line: string): (r: Result<(Name, Name), Error>)
    ensures r.Err? ==> r.error == BadLine(line)
  {
    var parts := Split(Strip(line), ")");
    if |parts| != 2 then Err(BadLine(line)) else Ok((parts[0], parts[1]))
  }

  /** Every line parsed, or the first line that does not parse. */
  function ParseLines(lines: seq<string>): (r: Result<seq<(Name, Name)>, Error>)
    ensures r.Ok? <==> forall i :: 0 <= i < |lines| ==> ParseLine(lines[i]).Ok?
    ensures r.Ok? ==> |r.value| == |lines| && forall i :: 0 <= i < |lines| ==> r.value[i] == ParseLine(lines[i]).value
    ensures r.Err? ==> exists i :: 0 <= i < |lines| && r.error == BadLine(lines[i])
  {
    if lines == [] then Ok([])
    else
      var n := |lines| - 1;
      var front := ParseLines(lines[..n]);
      assert forall i :: 0 <= i < n ==> lines[..n][i] == lines[i];
      match front
      case Err(e) => Err(e)
      case Ok(edges) =>
        match ParseLine(lines[n])
        case Err(e) => Err(e)
        case Ok(edge) => Ok(edges + [edge])
  }

  /** Every name a line mentions. */
  function Endpoints(edges: seq<(Name, Name)>): set<Name> {
    (set e | e in edges :: e.0) + (set e | e in edges :: e.1)
  }

  /** The children the lines give `parent`, in line order. */
  function ChildrenIn(edges: seq<(Name, Name)>, parent: Name): seq<Name> {
    if edges == [] then []
    else
      var last := edges[|edges| - 1];
      ChildrenIn(edges[..|edges| - 1], parent) + (if last.0 == parent then [last.1] else [])
  }

  /** The parents the lines give `child`, in line order. */
  function ParentsIn(edges: seq<(Name, Name)>, child: Name): seq<Name> {
    if edges == [] then []
    else
      var last := edges[|edges| - 1];
      ParentsIn(edges[..|edges| - 1], child) + (if last.1 == child then [last.0] else [])
  }

  // ---------------------------------------------------------------------
  // count_descendents

  /** `len([o for o in children if o.planet not in already_counted])`. */
  function Unseen(kids: seq<Name>, counted: set<Name>): nat {
    if kids == [] then 0 else (if kids[0] in counted then 0 else 1) + Unseen(kids[1..], counted)
  }

  /** `count_descendents` of `planet` given the names already counted:
      the count and the names counted afterwards. Each call goes one
      level deeper; `None` is running out of `fuel` levels (Python's
      recursion limit). */
  function Count(children: map<Name, seq<Name>>, planet: Name, counted: set<Name>, fuel: nat): Option<(nat, set<Name>)>
    decreases fuel, 0, 0
  {
    if fuel == 0 then None
    else
      var seen := counted + {planet};
      var kids := Links(children, planet);
      if kids == [] then Some((0, seen))
      else
        var below :- SumCounts(children, kids, seen, fuel - 1);
        Some((Unseen(kids, seen) + below.0, below.1))
  }

  /** `sum(o.count_descendents(already_counted) for o in children)`, the
      names counted carrying over from each child to the next. */
  function SumCounts(children: map<Name, seq<Name>>, kids: seq<Name>, counted: set<Name>, fuel: nat): Option<(nat, set<Name>)>
    decreases fuel, 1, |kids|
  {
    if kids == [] then Some((0, counted))
    else
      var first :- Count(children, kids[0], counted, fuel);
      var rest :- SumCounts(children, kids[1..], first.1, fuel);
      Some((first.0 + rest.0, rest.1))
  }

  // ---------------------------------------------------------------------
  // Planets as objects

  class OrbitMap {
    var planets: seq<Name>
    var children: map<Name, seq<Name>>
    var parents: map<Name, seq<Name>>

    function State(): Graph
      reads this
    {
      Graph(planets, children, parents)
    }

    /** `n` is one of the planets `m` links to, parents first. */
    predicate Adjacent(m: Name, n: Name)
      reads this
    {
      n in Links(parents, m) + Links(children, m)
    }

    constructor ()
      ensures State() == Empty
    {
      planets, children, parents := [], map[], map[];
    }

    method AddPlanet(name: Name)
      modifies this
      ensures State() == NewPlanet(old(State()), name)
    {
      planets := planets + [name];
      children := children[name := []];
      parents := parents[name := []];
    }

    /** `parent.append(child)`: the parent joins the child's parents, the
        child the parent's children. */
    method Append(parent: Name, child: Name)
      modifies this
      ensures State() == Attach(old(State()), parent, child)
    {
      parents := parents[child := Links(parents, child) + [parent]];
      children := children[parent := Links(children, parent) + [child]];
    }

    /** The body of `from_file`'s loop for the line `parent)child`. */
    method AddLine(parent: Name, child: Name)
      modifies this
      ensures State() == Link(old(State()), (parent, child))
    {
      if child !in planets {
        AddPlanet(child);
      }
      if parent !in planets {
        AddPlanet(parent);
      }
      Append(parent, child);
    }

    /** `count_descendents`, at most `fuel` calls deep. */
    method CountDescendents(planet: Name, counted: set<Name>, fuel: nat) returns (r: Option<(nat, set<Name>)>)
      ensures r == Count(children, planet, counted, fuel)
      decreases fuel, 0, 0
    {
      if fuel == 0 {
        return None;
      }
      var seen := counted + {planet};
      var kids := Links(children, planet);
      if kids == [] {
        return Some((0, seen));
      }
      var newKids := Unseen(kids, seen);
      ghost var whole := SumCounts(children, kids, seen, fuel - 1);
      var total := 0;
      var i := 0;
      while i < |kids|
        invariant 0 <= i <= |kids|
        invariant var rest := SumCounts(children, kids[i..], seen, fuel - 1);
          whole == if rest.None? then None else Some((total + rest.value.0, rest.value.1))
      {
        assert kids[i..][1..] == kids[i + 1..];
        var sub := CountDescendents(kids[i], seen, fuel - 1);
        if sub.None? {
          return None;
        }
        total := total + sub.value.0;
        seen := sub.value.1;
        i := i + 1;
      }
      return Some((newKids + total, seen));
    }

    /** `find_minimum_transfter_path` from `source` to `target` over the
        planets `all` (listed in the order the set gives them): the path
        back from `target` to `source` along the `previous` links the
        search leaves. */
    method FindMinimumTransferPath(source: Name, target: Name, all: seq<Name>) returns (r: Result<seq<Name>, Error>)
      ensures r.Ok? ==> |r.value| >= 1 && r.value[0] == target && r.value[|r.value| - 1] == source
      ensures r.Ok? ==> forall k :: 0 <= k < |r.value| - 1 ==> Adjacent(r.value[k + 1], r.value[k])
      ensures r.Ok? ==> Distinct(r.value)
    {
      var searched := Search(source, target, all);
      if searched.Err? {
        return Err(searched.error);
      }
      r := WalkBack(source, target, searched.value.0, searched.value.1);
      assert r.Ok? ==> forall k :: 0 <= k < |r.value| - 1 ==> r.value[k] in searched.value.1;
    }

    /** The search loop: planets taken nearest first until `target` is
        taken or none is left, each relaxing its neighbours. */
    method Search(source: Name, target: Name, all: seq<Name>) returns (r: Result<(map<Name, int>, map<Name, Name>), Error>)
      ensures r.Ok? ==> var (distances, previous) := r.value;
        && distances.Keys == Elems(all) + {source} && distances[source] == 0
        && (forall o :: o in distances ==> 0 <= distances[o] <= Unreached)
        && WalksBack(previous, distances)
    {
      var distances := InitialDistances(all, source);
      ghost var initial := distances;
      var previous: map<Name, Name> := map[];
      var remaining := Elems(all);
      while remaining != {}
        invariant forall o :: o in remaining ==> o in all
        invariant distances.Keys == initial.Keys && Elems(all) <= distances.Keys
        invariant forall o :: o in distances ==> 0 <= distances[o] <= initial[o]
        invariant WalksBack(previous, distances)
        decreases |remaining|
      {
        ghost var o :| o in remaining;
        assert o in all;
        var k := Nearest(all, remaining, distances);
        var nearest := all[k];
        remaining := remaining - {nearest};
        if nearest == target {
          break;
        }
        var relaxed := Relax(nearest, Links(parents, nearest) + Links(children, nearest), distances, previous);
        if relaxed.Err? {
          return Err(relaxed.error);
        }
        RelaxedWalksBack(nearest, distances, previous, relaxed.value.0, relaxed.value.1);
        distances, previous := relaxed.value.0, relaxed.value.1;
      }
      return Ok((distances, previous));
    }

    /** Relaxing the neighbours of `m` keeps every `previous` link leading
        to an adjacent planet strictly nearer the source. */
    lemma RelaxedWalksBack(m: Name, distances: map<Name, int>, previous: map<Name, Name>,
                           relaxed: map<Name, int>, linked: map<Name, Name>)
      requires m in distances && WalksBack(previous, distances)
      requires relaxed.Keys == distances.Keys
      requires forall o :: o in distances ==> relaxed[o] <= distances[o]
      requires forall o :: o in linked ==>
        (o in previous && linked[o] == previous[o] && o in distances && relaxed[o] == distances[o])
        || (o in Links(parents, m) + Links(children, m) && linked[o] == m && o in distances && relaxed[o] == distances[m] + 1 < distances[o])
      ensures WalksBack(linked, relaxed)
    {
      forall n | n in linked
        ensures n in relaxed && linked[n] in relaxed && relaxed[linked[n]] < relaxed[n] && Adjacent(linked[n], n)
      {
        if n in previous && linked[n] == previous[n] && n in distances && relaxed[n] == distances[n] {
          assert relaxed[previous[n]] <= distances[previous[n]];
        }
      }
    }

    /** The `previous` links the search leaves: each leads to a planet the
        linked one is adjacent to, strictly nearer the source. */
    ghost predicate WalksBack(previous: map<Name, Name>, distances: map<Name, int>)
      reads this
    {
      && Descends(previous, distances)
      && forall n :: n in previous ==> Adjacent(previous[n], n)
    }
  }

  /** Each `previous` link leads strictly nearer the source. */
  ghost predicate Descends(previous: map<Name, Name>, distances: map<Name, int>) {
    forall n :: n in previous ==>
      n in distances && previous[n] in distances && distances[previous[n]] < distances[n]
  }

  /** `current = previous[current]` from `target` until `source`, then
      `source` itself: a path along the `previous` links, without repeats. */
  method WalkBack(source: Name, target: Name, distances: map<Name, int>, previous: map<Name, Name>) returns (r: Result<seq<Name>, Error>)
    requires forall o :: o in distances ==> 0 <= distances[o]
    requires Descends(previous, distances)
    ensures r.Ok? ==> |r.value| >= 1 && r.value[0] == target && r.value[|r.value| - 1] == source
    ensures r.Ok? ==> forall k :: 0 <= k < |r.value| - 1 ==> r.value[k] in previous && previous[r.value[k]] == r.value[k + 1]
    ensures r.Ok? ==> Distinct(r.value)
    ensures r.Err? ==> r.error.MissingKey?
  {
    var path: seq<Name> := [];
    var current := target;
    while current != source
      invariant path == [] ==> current == target
      invariant path != [] ==> path[0] == target && current in distances
      invariant path != [] ==> path[|path| - 1] in previous && previous[path[|path| - 1]] == current
      invariant forall k :: 0 <= k < |path| - 1 ==> path[k] in previous && previous[path[k]] == path[k + 1]
      invariant path != [] ==> forall k :: 0 <= k < |path| ==> path[k] in distances && distances[path[k]] > distances[current]
      invariant Distinct(path)
      invariant forall k :: 0 <= k < |path| ==> path[k] != source
      decreases if current in distances then distances[current] else 0
    {
      if current !in previous {
        return Err(MissingKey(current));
      }
      ghost var walked := path;
      path := path + [current];
      assert forall k :: 0 <= k < |walked| ==> path[k] == walked[k];
      assert walked != [] ==> previous[path[|walked| - 1]] == path[|walked|];
      current := previous[current];
    }
    return Ok(path + [source]);
  }

  /** `distances = {o: 10**10 for o in all_orbits}`, then
      `distances[self] = 0`. */
  method InitialDistances(all: seq<Name>, source: Name) returns (distances: map<Name, int>)
    ensures distances.Keys == Elems(all) + {source}
    ensures distances[source] == 0
    ensures forall o :: o in distances && o != source ==> distances[o] == Unreached
  {
    distances := map o | o in all :: Unreached;
    distances := distances[source := 0];
  }

  /** `min({o: dist ... if o in all_orbits}, key=distances.get)`: the index
      in `order` of the first remaining planet at the least distance. */
  function Nearest(order: seq<Name>, remaining: set<Name>, distances: map<Name, int>): (k: nat)
    requires forall i :: 0 <= i < |order| && order[i] in remaining ==> order[i] in distances
    requires exists i :: 0 <= i < |order| && order[i] in remaining
    ensures k < |order| && order[k] in remaining
    ensures forall i :: 0 <= i < |order| && order[i] in remaining ==> distances[order[k]] <= distances[order[i]]
    ensures forall i :: 0 <= i < k && order[i] in remaining ==> distances[order[k]] < distances[order[i]]
  {
    if order[0] !in remaining then
      1 + Nearest(order[1..], remaining, distances)
    else if forall i :: 1 <= i < |order| ==> order[i] !in remaining then
      0
    else
      var later := 1 + Nearest(order[1..], remaining, distances);
      if distances[order[0]] <= distances[order[later]] then 0 else later
  }

  /** The loop over `parents + children` of the planet just taken: each
      neighbour one step further than it, when that is nearer than known,
      gets that distance and it as `previous`. */
  method Relax(m: Name, nbrs: seq<Name>, distances: map<Name, int>, previous: map<Name, Name>)
    returns (r: Result<(map<Name, int>, map<Name, Name>), Error>)
    requires m in distances && forall o :: o in previous ==> o in distances
    ensures r.Err? <==> exists j :: 0 <= j < |nbrs| && nbrs[j] !in distances
    ensures r.Err? ==>
      exists j ::
        && 0 <= j < |nbrs| && nbrs[j] !in distances && r.error == MissingKey(nbrs[j])
        && forall k :: 0 <= k < j ==> nbrs[k] in distances
    ensures r.Ok? ==> r.value.0.Keys == distances.Keys && previous.Keys <= r.value.1.Keys
    ensures r.Ok? ==> forall o :: o in distances ==> r.value.0[o] <= distances[o]
    ensures r.Ok? ==> forall j :: 0 <= j < |nbrs| ==> r.value.0[nbrs[j]] <= distances[m] + 1
    ensures r.Ok? ==> forall o :: o in distances && r.value.0[o] != distances[o] ==>
      o in nbrs && o in r.value.1 && r.value.1[o] == m && r.value.0[o] == distances[m] + 1
    ensures r.Ok? ==> forall o :: o in r.value.1 ==>
      (o in previous && r.value.1[o] == previous[o] && o in distances && r.value.0[o] == distances[o])
      || (o in nbrs && r.value.1[o] == m && o in distances && r.value.0[o] == distances[m] + 1 < distances[o])
  {
    var d, p := distances, previous;
    var j := 0;
    while j < |nbrs|
      invariant 0 <= j <= |nbrs|
      invariant d.Keys == distances.Keys && previous.Keys <= p.Keys && d[m] == distances[m]
      invariant forall i :: 0 <= i < j ==> nbrs[i] in distances && d[nbrs[i]] <= distances[m] + 1
      invariant forall o :: o in distances ==> d[o] <= distances[o]
      invariant forall o :: o in distances && d[o] != distances[o] ==>
        o in nbrs && o in p && p[o] == m && d[o] == distances[m] + 1
      invariant forall o :: o in p ==>
        (o in previous && p[o] == previous[o] && o in distances && d[o] == distances[o])
        || (o in nbrs && p[o] == m && o in distances && d[o] == distances[m] + 1 < distances[o])
    {
      var nbr := nbrs[j];
      var alt := d[m] + 1;
      if nbr !in d {
        return Err(MissingKey(nbr));
      }
      if alt < d[nbr] {
        d := d[nbr := alt];
        p := p[nbr := m];
      }
      j := j + 1;
    }
    return Ok((d, p));
  }

  /** `from_file`: one planet per name, in the order the names first
      appear (a line's child before its parent), and a link per line. */
  method FromFile(lines: seq<string>) returns (r: Result<OrbitMap, Error>)
    ensures r.Ok? <==> ParseLines(lines).Ok?
    ensures r.Err? ==> exists i :: 0 <= i < |lines| && r.error == BadLine(lines[i]) && ParseLine(lines[i]).Err?
                                   && (forall j :: 0 <= j < i ==> ParseLine(lines[j]).Ok?)
    ensures r.Ok? ==> fresh(r.value) && r.value.State() == Build(ParseLines(lines).value)
  {
    var orbits := new OrbitMap();
    var i := 0;
    while i < |lines|
      invariant 0 <= i <= |lines|
      invariant fresh(orbits)
      invariant ParseLines(lines[..i]).Ok? && orbits.State() == Build(ParseLines(lines[..i]).value)
    {
      var parsed := ParseLine(lines[i]);
      if parsed.Err? {
        FirstBadLine(lines, i);
        return Err(parsed.error);
      }
      FromFileStep(lines, i, orbits.State(), parsed.value);
      orbits.AddLine(parsed.value.0, parsed.value.1);
      i := i + 1;
    }
    assert lines[..i] == lines;
    return Ok(orbits);
  }

  /** One more line read and linked. */
  lemma FromFileStep(lines: seq<string>, i: nat, g: Graph, edge: (Name, Name))
    requires i < |lines| && ParseLines(lines[..i]).Ok? && g == Build(ParseLines(lines[..i]).value)
    requires ParseLine(lines[i]) == Ok(edge)
    ensures ParseLines(lines[..i + 1]).Ok? && Link(g, edge) == Build(ParseLines(lines[..i + 1]).value)
  {
    ParseLinesStep(lines, i);
    BuildStep(ParseLines(lines[..i]).value, edge);
  }

  lemma ParseLinesStep(lines: seq<string>, i: nat)
    requires i < |lines| && ParseLines(lines[..i]).Ok? && ParseLine(lines[i]).Ok?
    ensures ParseLines(lines[..i + 1]) == Ok(ParseLines(lines[..i]).value + [ParseLine(lines[i]).value])
  {
    assert lines[..i + 1][..i] == lines[..i];
  }

  lemma FirstBadLine(lines: seq<string>, i: nat)
    requires i < |lines| && ParseLines(lines[..i]).Ok? && ParseLine(lines[i]).Err?
    ensures ParseLine(lines[i]).error == BadLine(lines[i])
    ensures forall j :: 0 <= j < i ==> ParseLine(lines[j]).Ok?
  {
    assert forall j :: 0 <= j < i ==> lines[..i][j] == lines[j];
  }

  lemma BuildStep(edges: seq<(Name, Name)>, edge: (Name, Name))
    ensures Build(edges + [edge]) == Link(Build(edges), edge)
  {
    assert (edges + [edge])[..|edges|] == edges;
  }

  // ---------------------------------------------------------------------
  // What `from_file` builds

  lemma ElemsAppend<T>(a: seq<T>, b: seq<T>)
    ensures Elems(a + b) == Elems(a) + Elems(b)
  {
    assert forall x :: x in a + b <==> x in a || x in b;
  }

  /** A fresh planet keeps the names distinct and gives it an entry in
      both maps. */
  lemma NewPlanetKeeps(g: Graph, name: Name)
    requires Distinct(g.planets) && name !in g.planets
    requires g.children.Keys == Elems(g.planets) && g.parents.Keys == Elems(g.planets)
    ensures var h := NewPlanet(g, name);
      && Distinct(h.planets) && Elems(h.planets) == Elems(g.planets) + {name}
      && h.children.Keys == Elems(h.planets) && h.parents.Keys == Elems(h.planets)
  {
    ElemsAppend(g.planets, [name]);
  }

  /** A planet made when it is new keeps the names distinct and gives it
      an entry in both maps. */
  lemma WithPlanetKeeps(g: Graph, name: Name)
    requires Distinct(g.planets)
    requires g.children.Keys == Elems(g.planets) && g.parents.Keys == Elems(g.planets)
    ensures var h := WithPlanet(g, name);
      && Distinct(h.planets) && Elems(h.planets) == Elems(g.planets) + {name}
      && h.children.Keys == Elems(h.planets) && h.parents.Keys == Elems(h.planets)
  {
    if name !in g.planets {
      NewPlanetKeeps(g, name);
    }
  }

  /** One line keeps the names distinct and adds both of its names. */
  lemma LinkPlanets(g: Graph, edge: (Name, Name))
    requires Distinct(g.planets)
    requires g.children.Keys == Elems(g.planets) && g.parents.Keys == Elems(g.planets)
    ensures var h := Link(g, edge);
      && Distinct(h.planets) && Elems(h.planets) == Elems(g.planets) + {edge.0, edge.1}
      && h.children.Keys == Elems(h.planets) && h.parents.Keys == Elems(h.planets)
  {
    var g1 := WithPlanet(g, edge.1);
    WithPlanetKeeps(g, edge.1);
    var g2 := WithPlanet(g1, edge.0);
    WithPlanetKeeps(g1, edge.0);
    var h := Link(g, edge);
    AttachKeeps(g2, edge.0, edge.1);
    AddTwice(Elems(g.planets), Elems(g1.planets), Elems(h.planets), edge.1, edge.0);
    AddPresent(h.children.Keys, Elems(h.planets), edge.0);
    AddPresent(h.parents.Keys, Elems(h.planets), edge.1);
  }

  lemma AddTwice(a: set<Name>, b: set<Name>, c: set<Name>, y: Name, x: Name)
    requires b == a + {y} && c == b + {x}
    ensures c == a + {x, y} && x in c && y in c
  {
  }

  lemma AddPresent(keys: set<Name>, names: set<Name>, x: Name)
    requires keys == names + {x} && x in names
    ensures keys == names
  {
  }

  lemma AttachKeeps(g: Graph, parent: Name, child: Name)
    ensures var h := Attach(g, parent, child);
      && h.planets == g.planets
      && h.children.Keys == g.children.Keys + {parent} && h.parents.Keys == g.parents.Keys + {child}
  {
  }

  /** One line adds its child to its parent's children and its parent to
      its child's parents, and changes no other list. */
  lemma LinkLinks(g: Graph, edge: (Name, Name), p: Name)
    requires g.children.Keys == Elems(g.planets) && g.parents.Keys == Elems(g.planets)
    ensures Links(Link(g, edge).children, p) == Links(g.children, p) + (if edge.0 == p then [edge.1] else [])
    ensures Links(Link(g, edge).parents, p) == Links(g.parents, p) + (if edge.1 == p then [edge.0] else [])
  {
    var g1 := WithPlanet(g, edge.1);
    WithPlanetLinks(g, edge.1, p);
    WithPlanetLinks(g1, edge.0, p);
    AttachLinks(WithPlanet(g1, edge.0), edge.0, edge.1, p);
  }

  /** A planet made when it is new changes no planet's links. */
  lemma WithPlanetLinks(g: Graph, name: Name, p: Name)
    requires g.children.Keys == Elems(g.planets) && g.parents.Keys == Elems(g.planets)
    ensures var h := WithPlanet(g, name);
      && h.children.Keys == Elems(h.planets) && h.parents.Keys == Elems(h.planets)
      && Links(h.children, p) == Links(g.children, p) && Links(h.parents, p) == Links(g.parents, p)
  {
    if name !in g.planets {
      ElemsAppend(g.planets, [name]);
      NewPlanetLinks(g, name, p);
    }
  }

  /** `parent.append(child)` adds one child and one parent. */
  lemma AttachLinks(g: Graph, parent: Name, child: Name, p: Name)
    ensures Links(Attach(g, parent, child).children, p) == Links(g.children, p) + (if parent == p then [child] else [])
    ensures Links(Attach(g, parent, child).parents, p) == Links(g.parents, p) + (if child == p then [parent] else [])
  {
  }

  /** A fresh planet's empty lists change no planet's links. */
  lemma NewPlanetLinks(g: Graph, name: Name, p: Name)
    requires name !in g.children && name !in g.parents
    ensures Links(NewPlanet(g, name).children, p) == Links(g.children, p)
    ensures Links(NewPlanet(g, name).parents, p) == Links(g.parents, p)
  {
  }

  lemma EndpointsStep(front: seq<(Name, Name)>, edge: (Name, Name))
    ensures Endpoints(front + [edge]) == Endpoints(front) + {edge.0, edge.1}
  {
    assert forall e :: e in front + [edge] <==> e in front || e == edge;
  }

  /** Each name is one planet: the planets are exactly the names the
      lines mention, none twice, each with children and parents. */
  lemma {:induction false} BuildPlanets(edges: seq<(Name, Name)>)
    ensures var g := Build(edges);
      && Distinct(g.planets) && Elems(g.planets) == Endpoints(edges)
      && g.children.Keys == Elems(g.planets) && g.parents.Keys == Elems(g.planets)
  {
    if edges != [] {
      var front, edge := edges[..|edges| - 1], edges[|edges| - 1];
      assert edges == front + [edge];
      BuildPlanets(front);
      LinkPlanets(Build(front), edge);
      EndpointsStep(front, edge);
    }
  }

  /** Each planet's children and parents are the ones the lines give it,
      in line order. */
  lemma {:induction false} BuildLinks(edges: seq<(Name, Name)>, p: Name)
    ensures Links(Build(edges).children, p) == ChildrenIn(edges, p)
    ensures Links(Build(edges).parents, p) == ParentsIn(edges, p)
  {
    if edges != [] {
      var front, edge := edges[..|edges| - 1], edges[|edges| - 1];
      BuildPlanets(front);
      BuildLinks(front, p);
      LinkLinks(Build(front), edge, p);
    }
  }

  /** A line `parent)child` whose names hold no `)` and whose ends are not
      whitespace reads back as that parent and child. */
  lemma ParseLineText(parent: Name, child: Name)
    requires parent != [] && child != [] && Avoids(parent, ')') && Avoids(child, ')')
    requires !IsSpace(parent[0]) && !IsSpace(child[|child| - 1])
    ensures ParseLine(parent + ")" + child) == Ok((parent, child))
  {
    var line := parent + ")" + child;
    assert line[0] == parent[0] && line[|line| - 1] == child[|child| - 1];
    StripPlain(line);
    SplitJoin(parent, ")", child);
    SplitNone(child, ")");
  }

  /** A line with a second `)` is refused. */
  lemma TwoLinksRefused()
    ensures ParseLine("A)B)C") == Err(BadLine("A)B)C"))
  {
    var line := "A)B)C";
    StripPlain(line);
    assert line == "A" + ")" + "B)C";
    SplitJoin("A", ")", "B)C");
    assert "B)C" == "B" + ")" + "C";
    SplitJoin("B", ")", "C");
  }

  // ---------------------------------------------------------------------
  // count_descendents on a tree of orbits

  /** A planet and the planets orbiting it, recursively. */
  datatype Tree = Node(name: Name, kids: seq<Tree>)

  /** The names in a tree, root first. */
  function Names(t: Tree): (r: seq<Name>)
    ensures |r| >= 1 && r[0] == t.name
    decreases t, 1
  {
    [t.name] + NamesAll(t.kids)
  }

  function NamesAll(ts: seq<Tree>): (r: seq<Name>)
    ensures |r| >= |ts|
    decreases ts, 0
  {
    if ts == [] then [] else Names(ts[0]) + NamesAll(ts[1..])
  }

  function Roots(ts: seq<Tree>): seq<Name> {
    if ts == [] then [] else [ts[0].name] + Roots(ts[1..])
  }

  /** Levels in a tree: one for a leaf. */
  function Height(t: Tree): nat
    decreases t, 1
  {
    1 + HeightAll(t.kids)
  }

  function HeightAll(ts: seq<Tree>): nat
    decreases ts, 0
  {
    if ts == [] then 0
    else
      var h, rest := Height(ts[0]), HeightAll(ts[1..]);
      if h < rest then rest else h
  }

  /** The `children` lists hold exactly the tree's links. */
  ghost predicate Encodes(children: map<Name, seq<Name>>, t: Tree)
    decreases t, 1
  {
    Links(children, t.name) == Roots(t.kids) && EncodesAll(children, t.kids)
  }

  ghost predicate EncodesAll(children: map<Name, seq<Name>>, ts: seq<Tree>)
    decreases ts, 0
  {
    ts == [] || (Encodes(children, ts[0]) && EncodesAll(children, ts[1..]))
  }

  lemma DistinctAppend<T>(a: seq<T>, b: seq<T>)
    requires Distinct(a + b)
    ensures Distinct(a) && Distinct(b) && Elems(a) !! Elems(b)
  {
    forall i, j | 0 <= i < j < |a| ensures a[i] != a[j] {
      assert (a + b)[i] == a[i] && (a + b)[j] == a[j];
    }
    forall i, j | 0 <= i < j < |b| ensures b[i] != b[j] {
      assert (a + b)[|a| + i] == b[i] && (a + b)[|a| + j] == b[j];
    }
    forall i, j | 0 <= i < |a| && 0 <= j < |b| ensures a[i] != b[j] {
      assert (a + b)[i] == a[i] && (a + b)[|a| + j] == b[j];
    }
  }

  /** `sum(...)` over a planet's children: the first child's count, then
      the others' from what the first left counted. */
  lemma SumCountsStep(children: map<Name, seq<Name>>, ts: seq<Tree>, counted: set<Name>, fuel: nat)
    requires ts != []
    ensures SumCounts(children, Roots(ts), counted, fuel) ==
      match Count(children, ts[0].name, counted, fuel)
      case None => None
      case Some(first) =>
        match SumCounts(children, Roots(ts[1..]), first.1, fuel)
        case None => None
        case Some(rest) => Some((first.0 + rest.0, rest.1))
  {
    assert Roots(ts)[0] == ts[0].name && Roots(ts)[1..] == Roots(ts[1..]);
  }

  /** Roots that have not been counted are all new. */
  lemma {:induction false} UnseenRoots(ts: seq<Tree>, counted: set<Name>)
    requires Elems(NamesAll(ts)) !! counted
    ensures Unseen(Roots(ts), counted) == |ts|
  {
    if ts != [] {
      ElemsAppend(Names(ts[0]), NamesAll(ts[1..]));
      assert Roots(ts)[0] == ts[0].name && Roots(ts)[1..] == Roots(ts[1..]);
      UnseenRoots(ts[1..], counted);
    }
  }

  /** On a tree, `count_descendents` from a planet none of whose
      descendants was counted yet counts each descendant once, and leaves
      the whole tree counted. */
  lemma {:induction false} CountTree(children: map<Name, seq<Name>>, t: Tree, counted: set<Name>, fuel: nat)
    requires Encodes(children, t) && Distinct(Names(t)) && Elems(Names(t)) !! counted
    requires fuel >= Height(t)
    ensures Counted(Count(children, t.name, counted, fuel), |Names(t)| - 1, counted + Elems(Names(t)))
    decreases t, 1
  {
    var seen := counted + {t.name};
    ElemsAppend([t.name], NamesAll(t.kids));
    DistinctAppend([t.name], NamesAll(t.kids));
    assert Links(children, t.name) == Roots(t.kids);
    if t.kids == [] {
      assert Names(t) == [t.name];
      assert Elems(Names(t)) == {t.name};
    } else {
      assert Roots(t.kids) != [];
      UnseenRoots(t.kids, seen);
      CountForest(children, t.kids, seen, fuel - 1);
      assert Counted(Count(children, t.name, counted, fuel), |t.kids| + (|NamesAll(t.kids)| - |t.kids|), seen + Elems(NamesAll(t.kids)));
      assert seen + Elems(NamesAll(t.kids)) == counted + Elems(Names(t));
    }
  }

  /** The same for the children of one planet, counted one after another. */
  lemma {:induction false} CountForest(children: map<Name, seq<Name>>, ts: seq<Tree>, counted: set<Name>, fuel: nat)
    requires EncodesAll(children, ts) && Distinct(NamesAll(ts)) && Elems(NamesAll(ts)) !! counted
    requires fuel >= HeightAll(ts)
    ensures Counted(SumCounts(children, Roots(ts), counted, fuel), |NamesAll(ts)| - |ts|, counted + Elems(NamesAll(ts)))
    decreases ts, 0
  {
    if ts == [] {
      assert Roots(ts) == [] && counted + Elems(NamesAll(ts)) == counted;
    } else {
      ForestSplits(children, ts, counted, fuel);
      CountTree(children, ts[0], counted, fuel);
      CountForest(children, ts[1..], counted + Elems(Names(ts[0])), fuel);
      ForestJoins(children, ts, counted, fuel);
    }
  }

  /** The first tree and the others each meet what counting them needs. */
  lemma ForestSplits(children: map<Name, seq<Name>>, ts: seq<Tree>, counted: set<Name>, fuel: nat)
    requires ts != [] && EncodesAll(children, ts) && Distinct(NamesAll(ts)) && Elems(NamesAll(ts)) !! counted
    requires fuel >= HeightAll(ts)
    ensures Encodes(children, ts[0]) && Distinct(Names(ts[0])) && Elems(Names(ts[0])) !! counted
    ensures fuel >= Height(ts[0])
    ensures EncodesAll(children, ts[1..]) && Distinct(NamesAll(ts[1..]))
    ensures Elems(NamesAll(ts[1..])) !! counted + Elems(Names(ts[0]))
    ensures fuel >= HeightAll(ts[1..])
  {
    var first, rest := Names(ts[0]), NamesAll(ts[1..]);
    ElemsAppend(first, rest);
    DistinctAppend(first, rest);
  }

  /** Counting the first tree, then the others, counts the forest. */
  lemma ForestJoins(children: map<Name, seq<Name>>, ts: seq<Tree>, counted: set<Name>, fuel: nat)
    requires ts != []
    requires Counted(Count(children, ts[0].name, counted, fuel), |Names(ts[0])| - 1, counted + Elems(Names(ts[0])))
    requires var after := counted + Elems(Names(ts[0]));
      Counted(SumCounts(children, Roots(ts[1..]), after, fuel), |NamesAll(ts[1..])| - |ts[1..]|, after + Elems(NamesAll(ts[1..])))
    ensures Counted(SumCounts(children, Roots(ts), counted, fuel), |NamesAll(ts)| - |ts|, counted + Elems(NamesAll(ts)))
  {
    var first, rest := Names(ts[0]), NamesAll(ts[1..]);
    var after := counted + Elems(first);
    SumCountsCons(children, ts, counted, fuel, |first| - 1, after, |rest| - |ts[1..]|, after + Elems(rest));
    ElemsAppend(first, rest);
    assert NamesAll(ts) == first + rest;
    assert after + Elems(rest) == counted + Elems(NamesAll(ts));
  }

  lemma SumCountsCons(children: map<Name, seq<Name>>, ts: seq<Tree>, counted: set<Name>, fuel: nat,
                      n: nat, after: set<Name>, m: nat, last: set<Name>)
    requires ts != [] && Counted(Count(children, ts[0].name, counted, fuel), n, after)
    requires Counted(SumCounts(children, Roots(ts[1..]), after, fuel), m, last)
    ensures Counted(SumCounts(children, Roots(ts), counted, fuel), n + m, last)
  {
    SumCountsStep(children, ts, counted, fuel);
  }

  /** A count that finished with n new descendants and `names` counted. */
  predicate Counted(r: Option<(nat, set<Name>)>, n: int, names: set<Name>) {
    r.Some? && r.value.0 == n && r.value.1 == names
  }
}

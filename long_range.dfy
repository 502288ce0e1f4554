/** applyLongRangeForces (src/lib/atomFunctions.ts): gravity and Coulomb
    forces between each atom and its listed neighbors. Every unordered pair is
    handled once, through the shared sorted-key set; a handled pair adds its
    force to the atom and the opposite force to the neighbor, in place. */
module LongRange {
  import opened Vectors
  import opened PairIndex
  import opened PairSchedule
  import opened AtomModel
  import opened NeighborLists
  import Population

  /** MIN_DISTANCE, the lower clamp of the distance. */
  const MinDistance: real := 0.1

  /** `Math.max(r, MIN_DISTANCE)`. */
  function Clamp(r: real): (c: real)
    ensures c >= MinDistance && c >= r && (c == r || c == MinDistance)
  {
    if r >= MinDistance then r else MinDistance
  }

  /** `1 / (r * r)` for a clamped distance. */
  function InverseSquare(r: real): real
    requires r >= MinDistance
  {
    assert r * r > 0.0 by { assert r * r >= MinDistance * r; }
    1.0 / (r * r)
  }

  /** The force along a displacement `d` of norm `len`, for the products
      G*m1*m2 and k*q1*q2: each magnitude over the square of the clamped
      distance, along the normalized displacement. */
  function CentralForce(d: Vec3, len: real, gravity: real, coulomb: real): Vec3 {
    var r := Clamp(len);
    var direction := Normalize(d, len);
    Add(Scale(direction, gravity * InverseSquare(r)), Scale(direction, coulomb * InverseSquare(r)))
  }

  /** The total force on the first atom from the second; `length` stands for
      the Euclidean norm. */
  function LongRangeForce(p1: Vec3, m1: real, q1: real, p2: Vec3, m2: real, q2: real, G: real, k: real,
                          length: Vec3 -> real): Vec3
  {
    var displacement := Sub(p2, p1);
    CentralForce(displacement, length(displacement), G * m1 * m2, k * q1 * q2)
  }

  lemma ScaleNeg(a: Vec3, s: real)
    ensures Scale(Neg(a), s) == Neg(Scale(a, s))
  {
    assert (-a.x) * s == -(a.x * s) && (-a.y) * s == -(a.y * s) && (-a.z) * s == -(a.z * s);
  }

  lemma NormalizeNeg(a: Vec3, len: real)
    ensures Normalize(Neg(a), len) == Neg(Normalize(a, len))
  {
    if len != 0.0 {
      assert (-a.x) / len == -(a.x / len) && (-a.y) / len == -(a.y / len) && (-a.z) / len == -(a.z / len);
    }
  }

  lemma AddNeg(a: Vec3, b: Vec3)
    ensures Add(Neg(a), Neg(b)) == Neg(Add(a, b))
  {
  }

  /** Reversing the displacement reverses the force. */
  lemma CentralForceNeg(d: Vec3, len: real, gravity: real, coulomb: real)
    ensures CentralForce(Neg(d), len, gravity, coulomb) == Neg(CentralForce(d, len, gravity, coulomb))
  {
    var r := Clamp(len);
    var direction := Normalize(d, len);
    var g, c := gravity * InverseSquare(r), coulomb * InverseSquare(r);
    NormalizeNeg(d, len);
    ScaleNeg(direction, g);
    ScaleNeg(direction, c);
    AddNeg(Scale(direction, g), Scale(direction, c));
  }

  /** Action and reaction: with a norm that ignores the sign, the force on the
      second atom from the first is the opposite of the force on the first. */
  lemma LongRangeForceAntisymmetric(p1: Vec3, m1: real, q1: real, p2: Vec3, m2: real, q2: real, G: real, k: real,
                                    length: Vec3 -> real)
    requires length(Sub(p1, p2)) == length(Sub(p2, p1))
    ensures LongRangeForce(p2, m2, q2, p1, m1, q1, G, k, length) == Neg(LongRangeForce(p1, m1, q1, p2, m2, q2, G, k, length))
  {
    var d := Sub(p2, p1);
    assert Sub(p1, p2) == Neg(d);
    assert G * m2 * m1 == G * m1 * m2 && k * q2 * q1 == k * q1 * q2;
    CentralForceNeg(d, length(d), G * m1 * m2, k * q1 * q2);
  }

  /** Pairs are keyed by id. */
  function AtomId(a: Atom): nat {
    a.id
  }

  /** The rows of the pass: each atom with `neighborLists.get(atom.id) || []`. */
  function LocalRows(atoms: seq<Atom>, neighborLists: map<nat, seq<Atom>>): seq<(Atom, seq<Atom>)> {
    seq(|atoms|, i requires 0 <= i < |atoms| => (atoms[i], ListOf(neighborLists, atoms[i].id)))
  }

  /** The positions of the objects, read once: the pass moves no atom. */
  ghost function PositionsOf(members: set<Atom>): map<Atom, Vec3>
    reads members`position
  {
    map b | b in members :: b.position
  }

  /** The recorded position of `a`. */
  function PositionIn(P: map<Atom, Vec3>, a: Atom): Vec3 {
    if a in P then P[a] else Zero
  }

  /** The force of one handled pair, from the positions P. */
  function PairForce(P: map<Atom, Vec3>, c: Atom, p: Atom, G: real, k: real, length: Vec3 -> real): Vec3 {
    LongRangeForce(PositionIn(P, c), c.mass, c.charge, PositionIn(P, p), p.mass, p.charge, G, k, length)
  }

  /** The handled pairs with their forces. */
  function Contributions(handled: seq<(Atom, Atom)>, P: map<Atom, Vec3>, G: real, k: real, length: Vec3 -> real)
    : (cs: seq<(Atom, Atom, Vec3)>)
    ensures |cs| == |handled|
  {
    if handled == [] then []
    else
      var n := |handled| - 1;
      Contributions(handled[..n], P, G, k, length) + [(handled[n].0, handled[n].1, PairForce(P, handled[n].0, handled[n].1, G, k, length))]
  }

  /** The pairs the pass handles, with their forces. */
  function LocalContributions(atoms: seq<Atom>, neighborLists: map<nat, seq<Atom>>, P: map<Atom, Vec3>, G: real, k: real,
                              length: Vec3 -> real): seq<(Atom, Atom, Vec3)>
  {
    Contributions(ScheduleRows(LocalRows(atoms, neighborLists), AtomId).handled, P, G, k, length)
  }

  /** What one contribution does to `b`: +f when it is the atom, -f when it
      is the neighbor. */
  function Share(b: Atom, e: (Atom, Atom, Vec3)): Vec3 {
    Add(if e.0 == b then e.2 else Zero, if e.1 == b then Neg(e.2) else Zero)
  }

  /** The total change the contributions make to `b`'s force. */
  function DeltaFor(b: Atom, cs: seq<(Atom, Atom, Vec3)>): Vec3 {
    if cs == [] then Zero else Add(DeltaFor(b, cs[..|cs| - 1]), Share(b, cs[|cs| - 1]))
  }

  /** The sum of the changes over a population. */
  function NetChange(population: seq<Atom>, cs: seq<(Atom, Atom, Vec3)>): Vec3 {
    if population == [] then Zero
    else Add(NetChange(population[..|population| - 1], cs), DeltaFor(population[|population| - 1], cs))
  }

  /** The sum over a population of one contribution's shares. */
  function ShareSum(population: seq<Atom>, e: (Atom, Atom, Vec3)): Vec3 {
    if population == [] then Zero
    else Add(ShareSum(population[..|population| - 1], e), Share(population[|population| - 1], e))
  }

  /** Regrouping a sum of four vectors. */
  lemma AddRegroup(a: Vec3, b: Vec3, c: Vec3, d: Vec3)
    ensures Add(Add(a, b), Add(c, d)) == Add(Add(a, c), Add(b, d))
  {
  }

  lemma DeltaForAppend(b: Atom, cs: seq<(Atom, Atom, Vec3)>, e: (Atom, Atom, Vec3))
    ensures DeltaFor(b, cs + [e]) == Add(DeltaFor(b, cs), Share(b, e))
  {
    assert (cs + [e])[..|cs|] == cs;
  }

  /** Summing over a population commutes with appending a contribution. */
  lemma {:induction false} NetChangeAppend(population: seq<Atom>, cs: seq<(Atom, Atom, Vec3)>, e: (Atom, Atom, Vec3))
    ensures NetChange(population, cs + [e]) == Add(NetChange(population, cs), ShareSum(population, e))
    decreases |population|
  {
    if population != [] {
      var n := |population| - 1;
      var q, x := population[..n], population[n];
      NetChangeAppend(q, cs, e);
      DeltaForAppend(x, cs, e);
      AddRegroup(NetChange(q, cs), ShareSum(q, e), DeltaFor(x, cs), Share(x, e));
    }
  }

  /** The population without its last element keeps no repeated atom. */
  lemma NoDupPrefix(population: seq<Atom>)
    requires population != [] && Population.NoDup(population)
    ensures Population.NoDup(population[..|population| - 1])
    ensures population[|population| - 1] !in population[..|population| - 1]
  {
    var n := |population| - 1;
    var q := population[..n];
    forall i, j | 0 <= i < j < |q| ensures q[i] != q[j] {
      assert q[i] == population[i] && q[j] == population[j];
    }
    forall i | 0 <= i < |q| ensures q[i] != population[n] {
      assert q[i] == population[i];
    }
  }

  /** A contribution whose two ends are outside the population adds nothing to it. */
  lemma {:induction false} ShareSumAbsent(population: seq<Atom>, e: (Atom, Atom, Vec3))
    requires e.0 !in population && e.1 !in population
    ensures ShareSum(population, e) == Zero
    decreases |population|
  {
    if population != [] {
      var n := |population| - 1;
      assert population[n] in population;
      assert forall b :: b in population[..n] ==> b in population;
      ShareSumAbsent(population[..n], e);
    }
  }

  /** Only the atom end in the population: the population gains f. */
  lemma {:induction false} ShareSumOnlyCenter(population: seq<Atom>, e: (Atom, Atom, Vec3))
    requires Population.NoDup(population) && e.0 in population && e.1 !in population
    ensures ShareSum(population, e) == e.2
    decreases |population|
  {
    var n := |population| - 1;
    var q := population[..n];
    NoDupPrefix(population);
    assert forall b :: b in q ==> b in population;
    if population[n] == e.0 {
      ShareSumAbsent(q, e);
    } else {
      assert e.0 in q;
      ShareSumOnlyCenter(q, e);
    }
  }

  /** Only the neighbor end in the population: the population gains -f. */
  lemma {:induction false} ShareSumOnlyPartner(population: seq<Atom>, e: (Atom, Atom, Vec3))
    requires Population.NoDup(population) && e.1 in population && e.0 !in population
    ensures ShareSum(population, e) == Neg(e.2)
    decreases |population|
  {
    var n := |population| - 1;
    var q := population[..n];
    NoDupPrefix(population);
    assert forall b :: b in q ==> b in population;
    if population[n] == e.1 {
      ShareSumAbsent(q, e);
    } else {
      assert e.1 in q;
      ShareSumOnlyPartner(q, e);
    }
  }

  /** Both ends in a population without repeats: the shares cancel. */
  lemma {:induction false} ShareSumSingle(population: seq<Atom>, e: (Atom, Atom, Vec3))
    requires Population.NoDup(population) && e.0 in population && e.1 in population
    ensures ShareSum(population, e) == Zero
    decreases |population|
  {
    var n := |population| - 1;
    var q, x := population[..n], population[n];
    if e.0 == x || e.1 == x {
      ShareSumEndAtLast(population, e);
    } else {
      NoDupPrefix(population);
      InPrefix(population, e.0);
      InPrefix(population, e.1);
      ShareSumSingle(q, e);
      assert Share(x, e) == Add(Zero, Zero);
    }
  }

  /** The base of ShareSumSingle: when the last atom is an end of the
      contribution, the shares of the prefix and of the last atom cancel. */
  lemma ShareSumEndAtLast(population: seq<Atom>, e: (Atom, Atom, Vec3))
    requires Population.NoDup(population) && e.0 in population && e.1 in population
    requires e.0 == population[|population| - 1] || e.1 == population[|population| - 1]
    ensures ShareSum(population, e) == Zero
  {
    var n := |population| - 1;
    var q, x := population[..n], population[n];
    NoDupPrefix(population);
    if e.0 == x && e.1 == x {
      ShareSumAbsent(q, e);
      assert Share(x, e) == Add(e.2, Neg(e.2));
    } else if e.0 == x {
      InPrefix(population, e.1);
      ShareSumOnlyPartner(q, e);
      assert Share(x, e) == Add(e.2, Zero);
    } else {
      InPrefix(population, e.0);
      ShareSumOnlyCenter(q, e);
      assert Share(x, e) == Add(Zero, Neg(e.2));
    }
  }

  /** An element other than the last is in the prefix without the last. */
  lemma InPrefix<T>(s: seq<T>, b: T)
    requires b in s && b != s[|s| - 1]
    ensures b in s[..|s| - 1]
  {
    var i :| 0 <= i < |s| && s[i] == b;
    assert s[..|s| - 1][i] == b;
  }

  /** Net zero: when every endpoint occurs exactly once in the population, the
      changes the contributions make sum to the zero vector. */
  lemma {:induction false} NetChangeZero(population: seq<Atom>, cs: seq<(Atom, Atom, Vec3)>)
    requires Population.NoDup(population)
    requires forall i :: 0 <= i < |cs| ==> cs[i].0 in population && cs[i].1 in population
    ensures NetChange(population, cs) == Zero
    decreases |cs|
  {
    if cs == [] {
      NetChangeEmpty(population);
    } else {
      var n := |cs| - 1;
      NetChangeZero(population, cs[..n]);
      assert cs == cs[..n] + [cs[n]];
      NetChangeAppend(population, cs[..n], cs[n]);
      ShareSumSingle(population, cs[n]);
    }
  }

  lemma {:induction false} NetChangeEmpty(population: seq<Atom>)
    ensures NetChange(population, []) == Zero
    decreases |population|
  {
    if population != [] {
      NetChangeEmpty(population[..|population| - 1]);
    }
  }

  /** The contributions keep the handled pairs, in order. */
  lemma {:induction false} ContributionsPairs(handled: seq<(Atom, Atom)>, P: map<Atom, Vec3>, G: real, k: real,
                                              length: Vec3 -> real)
    ensures forall i :: 0 <= i < |handled| ==>
      Contributions(handled, P, G, k, length)[i].0 == handled[i].0 && Contributions(handled, P, G, k, length)[i].1 == handled[i].1
    decreases |handled|
  {
    if handled != [] {
      ContributionsPairs(handled[..|handled| - 1], P, G, k, length);
    }
  }

  /** applyLongRangeForces handles each unordered pair at most once; every
      handled pair is an atom and one of its listed neighbors; every such
      pair's key is processed; and when the population has no repeated atom
      and the lists only hold population atoms, the force it adds sums to
      zero over the population. */
  lemma LongRangeNetZero(atoms: seq<Atom>, neighborLists: map<nat, seq<Atom>>, P: map<Atom, Vec3>, G: real, k: real,
                         length: Vec3 -> real)
    requires Population.NoDup(atoms)
    requires forall id, b :: id in neighborLists && b in neighborLists[id] ==> b in atoms
    ensures NetChange(atoms, LocalContributions(atoms, neighborLists, P, G, k, length)) == Zero
  {
    var rows := LocalRows(atoms, neighborLists);
    var handled := ScheduleRows(rows, AtomId).handled;
    var cs := LocalContributions(atoms, neighborLists, P, G, k, length);
    ScheduleOrigin(rows, AtomId);
    ContributionsPairs(handled, P, G, k, length);
    forall i | 0 <= i < |cs| ensures cs[i].0 in atoms && cs[i].1 in atoms {
      var r :| 0 <= r < |rows| && handled[i].0 == rows[r].0 && handled[i].1 in rows[r].1;
      assert handled[i].1 in ListOf(neighborLists, atoms[r].id);
    }
    NetChangeZero(atoms, cs);
  }

  /** The pass handles each unordered neighbor pair at most once, and the key
      of every (atom, listed neighbor) is processed. */
  lemma LongRangePairsOnce(atoms: seq<Atom>, neighborLists: map<nat, seq<Atom>>)
    ensures var s := ScheduleRows(LocalRows(atoms, neighborLists), AtomId);
      (forall i, j :: 0 <= i < j < |s.handled| ==> KeyOf(s.handled[i], AtomId) != KeyOf(s.handled[j], AtomId)) &&
      (forall i, b :: 0 <= i < |atoms| && b in ListOf(neighborLists, atoms[i].id) ==> PairKey(atoms[i].id, b.id) in s.processed)
  {
    var rows := LocalRows(atoms, neighborLists);
    ScheduleAtMostOnce(rows, AtomId);
    ScheduleCovers(rows, AtomId);
    assert forall i :: 0 <= i < |atoms| ==> rows[i].0 == atoms[i] && rows[i].1 == ListOf(neighborLists, atoms[i].id);
  }

  /** The forces the contributions so far lead to, from the forces F0. */
  function Expected(members: set<Atom>, F0: map<Atom, Vec3>, cs: seq<(Atom, Atom, Vec3)>): map<Atom, Vec3>
    requires members <= F0.Keys
  {
    map b | b in members :: Add(F0[b], DeltaFor(b, cs))
  }

  /** The two writes of one contribution, the atom's first. */
  function ApplyShare(M: map<Atom, Vec3>, e: (Atom, Atom, Vec3)): map<Atom, Vec3>
    requires e.0 in M && e.1 in M
  {
    var M1 := M[e.0 := Add(M[e.0], e.2)];
    M1[e.1 := Add(M1[e.1], Neg(e.2))]
  }

  /** One contribution changes an object's force by exactly its share. */
  lemma ApplyShareAt(M: map<Atom, Vec3>, e: (Atom, Atom, Vec3), b: Atom)
    requires e.0 in M && e.1 in M && b in M
    ensures ApplyShare(M, e)[b] == Add(M[b], Share(b, e))
  {
    var M1 := M[e.0 := Add(M[e.0], e.2)];
    assert ApplyShare(M, e) == M1[e.1 := Add(M1[e.1], Neg(e.2))];
    var v := M[b];
    if e.0 == b && e.1 == b {
      assert M1[b] == Add(v, e.2);
      assert Share(b, e) == Add(e.2, Neg(e.2));
    } else if e.0 == b {
      assert M1[b] == Add(v, e.2);
      assert Share(b, e) == Add(e.2, Zero);
    } else if e.1 == b {
      assert M1[b] == v;
      assert Share(b, e) == Add(Zero, Neg(e.2));
    } else {
      assert M1[b] == v;
      assert Share(b, e) == Add(Zero, Zero);
    }
  }

  /** Appending a contribution performs its two writes. */
  lemma ExpectedAppend(members: set<Atom>, F0: map<Atom, Vec3>, cs: seq<(Atom, Atom, Vec3)>, e: (Atom, Atom, Vec3))
    requires members <= F0.Keys && e.0 in members && e.1 in members
    ensures Expected(members, F0, cs + [e]) == ApplyShare(Expected(members, F0, cs), e)
  {
    var M, M' := Expected(members, F0, cs), Expected(members, F0, cs + [e]);
    var N := ApplyShare(M, e);
    forall b | b in members ensures M'[b] == N[b] {
      DeltaForAppend(b, cs, e);
      assert M'[b] == Add(F0[b], Add(DeltaFor(b, cs), Share(b, e)));
      assert Add(F0[b], Add(DeltaFor(b, cs), Share(b, e))) == Add(M[b], Share(b, e));
      ApplyShareAt(M, e, b);
    }
    assert M'.Keys == N.Keys;
  }

  /** The heap holds the forces of the map on every member. */
  ghost predicate Holds(members: set<Atom>, M: map<Atom, Vec3>)
    reads members`force
  {
    forall b :: b in members ==> b in M && b.force == M[b]
  }

  ghost function ForcesOf(members: set<Atom>): map<Atom, Vec3>
    reads members`force
  {
    map b | b in members :: b.force
  }

  /** One write of the pass: heap and map change together. */
  method SetForce(ghost members: set<Atom>, ghost M: map<Atom, Vec3>, atom: Atom, v: Vec3)
    requires atom in members && Holds(members, M)
    modifies atom`force
    ensures Holds(members, M[atom := v])
  {
    atom.force := v;
  }

  /** Appending a pair appends its contribution. */
  lemma ContributionsAppend(handled: seq<(Atom, Atom)>, c: Atom, p: Atom, P: map<Atom, Vec3>, G: real, k: real,
                            length: Vec3 -> real)
    ensures Contributions(handled + [(c, p)], P, G, k, length) ==
      Contributions(handled, P, G, k, length) + [(c, p, PairForce(P, c, p, G, k, length))]
  {
    assert (handled + [(c, p)])[..|handled|] == handled;
  }

  /** The two writes of one handled pair: the atom gains the force and the
      neighbor loses it. */
  method ApplyPair(ghost members: set<Atom>, ghost F0: map<Atom, Vec3>, ghost cs: seq<(Atom, Atom, Vec3)>,
                   atom: Atom, neighbor: Atom, totalForce: Vec3)
    requires members <= F0.Keys && atom in members && neighbor in members
    requires Holds(members, Expected(members, F0, cs))
    modifies atom`force, neighbor`force
    ensures Holds(members, Expected(members, F0, cs + [(atom, neighbor, totalForce)]))
  {
    ghost var M := Expected(members, F0, cs);
    SetForce(members, M, atom, Add(atom.force, totalForce));
    ghost var M1 := M[atom := Add(M[atom], totalForce)];
    SetForce(members, M1, neighbor, Add(neighbor.force, Neg(totalForce)));
    ExpectedAppend(members, F0, cs, (atom, neighbor, totalForce));
  }

  /** The heap holds the positions of the map on every member. */
  ghost predicate Placed(members: set<Atom>, P: map<Atom, Vec3>)
    reads members`position
  {
    forall b :: b in members ==> b in P && b.position == P[b]
  }

  /** The inner loop of applyLongRangeForces over one atom's neighbors. */
  method ApplyRow(ghost members: set<Atom>, ghost F0: map<Atom, Vec3>, ghost P: map<Atom, Vec3>,
                  ghost s0: Schedule<Atom>, ghost cs0: seq<(Atom, Atom, Vec3)>,
                  atom: Atom, neighbors: seq<Atom>, processedPairs0: set<Key>, G: real, k: real, length: Vec3 -> real)
      returns (processedPairs: set<Key>, ghost s: Schedule<Atom>, ghost cs: seq<(Atom, Atom, Vec3)>)
    requires members <= F0.Keys && atom in members && forall b :: b in neighbors ==> b in members
    requires Placed(members, P)
    requires processedPairs0 == s0.processed && cs0 == Contributions(s0.handled, P, G, k, length)
    requires Holds(members, Expected(members, F0, cs0))
    modifies members`force
    ensures s == ScheduleRow(s0, atom, neighbors, AtomId) && processedPairs == s.processed
    ensures cs == Contributions(s.handled, P, G, k, length)
    ensures Holds(members, Expected(members, F0, cs))
  {
    processedPairs, s, cs := processedPairs0, s0, cs0;
    for j := 0 to |neighbors|
      invariant s == ScheduleRow(s0, atom, neighbors[..j], AtomId) && processedPairs == s.processed
      invariant cs == Contributions(s.handled, P, G, k, length)
      invariant Holds(members, Expected(members, F0, cs))
    {
      var neighbor := neighbors[j];
      assert neighbors[..j + 1][..j] == neighbors[..j];
      var pairKey := PairKey(atom.id, neighbor.id);
      if pairKey !in processedPairs {
        processedPairs := processedPairs + {pairKey};
        var totalForce := LongRangeForce(atom.position, atom.mass, atom.charge,
                                         neighbor.position, neighbor.mass, neighbor.charge, G, k, length);
        assert totalForce == PairForce(P, atom, neighbor, G, k, length);
        ContributionsAppend(s.handled, atom, neighbor, P, G, k, length);
        ApplyPair(members, F0, cs, atom, neighbor, totalForce);
        s := Schedule(s.processed + {pairKey}, s.handled + [(atom, neighbor)]);
        cs := cs + [(atom, neighbor, totalForce)];
      }
    }
    assert neighbors[..|neighbors|] == neighbors;
  }

  /** applyLongRangeForces: every member's force ends as its old force plus
      the changes of the handled contributions, whose forces come from the
      members' positions. */
  method ApplyLongRangeForces(atoms: seq<Atom>, neighborLists: map<nat, seq<Atom>>, G: real, k: real,
                              length: Vec3 -> real)
    modifies Members(atoms, neighborLists)`force
    ensures Holds(Members(atoms, neighborLists),
                  Expected(Members(atoms, neighborLists), old(ForcesOf(Members(atoms, neighborLists))),
                           LocalContributions(atoms, neighborLists, old(PositionsOf(Members(atoms, neighborLists))), G, k, length)))
  {
    ghost var members := Members(atoms, neighborLists);
    ghost var F0 := ForcesOf(members);
    ghost var P := PositionsOf(members);
    assert F0.Keys == members;
    ghost var rows := LocalRows(atoms, neighborLists);
    ghost var s: Schedule<Atom> := Schedule({}, []);
    ghost var cs: seq<(Atom, Atom, Vec3)> := [];
    var processedPairs: set<Key> := {};
    for i := 0 to |atoms|
      invariant s == ScheduleRows(rows[..i], AtomId) && processedPairs == s.processed
      invariant cs == Contributions(s.handled, P, G, k, length)
      invariant Placed(members, P) && Holds(members, Expected(members, F0, cs))
    {
      var atom := atoms[i];
      ScheduleRowsStep(rows, i, AtomId);
      assert rows[i] == (atom, ListOf(neighborLists, atom.id));
      ListedAreMembers(atoms, neighborLists, atom);
      processedPairs, s, cs := ApplyRow(members, F0, P, s, cs, atom, ListOf(neighborLists, atom.id), processedPairs, G, k, length);
    }
    assert rows[..|atoms|] == rows;
  }
}

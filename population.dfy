/** createAtoms (src/lib/atomFunctions.ts): builds the population and its
    random bond graph. The seeded generator is a stream of draws
    `random(0), random(1), ...` in [0, 1), consumed in call order; `start` is the
    first draw after the palette shuffle, whose result arrives as
    `shuffledColors`. */
module Population {
  import opened Vectors
  import opened AtomModel

  /** The 25 predefined atom colors. */
  const Palette: seq<Color> := [
    "#FF5733", "#33FF57", "#3357FF", "#F7DC6F", "#C70039",
    "#900C3F", "#581845", "#FFC300", "#DAF7A6", "#FF33A1",
    "#33FFF9", "#9933FF", "#F933FF", "#33FF77", "#77FF33",
    "#FFD700", "#FFA07A", "#20B2AA", "#87CEFA", "#778899",
    "#00FA9A", "#48D1CC", "#FF4500", "#DC143C", "#8B0000"
  ]

  /** `[...colors].sort(() => random() - 0.5)` returns some permutation of the palette. */
  ghost predicate PaletteShuffle(shuffledColors: seq<Color>) {
    multiset(shuffledColors) == multiset(Palette)
  }

  /** A shuffled palette keeps its 25 entries, so the color cycle has period 25. */
  lemma ShuffledLength(shuffledColors: seq<Color>)
    requires PaletteShuffle(shuffledColors)
    ensures |shuffledColors| == 25
  {
    assert |multiset(shuffledColors)| == |shuffledColors|;
    assert |multiset(Palette)| == |Palette|;
  }

  /** Every draw of the stream lies in [0, 1). */
  ghost predicate UnitDraws(random: nat -> real) {
    forall k :: 0.0 <= random(k) < 1.0
  }

  /** `(random() - 0.5) * dispersion`. */
  function Centered(r: real, dispersion: real): real {
    (r - 0.5) * dispersion
  }

  /** The drawn attributes of one atom. */
  datatype Draws = Draws(position: Vec3, velocity: Vec3, mass: real, charge: real, originalColor: Color)

  /** The attributes createAtoms gives atom i: its eight draws start at k, in
      the order position x, y, z, velocity x, y, z, mass, charge; the color
      cycles through the shuffled palette. */
  function AtomDraws(i: nat, k: nat, random: nat -> real, positionDispersion: real, velocityDispersion: real,
                     shuffledColors: seq<Color>): Draws
    requires |shuffledColors| > 0
  {
    Draws(Vec3(Centered(random(k), positionDispersion), Centered(random(k + 1), positionDispersion),
               Centered(random(k + 2), positionDispersion)),
          Vec3(Centered(random(k + 3), velocityDispersion), Centered(random(k + 4), velocityDispersion),
               Centered(random(k + 5), velocityDispersion)),
          random(k + 6) * 5.0 + 1.0,
          (random(k + 7) - 0.5) * 2.0,
          shuffledColors[i % |shuffledColors|])
  }

  lemma CenteredRange(r: real, dispersion: real)
    requires 0.0 <= r < 1.0 && dispersion >= 0.0
    ensures -dispersion / 2.0 <= Centered(r, dispersion) <= dispersion / 2.0
  {
    assert (r - 0.5) * dispersion <= 0.5 * dispersion;
    assert -0.5 * dispersion <= (r - 0.5) * dispersion;
  }

  /** Mass lies in [1, 6), charge in [-1, 1), and each position and velocity
      coordinate within half its dispersion of the origin. */
  lemma AtomDrawsRanges(i: nat, k: nat, random: nat -> real, positionDispersion: real, velocityDispersion: real,
                        shuffledColors: seq<Color>)
    requires UnitDraws(random) && |shuffledColors| > 0
    requires positionDispersion >= 0.0 && velocityDispersion >= 0.0
    ensures var d := AtomDraws(i, k, random, positionDispersion, velocityDispersion, shuffledColors);
      1.0 <= d.mass < 6.0 && -1.0 <= d.charge < 1.0 &&
      -positionDispersion / 2.0 <= d.position.x <= positionDispersion / 2.0 &&
      -positionDispersion / 2.0 <= d.position.y <= positionDispersion / 2.0 &&
      -positionDispersion / 2.0 <= d.position.z <= positionDispersion / 2.0 &&
      -velocityDispersion / 2.0 <= d.velocity.x <= velocityDispersion / 2.0 &&
      -velocityDispersion / 2.0 <= d.velocity.y <= velocityDispersion / 2.0 &&
      -velocityDispersion / 2.0 <= d.velocity.z <= velocityDispersion / 2.0
  {
    CenteredRange(random(k), positionDispersion);
    CenteredRange(random(k + 1), positionDispersion);
    CenteredRange(random(k + 2), positionDispersion);
    CenteredRange(random(k + 3), velocityDispersion);
    CenteredRange(random(k + 4), velocityDispersion);
    CenteredRange(random(k + 5), velocityDispersion);
    assert 0.0 <= random(k + 6) < 1.0 && 0.0 <= random(k + 7) < 1.0;
  }

  /** A freshly constructed atom carrying the drawn attributes. */
  ghost predicate Created(a: Atom, d: Draws)
    reads a`position, a`velocity, a`force, a`color
  {
    a.position == d.position && a.velocity == d.velocity && a.mass == d.mass && a.charge == d.charge &&
    a.originalColor == d.originalColor && a.color == d.originalColor && a.force == Zero
  }

  /** `Math.floor(r * n)` for a draw r in [0, 1) is a valid index into n atoms. */
  lemma CandidateIndex(r: real, n: nat)
    requires 0.0 <= r < 1.0 && n > 0
    ensures 0 <= (r * n as real).Floor < n
  {
    assert r * n as real < n as real;
  }

  function Cap(maxBondsPerAtom: int): nat {
    if maxBondsPerAtom < 0 then 0 else maxBondsPerAtom
  }

  predicate NoDup<T(==)>(s: seq<T>) {
    forall i, j :: 0 <= i < j < |s| ==> s[i] != s[j]
  }

  /** The bond lists of the population form a simple undirected graph on it:
      partners belong to the population, no atom is bonded to itself or twice
      to the same partner, the relation is symmetric, and no atom exceeds the cap. */
  ghost predicate BondGraph(atoms: seq<Atom>, maxBondsPerAtom: int)
    reads atoms`bonds
  {
    forall a :: a in atoms ==> WellBonded(atoms, maxBondsPerAtom, a)
  }

  /** The part of BondGraph about one atom `a` of the population. */
  ghost predicate WellBonded(atoms: seq<Atom>, maxBondsPerAtom: int, a: Atom)
    reads atoms`bonds, a`bonds
  {
    (forall b :: b in a.bonds ==> b in atoms) &&
    a !in a.bonds && NoDup(a.bonds) && |a.bonds| <= Cap(maxBondsPerAtom) &&
    (forall b :: b in atoms ==> (b in a.bonds <==> a in b.bonds))
  }

  /** One attempt of the bond loop: `candidate` is bonded to `atom` exactly
      when it is another atom, not yet a partner, and itself under the cap,
      and the bond appears on both sides. The graph stays simple, symmetric
      and capped. */
  method TryBond(atoms: seq<Atom>, atom: Atom, candidate: Atom, maxBondsPerAtom: int) returns (bonded: bool)
    requires atom in atoms && candidate in atoms
    requires BondGraph(atoms, maxBondsPerAtom)
    requires |atom.bonds| < maxBondsPerAtom
    modifies atom`bonds, candidate`bonds
    ensures bonded <==> candidate != atom && candidate !in old(atom.bonds) && |old(candidate.bonds)| < maxBondsPerAtom
    ensures bonded ==> atom.bonds == old(atom.bonds) + [candidate] && candidate.bonds == old(candidate.bonds) + [atom]
    ensures !bonded ==> atom.bonds == old(atom.bonds) && candidate.bonds == old(candidate.bonds)
    ensures BondGraph(atoms, maxBondsPerAtom)
  {
    bonded := candidate != atom && candidate !in atom.bonds && |candidate.bonds| < maxBondsPerAtom;
    if bonded {
      assert atom !in candidate.bonds;
      NoDupAppend(atom.bonds, candidate);
      NoDupAppend(candidate.bonds, atom);
      atom.AddBond(candidate);
      forall a | a in atoms ensures WellBonded(atoms, maxBondsPerAtom, a) {
        assert old(WellBonded(atoms, maxBondsPerAtom, a));
        forall b | b in atoms ensures b in a.bonds <==> a in b.bonds {
          assert old(WellBonded(atoms, maxBondsPerAtom, b));
        }
      }
    }
  }

  /** Appending a new element keeps a list free of repeats. */
  lemma NoDupAppend<T>(s: seq<T>, x: T)
    requires NoDup(s) && x !in s
    ensures NoDup(s + [x])
  {
  }

  /** One pass of the bond loop's body: draw k picks the candidate
      `atoms[Math.floor(random() * atoms.length)]`, and TryBond decides. The
      bond graph stays well formed. */
  method BondAttempt(atoms: seq<Atom>, atom: Atom, maxBondsPerAtom: int, random: nat -> real, k: nat)
    requires atom in atoms && UnitDraws(random)
    requires BondGraph(atoms, maxBondsPerAtom) && |atom.bonds| < maxBondsPerAtom
    modifies atoms`bonds
    ensures BondGraph(atoms, maxBondsPerAtom)
  {
    CandidateIndex(random(k), |atoms|);
    var potentialNeighbor := atoms[(random(k) * |atoms| as real).Floor];
    var _ := TryBond(atoms, atom, potentialNeighbor, maxBondsPerAtom);
  }

  /** The `while` loop for one atom: draws candidates until the atom reaches
      the cap or the attempt counter exceeds atomCount * 10. It consumes at
      most atomCount * 10 + 1 draws, and when it stops under the cap it has
      used all of them. */
  method BondAtom(atoms: seq<Atom>, atom: Atom, maxBondsPerAtom: int, random: nat -> real, k0: nat) returns (k: nat)
    requires atom in atoms && UnitDraws(random)
    requires BondGraph(atoms, maxBondsPerAtom)
    modifies atoms`bonds
    ensures BondGraph(atoms, maxBondsPerAtom)
    ensures k0 <= k <= k0 + |atoms| * 10 + 1
    ensures |atom.bonds| < maxBondsPerAtom ==> k == k0 + |atoms| * 10 + 1
  {
    var attempts := 0;
    k := k0;
    while |atom.bonds| < maxBondsPerAtom
      invariant BondGraph(atoms, maxBondsPerAtom)
      invariant 0 <= attempts <= |atoms| * 10 && k == k0 + attempts
      decreases |atoms| * 10 - attempts
    {
      BondAttempt(atoms, atom, maxBondsPerAtom, random, k);
      k := k + 1;
      attempts := attempts + 1;
      if attempts > |atoms| * 10 {
        break;
      }
    }
  }

  /** The most draws the bond loops of n atoms can consume: n * 10 + 1 each. */
  function DrawBound(n: nat): nat {
    n * (n * 10 + 1)
  }

  /** The `for (const atom of newAtoms)` loop: runs the bond loop of every
      atom in turn. */
  method AssignBonds(atoms: seq<Atom>, maxBondsPerAtom: int, random: nat -> real, k0: nat) returns (k: nat)
    requires UnitDraws(random)
    requires BondGraph(atoms, maxBondsPerAtom)
    modifies atoms`bonds
    ensures BondGraph(atoms, maxBondsPerAtom)
    ensures k0 <= k <= k0 + DrawBound(|atoms|)
  {
    k := k0;
    var perAtom := |atoms| * 10 + 1;
    for i := 0 to |atoms|
      invariant BondGraph(atoms, maxBondsPerAtom)
      invariant k0 <= k <= k0 + i * perAtom
    {
      k := BondAtom(atoms, atoms[i], maxBondsPerAtom, random, k);
      assert (i + 1) * perAtom == i * perAtom + perAtom;
    }
  }

  /** A population without bonds is a bond graph for any cap. */
  lemma UnbondedGraph(atoms: seq<Atom>, maxBondsPerAtom: int)
    requires forall i :: 0 <= i < |atoms| ==> atoms[i].bonds == []
    ensures BondGraph(atoms, maxBondsPerAtom)
  {
  }

  /** One iteration of the first loop of createAtoms: atom i from the eight
      draws starting at k. */
  method NewAtom(i: nat, k: nat, positionDispersion: real, velocityDispersion: real,
                 shuffledColors: seq<Color>, random: nat -> real)
    returns (atom: Atom)
    requires |shuffledColors| > 0
    ensures fresh(atom) && atom.id == i && atom.bonds == []
    ensures Created(atom, AtomDraws(i, k, random, positionDispersion, velocityDispersion, shuffledColors))
  {
    var position := Vec3(Centered(random(k), positionDispersion), Centered(random(k + 1), positionDispersion),
                         Centered(random(k + 2), positionDispersion));
    var velocity := Vec3(Centered(random(k + 3), velocityDispersion), Centered(random(k + 4), velocityDispersion),
                         Centered(random(k + 5), velocityDispersion));
    var mass := random(k + 6) * 5.0 + 1.0;
    var charge := (random(k + 7) - 0.5) * 2.0;
    var originalColor := shuffledColors[i % |shuffledColors|];
    atom := new Atom(i, position, velocity, mass, charge, originalColor);
  }

  /** The first loop of createAtoms: atomCount fresh, unbonded atoms, atom i
      with id i and the attributes of the eight draws starting at start + 8 * i. */
  method NewAtoms(atomCount: nat, positionDispersion: real, velocityDispersion: real,
                  shuffledColors: seq<Color>, random: nat -> real, start: nat)
    returns (atoms: seq<Atom>)
    requires |shuffledColors| > 0
    ensures |atoms| == atomCount
    ensures forall i :: 0 <= i < |atoms| ==> fresh(atoms[i]) && atoms[i].id == i && atoms[i].bonds == []
    ensures forall i :: 0 <= i < |atoms| ==>
      Created(atoms[i], AtomDraws(i, start + 8 * i, random, positionDispersion, velocityDispersion, shuffledColors))
  {
    atoms := [];
    var k := start;
    ghost var draws := seq(atomCount, j requires 0 <= j < atomCount =>
      AtomDraws(j, start + 8 * j, random, positionDispersion, velocityDispersion, shuffledColors));
    for i := 0 to atomCount
      invariant |atoms| == i && k == start + 8 * i
      invariant forall j :: 0 <= j < i ==> fresh(atoms[j]) && atoms[j].id == j && atoms[j].bonds == []
      invariant forall j :: 0 <= j < i ==> Created(atoms[j], draws[j])
    {
      var atom := NewAtom(i, k, positionDispersion, velocityDispersion, shuffledColors, random);
      assert Created(atom, draws[i]);
      atoms := atoms + [atom];
      k := k + 8;
    }
  }

  /** createAtoms: atomCount fresh atoms, atom i with id i and the attributes
      of its eight draws, joined by a simple, symmetric bond graph that
      respects the cap. Returns the index of the first unused draw. */
  method CreateAtoms(atomCount: nat, positionDispersion: real, velocityDispersion: real, maxBondsPerAtom: int,
                     shuffledColors: seq<Color>, random: nat -> real, start: nat)
    returns (atoms: seq<Atom>, next: nat)
    requires |shuffledColors| > 0
    requires UnitDraws(random)
    ensures |atoms| == atomCount
    ensures forall i :: 0 <= i < |atoms| ==> fresh(atoms[i])
    ensures forall i :: 0 <= i < |atoms| ==> atoms[i].id == i
    ensures forall i :: 0 <= i < |atoms| ==>
      Created(atoms[i], AtomDraws(i, start + 8 * i, random, positionDispersion, velocityDispersion, shuffledColors))
    ensures BondGraph(atoms, maxBondsPerAtom)
    ensures start + 8 * atomCount <= next <= start + 8 * atomCount + DrawBound(atomCount)
  {
    atoms := NewAtoms(atomCount, positionDispersion, velocityDispersion, shuffledColors, random, start);
    UnbondedGraph(atoms, maxBondsPerAtom);
    next := AssignBonds(atoms, maxBondsPerAtom, random, start + 8 * atomCount);
  }

  /** In a bond graph over atoms with distinct ids, every bond list is
      well formed for applyVibrationalForce: partner ids are distinct from
      each other and from the atom's own. */
  lemma BondListsWellFormed(atoms: seq<Atom>, maxBondsPerAtom: int, a: Atom)
    requires BondGraph(atoms, maxBondsPerAtom) && DistinctIds(atoms) && a in atoms
    ensures DistinctIds(a.bonds)
    ensures forall j :: 0 <= j < |a.bonds| ==> a.bonds[j].id != a.id
  {
    forall x, y | x in atoms && y in atoms && x != y ensures x.id != y.id {
      var i :| 0 <= i < |atoms| && atoms[i] == x;
      var j :| 0 <= j < |atoms| && atoms[j] == y;
      if i < j {
        assert atoms[i].id != atoms[j].id;
      } else {
        assert atoms[j].id != atoms[i].id;
      }
    }
    forall i, j | 0 <= i < j < |a.bonds| ensures a.bonds[i].id != a.bonds[j].id {
      assert a.bonds[i] in atoms && a.bonds[j] in atoms && a.bonds[i] != a.bonds[j];
    }
    forall j | 0 <= j < |a.bonds| ensures a.bonds[j].id != a.id {
      assert a.bonds[j] in atoms && a.bonds[j] != a;
    }
  }
}

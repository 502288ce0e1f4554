/** One simulation tick (src/lib/atomFunctions.ts): the sequential path
    `updateAtomsSequential`, which runs the local force passes, the neighbor
    lists, the long-range pass, the color pass and the integration on the
    Atom objects, and the per-atom merge of the worker answers that ends
    `updateAtomsSequential2` and `updateAtomsParallel`. */
module Tick {
  import opened Vectors
  import opened AtomModel
  import opened NeighborLists
  import LongRange
  import ColorPropagation
  import Population

  /** `shortRangeForces[id] || [0, 0, 0]` plus `longRangeForces[id] || [0, 0, 0]`:
      a missing entry counts as zero. */
  function MergedForce(shortRangeForces: map<nat, Vec3>, longRangeForces: map<nat, Vec3>, id: nat): (f: Vec3)
    ensures id in shortRangeForces && id in longRangeForces ==> f == Add(shortRangeForces[id], longRangeForces[id])
    ensures id in shortRangeForces && id !in longRangeForces ==> f == shortRangeForces[id]
    ensures id !in shortRangeForces && id in longRangeForces ==> f == longRangeForces[id]
    ensures id !in shortRangeForces && id !in longRangeForces ==> f == Zero
  {
    Add(ForceAt(shortRangeForces, id), ForceAt(longRangeForces, id))
  }

  /** The merge for one atom: the velocity advances by the merged force over
      the mass times dt, then the position by the NEW velocity times dt; the
      color is the answered one unless it is missing or empty, in which case
      it is the original color. The accumulated `force` field is neither read
      nor reset. */
  method MergeAtom(atom: Atom, shortRangeForces: map<nat, Vec3>, longRangeForces: map<nat, Vec3>,
                   colors: map<nat, Color>, deltaTime: real)
    requires atom.mass != 0.0
    modifies atom`velocity, atom`position, atom`color
    ensures (atom.position, atom.velocity) ==
      EulerStep(old(atom.position), old(atom.velocity), MergedForce(shortRangeForces, longRangeForces, atom.id),
                atom.mass, deltaTime)
    ensures atom.color == ColorOr(colors, atom.id, atom.originalColor)
    ensures atom.force == old(atom.force)
  {
    var totalForce := MergedForce(shortRangeForces, longRangeForces, atom.id);
    var acceleration := Div(totalForce, atom.mass);
    atom.velocity := Add(atom.velocity, Scale(acceleration, deltaTime));
    atom.position := Add(atom.position, Scale(atom.velocity, deltaTime));
    atom.color := ColorOr(colors, atom.id, atom.originalColor);
  }

  /** The merge block of the worker paths: `atoms.forEach` of MergeAtom. */
  method MergeWorkerResults(atoms: seq<Atom>, shortRangeForces: map<nat, Vec3>, longRangeForces: map<nat, Vec3>,
                            colors: map<nat, Color>, deltaTime: real)
    requires DistinctIds(atoms) && forall i :: 0 <= i < |atoms| ==> atoms[i].mass != 0.0
    modifies atoms`velocity, atoms`position, atoms`color
    ensures forall i :: 0 <= i < |atoms| ==>
      (atoms[i].position, atoms[i].velocity) ==
        EulerStep(old(atoms[i].position), old(atoms[i].velocity),
                  MergedForce(shortRangeForces, longRangeForces, atoms[i].id), atoms[i].mass, deltaTime) &&
      atoms[i].color == ColorOr(colors, atoms[i].id, atoms[i].originalColor)
  {
    for i := 0 to |atoms|
      invariant forall j :: 0 <= j < i ==>
        (atoms[j].position, atoms[j].velocity) ==
          EulerStep(old(atoms[j].position), old(atoms[j].velocity),
                    MergedForce(shortRangeForces, longRangeForces, atoms[j].id), atoms[j].mass, deltaTime) &&
        atoms[j].color == ColorOr(colors, atoms[j].id, atoms[j].originalColor)
      invariant forall j :: i <= j < |atoms| ==>
        atoms[j].position == old(atoms[j].position) && atoms[j].velocity == old(atoms[j].velocity)
    {
      MergeAtom(atoms[i], shortRangeForces, longRangeForces, colors, deltaTime);
    }
  }

  /** The lists calculateNeighborLists builds hold only population atoms. */
  lemma MembersArePopulation(atoms: seq<Atom>, cutoff: real, neighborLists: map<nat, seq<Atom>>)
    requires DistinctIds(atoms)
    requires neighborLists.Keys == set i | 0 <= i < |atoms| :: atoms[i].id
    requires forall i :: 0 <= i < |atoms| && LastWithId(atoms, i) ==>
      neighborLists[atoms[i].id] == NeighborsOf(atoms, atoms[i], cutoff)
    ensures forall b :: b in Members(atoms, neighborLists) ==> b in atoms
  {
    NeighborListsOfDistinct(atoms, cutoff, neighborLists);
  }

  /** The `atoms.forEach` of updateAtomsSequential that applies the local
      bond forces: applyVibrationalForce then applyRotationalForce of each
      atom in turn. Only forces change. */
  method ApplyLocalForces(atoms: seq<Atom>, springConstant: real, rotationalConstant: real, length: Vec3 -> real,
                          rotational: (real, Vec3, Vec3, Vec3) -> Vec3, ghost maxBondsPerAtom: int)
    requires Population.BondGraph(atoms, maxBondsPerAtom) && DistinctIds(atoms)
    modifies (set a | a in atoms)`force
  {
    for i := 0 to |atoms|
      invariant Population.BondGraph(atoms, maxBondsPerAtom)
    {
      var atom := atoms[i];
      Population.BondListsWellFormed(atoms, maxBondsPerAtom, atom);
      assert forall b :: b in atom.bonds ==> b in atoms;
      atom.ApplyVibrationalForce(springConstant, length);
      atom.ApplyRotationalForce(rotationalConstant, rotational);
    }
  }

  /** The closing `atoms.forEach(atom => atom.updatePosVelByDelta(deltaTime))`. */
  method IntegrateAll(atoms: seq<Atom>, deltaTime: real)
    requires DistinctIds(atoms) && forall i :: 0 <= i < |atoms| ==> atoms[i].mass != 0.0
    modifies atoms`force, atoms`velocity, atoms`position
    ensures forall i :: 0 <= i < |atoms| ==>
      (atoms[i].position, atoms[i].velocity) ==
        EulerStep(old(atoms[i].position), old(atoms[i].velocity), old(atoms[i].force), atoms[i].mass, deltaTime) &&
      atoms[i].force == Zero
  {
    for i := 0 to |atoms|
      invariant forall j :: 0 <= j < i ==>
        (atoms[j].position, atoms[j].velocity) ==
          EulerStep(old(atoms[j].position), old(atoms[j].velocity), old(atoms[j].force), atoms[j].mass, deltaTime) &&
        atoms[j].force == Zero
      invariant forall j :: i <= j < |atoms| ==>
        atoms[j].position == old(atoms[j].position) && atoms[j].velocity == old(atoms[j].velocity) &&
        atoms[j].force == old(atoms[j].force)
    {
      atoms[i].UpdatePosVelByDelta(deltaTime);
    }
  }

  /** updateAtomsSequential: the local bond forces of every atom, the
      neighbor lists, the long-range pass, the color pass and the integration
      of every atom. Bonds are not in the frame, so the bond graph is left as
      it was, and every atom's force ends reset to zero. */
  method UpdateAtomsSequential(atoms: seq<Atom>, deltaTime: real, cutoff: real, springConstant: real,
                               rotationalConstant: real, G: real, k: real, length: Vec3 -> real,
                               rotational: (real, Vec3, Vec3, Vec3) -> Vec3, ghost maxBondsPerAtom: int)
    requires Population.BondGraph(atoms, maxBondsPerAtom) && DistinctIds(atoms)
    requires forall i :: 0 <= i < |atoms| ==> atoms[i].mass != 0.0
    modifies atoms`force, atoms`velocity, atoms`position, atoms`color
    ensures forall i :: 0 <= i < |atoms| ==> atoms[i].force == Zero
  {
    ApplyLocalForces(atoms, springConstant, rotationalConstant, length, rotational, maxBondsPerAtom);
    var neighborLists := CalculateNeighborLists(atoms, cutoff);
    MembersArePopulation(atoms, cutoff, neighborLists);
    LongRange.ApplyLongRangeForces(atoms, neighborLists, G, k, length);
    ColorPropagation.UpdateAtomColorsByNeighborhood(atoms, neighborLists);
    IntegrateAll(atoms, deltaTime);
  }

  lemma Twice(x: Vec3, f: Vec3)
    ensures Add(Add(x, f), Neg(Neg(f))) == Add(x, Scale(f, 2.0))
    ensures Add(Add(x, Neg(f)), Neg(f)) == Add(x, Scale(Neg(f), 2.0))
  {
  }

  /** applyVibrationalForce on an atom whose only partner is `other`: the
      atom gains the bond force and the partner loses it. */
  method ApplySingleBond(atom: Atom, other: Atom, springConstant: real, length: Vec3 -> real)
    requires atom.id != other.id && atom.bonds == [other]
    modifies atom`force, other`force
    ensures atom.force == Add(old(atom.force), LocalVibrationalForce(atom.position, other.position, springConstant, length))
    ensures other.force == Add(old(other.force), Neg(LocalVibrationalForce(atom.position, other.position, springConstant, length)))
  {
    var f := LocalVibrationalForce(atom.position, other.position, springConstant, length);
    var v := VibrationalForces(atom.position, [other.position], springConstant, length);
    assert v == [f] && v[..0] == [];
    assert Positions([other]) == [other.position];
    atom.ApplyVibrationalForce(springConstant, length);
  }

  /** The double count of the sequential path: applyVibrationalForce's
      processed set is local to one call, so for two atoms bonded only to
      each other (with a norm that ignores the sign of its argument) the
      calls of updateAtomsSequential, in its order (each atom's vibrational
      then rotational force), add the bond force TWICE to each end. The
      rotational calls add nothing: one bond forms no pair. */
  method VibrationalDoubleCount(a: Atom, b: Atom, springConstant: real, rotationalConstant: real,
                                length: Vec3 -> real, rotational: (real, Vec3, Vec3, Vec3) -> Vec3)
    requires a.id != b.id && a.bonds == [b] && b.bonds == [a]
    requires length(Sub(a.position, b.position)) == length(Sub(b.position, a.position))
    modifies a`force, b`force
    ensures a.force == Add(old(a.force), Scale(LocalVibrationalForce(a.position, b.position, springConstant, length), 2.0))
    ensures b.force == Add(old(b.force), Scale(LocalVibrationalForce(b.position, a.position, springConstant, length), 2.0))
  {
    var f := LocalVibrationalForce(a.position, b.position, springConstant, length);
    LocalVibrationalForceAntisymmetric(a.position, b.position, springConstant, length);
    Twice(a.force, f);
    Twice(b.force, f);
    PairIndex.PairsShort(1);
    ApplySingleBond(a, b, springConstant, length);
    a.ApplyRotationalForce(rotationalConstant, rotational);
    ApplySingleBond(b, a, springConstant, length);
    b.ApplyRotationalForce(rotationalConstant, rotational);
  }
}

/** The Atom entity of src/models/Atom.ts: a particle whose position, velocity,
    accumulated force, display color and bond list are updated in place. */
module AtomModel {
  import opened Vectors
  import opened PairIndex
  import opened Rotation

  type Color = string

  /** Equilibrium bond length used by both vibrational force formulas. */
  const RestLength: real := 1.0

  /** JavaScript `value || fallback` on a color string: an absent entry or the
      empty string (the one falsy string) falls back. */
  function ColorOr(colors: map<nat, Color>, id: nat, fallback: Color): Color {
    if id in colors && colors[id] != "" then colors[id] else fallback
  }

  /** The per-bond force of `applyVibrationalForce` on the atom at `p` from its
      partner at `q`: along the normalized direction p -> q, scaled by
      springConstant * (distance - RestLength). `length` is the Euclidean norm
      (a square root, which the model leaves abstract). */
  function LocalVibrationalForce(p: Vec3, q: Vec3, springConstant: real, length: Vec3 -> real): Vec3 {
    var displacement := length(Sub(p, q)) - RestLength;
    var direction := Sub(q, p);
    Scale(Normalize(direction, length(direction)), springConstant * displacement)
  }

  /** A (degenerate) self-bond produces no force, whatever the norm function. */
  lemma LocalVibrationalForceSelf(p: Vec3, springConstant: real, length: Vec3 -> real)
    ensures LocalVibrationalForce(p, p, springConstant, length) == Zero
  {
    assert Sub(p, p) == Zero;
  }

  /** Action and reaction: for a norm that ignores the sign of its argument, the
      force on q from p is the opposite of the force on p from q. */
  lemma LocalVibrationalForceAntisymmetric(p: Vec3, q: Vec3, springConstant: real, length: Vec3 -> real)
    requires length(Sub(p, q)) == length(Sub(q, p))
    ensures LocalVibrationalForce(q, p, springConstant, length) == Neg(LocalVibrationalForce(p, q, springConstant, length))
  {
    var d := Sub(q, p);
    assert Sub(p, q) == Neg(d);
    if length(d) != 0.0 {
      assert Div(Neg(d), length(d)) == Neg(Div(d, length(d)));
    }
  }

  /** The vibrational forces `applyVibrationalForce` adds for each bond partner position in qs. */
  function VibrationalForces(p: Vec3, qs: seq<Vec3>, springConstant: real, length: Vec3 -> real): seq<Vec3> {
    seq(|qs|, i requires 0 <= i < |qs| => LocalVibrationalForce(p, qs[i], springConstant, length))
  }

  /** Semi-implicit Euler: the velocity is advanced by force / mass * dt first, and
      the position by the NEW velocity * dt. Result: (position, velocity). */
  function EulerStep(position: Vec3, velocity: Vec3, force: Vec3, mass: real, dt: real): (Vec3, Vec3)
    requires mass != 0.0
  {
    var v := Add(velocity, Scale(Div(force, mass), dt));
    (Add(position, Scale(v, dt)), v)
  }

  /** The position update of EulerStep uses the updated velocity, so it moves by
      v * dt + (force / mass) * dt^2 (explicit Euler would move by v * dt only),
      and the velocity changes by exactly (force / mass) * dt. */
  lemma EulerStepSemiImplicit(position: Vec3, velocity: Vec3, force: Vec3, mass: real, dt: real)
    requires mass != 0.0
    ensures EulerStep(position, velocity, force, mass, dt).0
         == Add(Add(position, Scale(velocity, dt)), Scale(Div(force, mass), dt * dt))
    ensures Sub(EulerStep(position, velocity, force, mass, dt).1, velocity) == Scale(Div(force, mass), dt)
  {
    var a := Div(force, mass);
    assert (velocity.x + a.x * dt) * dt == velocity.x * dt + a.x * (dt * dt);
    assert (velocity.y + a.y * dt) * dt == velocity.y * dt + a.y * (dt * dt);
    assert (velocity.z + a.z * dt) * dt == velocity.z * dt + a.z * (dt * dt);
  }

  /** Without force the velocity is kept and the motion is inertial. */
  lemma EulerStepInertial(position: Vec3, velocity: Vec3, mass: real, dt: real)
    requires mass != 0.0
    ensures EulerStep(position, velocity, Zero, mass, dt) == (Add(position, Scale(velocity, dt)), velocity)
  {
    assert 0.0 / mass == 0.0;
    assert Div(Zero, mass) == Zero;
    assert Scale(Zero, dt) == Zero;
    assert Add(velocity, Zero) == velocity;
  }

  class Atom {
    const id: nat
    var position: Vec3
    var velocity: Vec3
    var force: Vec3
    const mass: real
    const charge: real
    var color: Color
    const originalColor: Color
    var bonds: seq<Atom>

    /** A new atom starts with its original color, zero force and no bonds. */
    constructor (id: nat, position: Vec3 := Zero, velocity: Vec3 := Zero, mass: real := 1.0,
                 charge: real := 0.0, originalColor: Color := "#ffffff")
      ensures this.id == id && this.position == position && this.velocity == velocity
      ensures this.mass == mass && this.charge == charge
      ensures this.originalColor == originalColor && this.color == originalColor
      ensures this.force == Zero && this.bonds == []
    {
      this.id := id;
      this.position := position;
      this.velocity := velocity;
      this.force := Zero;
      this.mass := mass;
      this.charge := charge;
      this.color := originalColor;
      this.originalColor := originalColor;
      this.bonds := [];
    }

    /** Adds `atom` to this atom's bonds unless it is already there, and then
        (through the mutual call) this atom to `atom`'s bonds unless it is
        already there. Only the two bond lists change. */
    method AddBond(atom: Atom)
      modifies this`bonds, atom`bonds
      ensures bonds == if atom in old(bonds) then old(bonds) else old(bonds) + [atom]
      ensures atom != this ==>
        atom.bonds == if atom in old(bonds) || this in old(atom.bonds) then old(atom.bonds) else old(atom.bonds) + [this]
      ensures atom in bonds
      ensures atom !in old(bonds) ==> this in atom.bonds
      decreases (if atom in bonds then 0 else 1) + (if this in atom.bonds then 0 else 1)
    {
      if atom !in bonds {
        bonds := bonds + [atom];
        atom.AddBond(this);
      }
    }

    /** One step of applyVibrationalForce's `forEach`: a pair key already
        processed is skipped; otherwise the key is recorded and the bond force
        is added here and subtracted from `other`. */
    method ApplyBondPair(other: Atom, springConstant: real, length: Vec3 -> real, processedPairs: set<Key>)
      returns (processed: set<Key>)
      requires other != this
      modifies this`force, other`force
      ensures PairKey(id, other.id) in processedPairs ==>
        processed == processedPairs && force == old(force) && other.force == old(other.force)
      ensures PairKey(id, other.id) !in processedPairs ==>
        processed == processedPairs + {PairKey(id, other.id)} &&
        force == Add(old(force), LocalVibrationalForce(position, other.position, springConstant, length)) &&
        other.force == Add(old(other.force), Neg(LocalVibrationalForce(position, other.position, springConstant, length)))
    {
      var pairKey := PairKey(id, other.id);
      if pairKey in processedPairs {
        return processedPairs;
      }
      processed := processedPairs + {pairKey};
      var f := LocalVibrationalForce(position, other.position, springConstant, length);
      force := Add(force, f);
      other.force := Add(other.force, Neg(f));
    }

    /** Progress of ApplyVibrationalForce after visiting partners[..i]: the
        visited keys are recorded, this atom has gained the first i bond forces
        and each visited partner has lost its own. */
    ghost predicate VibrationalProgress(partners: seq<Atom>, i: nat, processedPairs: set<Key>,
                                        force0: Vec3, F0: seq<Vec3>, vib: seq<Vec3>)
      reads this`force, partners`force
    {
      i <= |partners| && |F0| == |partners| && |vib| == |partners| &&
      processedPairs == PairKeys(id, partners[..i]) &&
      force == Add(force0, Sum(vib[..i])) &&
      (forall j :: 0 <= j < i ==> partners[j].force == Add(F0[j], Neg(vib[j]))) &&
      (forall j :: i <= j < |partners| ==> partners[j].force == F0[j])
    }

    method VibrationalStep(partners: seq<Atom>, i: nat, processedPairs: set<Key>, springConstant: real,
                           length: Vec3 -> real, ghost force0: Vec3, ghost F0: seq<Vec3>, ghost vib: seq<Vec3>)
      returns (processed: set<Key>)
      requires i < |partners|
      requires DistinctIds(partners) && forall j :: 0 <= j < |partners| ==> partners[j].id != id
      requires vib == VibrationalForces(position, Positions(partners), springConstant, length)
      requires VibrationalProgress(partners, i, processedPairs, force0, F0, vib)
      modifies this`force, partners`force
      ensures VibrationalProgress(partners, i + 1, processed, force0, F0, vib)
    {
      var other := partners[i];
      PairKeysFresh(id, partners[..i], other.id);
      processed := ApplyBondPair(other, springConstant, length, processedPairs);
      assert partners[..i + 1][..i] == partners[..i];
      assert vib[..i + 1][..i] == vib[..i];
    }

    /** applyVibrationalForce: for each bond partner, once per pair key, adds
        the bond force to this atom and its opposite to the partner. The
        partners are those of a well-formed bond list: ids distinct from each
        other and from this atom's. The net force added over the atom and its
        partners is zero. */
    method ApplyVibrationalForce(springConstant: real, length: Vec3 -> real)
      requires DistinctIds(bonds)
      requires forall j :: 0 <= j < |bonds| ==> bonds[j].id != id
      modifies this`force, bonds`force
      ensures force == Add(old(force), Sum(old(VibrationalForces(position, Positions(bonds), springConstant, length))))
      ensures forall i :: 0 <= i < |bonds| ==>
        bonds[i].force == Add(old(bonds[i].force), Neg(old(VibrationalForces(position, Positions(bonds), springConstant, length))[i]))
      ensures Add(force, Sum(Forces(bonds))) == old(Add(force, Sum(Forces(bonds))))
    {
      var partners := bonds;
      ghost var vib := VibrationalForces(position, Positions(partners), springConstant, length);
      ghost var F0 := Forces(partners);
      var processedPairs: set<Key> := {};
      var i := 0;
      while i < |partners|
        invariant i <= |partners|
        invariant vib == VibrationalForces(position, Positions(partners), springConstant, length)
        invariant VibrationalProgress(partners, i, processedPairs, old(force), F0, vib)
      {
        processedPairs := VibrationalStep(partners, i, processedPairs, springConstant, length, old(force), F0, vib);
        i := i + 1;
      }
      assert vib[..i] == vib;
      ForcesShifted(partners, F0, vib);
      NetZero(old(force), F0, vib);
    }

    /** applyRotationalForce: for every pair i < j of bond partners, in loop
        order, adds the rotational contribution to this atom's force; no other
        state changes. */
    method ApplyRotationalForce(rotationalConstant: real, rotational: (real, Vec3, Vec3, Vec3) -> Vec3)
      modifies this`force
      ensures force == Accumulate(old(force), Pairs(|bonds|), rotationalConstant, position, Positions(bonds), rotational)
    {
      var n := |bonds|;
      ghost var qs := Positions(bonds);
      var i := 0;
      while i < n
        invariant 0 <= i <= n
        invariant force == RowsFrom(old(force), i, n, rotationalConstant, position, qs, rotational)
      {
        var j := i + 1;
        while j < n
          invariant i + 1 <= j <= n
          invariant force == RowFrom(RowsFrom(old(force), i, n, rotationalConstant, position, qs, rotational),
                                     i, i + 1, j, rotationalConstant, position, qs, rotational)
        {
          var atom1 := bonds[i];
          var atom2 := bonds[j];
          var f := rotational(rotationalConstant, position, atom1.position, atom2.position);
          assert f == RotationalTerm((i, j), rotationalConstant, position, qs, rotational);
          force := Add(force, f);
          j := j + 1;
        }
        i := i + 1;
      }
      RowsFromAccumulates(old(force), n, n, rotationalConstant, position, qs, rotational);
    }

    /** Integrates one time step from the accumulated force, then resets the force. */
    method UpdatePosVelByDelta(deltaTime: real)
      requires mass != 0.0
      modifies this`velocity, this`position, this`force
      ensures (position, velocity) == EulerStep(old(position), old(velocity), old(force), mass, deltaTime)
      ensures force == Zero
    {
      velocity := Add(velocity, Scale(Div(force, mass), deltaTime));
      position := Add(position, Scale(velocity, deltaTime));
      force := Zero;
    }
  }

  /** No two atoms of the sequence share an id (ids are generated unique). */
  predicate DistinctIds(atoms: seq<Atom>) {
    forall i, j :: 0 <= i < j < |atoms| ==> atoms[i].id != atoms[j].id
  }

  ghost function Positions(atoms: seq<Atom>): (r: seq<Vec3>)
    reads atoms`position
    ensures |r| == |atoms| && forall i :: 0 <= i < |atoms| ==> r[i] == atoms[i].position
  {
    if atoms == [] then [] else Positions(atoms[..|atoms| - 1]) + [atoms[|atoms| - 1].position]
  }

  ghost function Forces(atoms: seq<Atom>): (r: seq<Vec3>)
    reads atoms`force
    ensures |r| == |atoms| && forall i :: 0 <= i < |atoms| ==> r[i] == atoms[i].force
  {
    if atoms == [] then [] else Forces(atoms[..|atoms| - 1]) + [atoms[|atoms| - 1].force]
  }

  /** The keys of the pairs (c, a.id) for the atoms a of s: the processed-pair
      set after visiting s. */
  function PairKeys(c: nat, s: seq<Atom>): set<Key> {
    if s == [] then {} else PairKeys(c, s[..|s| - 1]) + {PairKey(c, s[|s| - 1].id)}
  }

  lemma {:induction false} PairKeysFresh(c: nat, s: seq<Atom>, x: nat)
    requires forall j :: 0 <= j < |s| ==> s[j].id != x
    ensures PairKey(c, x) !in PairKeys(c, s)
    decreases |s|
  {
    if s != [] {
      PairKeysFresh(c, s[..|s| - 1], x);
      PairKeyUnordered(c, s[|s| - 1].id, c, x);
    }
  }

  lemma ForcesShifted(atoms: seq<Atom>, F0: seq<Vec3>, v: seq<Vec3>)
    requires |F0| == |atoms| == |v|
    requires forall j :: 0 <= j < |atoms| ==> atoms[j].force == Add(F0[j], Neg(v[j]))
    ensures Forces(atoms) == Subtract(F0, v)
  {
  }
}

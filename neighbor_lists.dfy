/** calculateNeighborLists (src/lib/atomFunctions.ts): for every atom, the
    other atoms of the population within the cutoff distance, keyed by id. */
module NeighborLists {
  import opened Vectors
  import opened AtomModel
  import RecordIndex

  /** `atoms.filter(other => other !== atom && distance <= cutoff)`: the atoms
      other than `atom` (compared by reference) within the cutoff. */
  function NeighborsOf(atoms: seq<Atom>, atom: Atom, cutoff: real): (r: seq<Atom>)
    reads atoms`position, atom`position
    ensures forall k :: 0 <= k < |r| ==> r[k] in atoms && r[k] != atom && WithinCutoff(atom.position, r[k].position, cutoff)
    ensures forall k :: 0 <= k < |atoms| && atoms[k] != atom && WithinCutoff(atom.position, atoms[k].position, cutoff) ==>
      atoms[k] in r
    ensures |r| <= |atoms|
  {
    if atoms == [] then []
    else
      var other := atoms[|atoms| - 1];
      NeighborsOf(atoms[..|atoms| - 1], atom, cutoff) +
        (if other != atom && WithinCutoff(atom.position, other.position, cutoff) then [other] else [])
  }

  /** The filter keeps population order: filtering a population split in two
      lists the survivors of the first part before those of the second. */
  lemma {:induction false} NeighborsOfAppend(s: seq<Atom>, t: seq<Atom>, atom: Atom, cutoff: real)
    ensures NeighborsOf(s + t, atom, cutoff) == NeighborsOf(s, atom, cutoff) + NeighborsOf(t, atom, cutoff)
    decreases |t|
  {
    if t == [] {
      assert s + t == s;
    } else {
      var t' := t[..|t| - 1];
      assert (s + t)[..|s + t| - 1] == s + t';
      NeighborsOfAppend(s, t', atom, cutoff);
    }
  }

  /** The neighbor relation is symmetric and irreflexive within a population. */
  lemma NeighborsSymmetric(atoms: seq<Atom>, a: Atom, b: Atom, cutoff: real)
    requires a in atoms && b in atoms
    ensures b in NeighborsOf(atoms, a, cutoff) <==> a in NeighborsOf(atoms, b, cutoff)
    ensures a !in NeighborsOf(atoms, a, cutoff)
  {
    WithinCutoffSymmetric(a.position, b.position, cutoff);
  }

  /** No later atom of the population shares the id of atoms[i]: its entry is
      the one that survives in a map keyed by id. */
  predicate LastWithId(atoms: seq<Atom>, i: nat)
    requires i < |atoms|
  {
    forall j :: i < j < |atoms| ==> atoms[j].id != atoms[i].id
  }

  /** calculateNeighborLists: one entry per atom id, holding the filtered
      neighbor list of the last atom with that id. */
  method CalculateNeighborLists(atoms: seq<Atom>, cutoff: real) returns (neighborsMap: map<nat, seq<Atom>>)
    ensures neighborsMap.Keys == set i | 0 <= i < |atoms| :: atoms[i].id
    ensures forall i :: 0 <= i < |atoms| && LastWithId(atoms, i) ==>
      neighborsMap[atoms[i].id] == NeighborsOf(atoms, atoms[i], cutoff)
  {
    neighborsMap := map[];
    ghost var ids := seq(|atoms|, i requires 0 <= i < |atoms| => atoms[i].id);
    ghost var lists := seq(|atoms|, i requires 0 <= i < |atoms| reads atoms`position => NeighborsOf(atoms, atoms[i], cutoff));
    for n := 0 to |atoms|
      invariant RecordIndex.LastWins(ids, lists, n, neighborsMap)
    {
      var atom := atoms[n];
      var neighbors := NeighborsOf(atoms, atom, cutoff);
      RecordIndex.LastWinsStep(ids, lists, n, neighborsMap);
      neighborsMap := neighborsMap[atom.id := neighbors];
    }
    ListsOfLastWins(atoms, cutoff, ids, lists, neighborsMap);
  }

  /** The finished forEach: every id of the population is a key, holding the
      list of the last atom with that id. */
  lemma ListsOfLastWins(atoms: seq<Atom>, cutoff: real, ids: seq<nat>, lists: seq<seq<Atom>>,
                        m: map<nat, seq<Atom>>)
    requires |ids| == |lists| == |atoms|
    requires forall i :: 0 <= i < |atoms| ==> ids[i] == atoms[i].id && lists[i] == NeighborsOf(atoms, atoms[i], cutoff)
    requires RecordIndex.LastWins(ids, lists, |atoms|, m)
    ensures m.Keys == set i | 0 <= i < |atoms| :: atoms[i].id
    ensures forall i :: 0 <= i < |atoms| && LastWithId(atoms, i) ==>
      m[atoms[i].id] == NeighborsOf(atoms, atoms[i], cutoff)
  {
    assert (set i | 0 <= i < |atoms| :: ids[i]) == set i | 0 <= i < |atoms| :: atoms[i].id;
    forall i | 0 <= i < |atoms| && LastWithId(atoms, i)
      ensures m[atoms[i].id] == NeighborsOf(atoms, atoms[i], cutoff)
    {
      assert forall j :: i < j < |atoms| ==> ids[j] != ids[i];
    }
  }

  /** With distinct ids every atom's own list is in the map, and the map's
      lists never contain their own atom and only hold population members. */
  lemma NeighborListsOfDistinct(atoms: seq<Atom>, cutoff: real, neighborsMap: map<nat, seq<Atom>>)
    requires DistinctIds(atoms)
    requires forall i :: 0 <= i < |atoms| && LastWithId(atoms, i) ==>
      atoms[i].id in neighborsMap && neighborsMap[atoms[i].id] == NeighborsOf(atoms, atoms[i], cutoff)
    ensures forall i :: 0 <= i < |atoms| ==>
      atoms[i].id in neighborsMap && neighborsMap[atoms[i].id] == NeighborsOf(atoms, atoms[i], cutoff)
    ensures forall i, b :: 0 <= i < |atoms| && b in neighborsMap[atoms[i].id] ==> b in atoms && b != atoms[i]
  {
    forall i | 0 <= i < |atoms| ensures LastWithId(atoms, i) {
    }
  }

  /** `neighborLists.get(atom.id) || []`. */
  function ListOf(neighborLists: map<nat, seq<Atom>>, id: nat): seq<Atom> {
    if id in neighborLists then neighborLists[id] else []
  }

  /** The atoms a pass over the lists may touch: the population and every listed neighbor. */
  function Members(atoms: seq<Atom>, neighborLists: map<nat, seq<Atom>>): set<Atom> {
    (set a | a in atoms) + (set id, b | id in neighborLists && b in neighborLists[id] :: b)
  }

  /** A population atom and the atoms on its list are members. */
  lemma ListedAreMembers(atoms: seq<Atom>, neighborLists: map<nat, seq<Atom>>, atom: Atom)
    requires atom in atoms
    ensures atom in Members(atoms, neighborLists)
    ensures forall b :: b in ListOf(neighborLists, atom.id) ==> b in Members(atoms, neighborLists)
  {
    forall b | b in ListOf(neighborLists, atom.id) ensures b in Members(atoms, neighborLists) {
      assert atom.id in neighborLists && b in neighborLists[atom.id];
    }
  }
}

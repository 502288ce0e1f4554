/** The neighbors worker (src/workers/neighborsWorker.ts): the same cutoff
    neighbor lists over plain `{ id, position }` records, answered as lists of
    ids; self is excluded by comparing ids. */
module NeighborsWorker {
  import opened Vectors

  datatype AtomData = AtomData(id: nat, position: Vec3)

  /** The `filter` of the worker: records whose id differs from the atom's and
      whose distance is within the cutoff. */
  function Within(atoms: seq<AtomData>, atom: AtomData, cutoff: real): seq<AtomData> {
    if atoms == [] then []
    else
      var other := atoms[|atoms| - 1];
      Within(atoms[..|atoms| - 1], atom, cutoff) +
        (if other.id != atom.id && WithinCutoff(atom.position, other.position, cutoff) then [other] else [])
  }

  /** The `map(neighbor => neighbor.id)` of the worker. */
  function Ids(s: seq<AtomData>): (r: seq<nat>)
    ensures |r| == |s| && forall k :: 0 <= k < |s| ==> r[k] == s[k].id
  {
    if s == [] then [] else Ids(s[..|s| - 1]) + [s[|s| - 1].id]
  }

  /** A record survives the filter exactly when it is another-id record
      within the cutoff. */
  lemma {:induction false} WithinMembers(atoms: seq<AtomData>, atom: AtomData, cutoff: real)
    ensures forall other :: other in Within(atoms, atom, cutoff) <==>
      other in atoms && other.id != atom.id && WithinCutoff(atom.position, other.position, cutoff)
    decreases |atoms|
  {
    if atoms != [] {
      var n := |atoms| - 1;
      WithinMembers(atoms[..n], atom, cutoff);
      assert atoms == atoms[..n] + [atoms[n]];
    }
  }

  /** The list the worker answers for `atom`. */
  function NeighborIds(atoms: seq<AtomData>, atom: AtomData, cutoff: real): seq<nat> {
    Ids(Within(atoms, atom, cutoff))
  }

  /** Every listed id belongs to a record within the cutoff, never to the
      atom's own id; every other-id record within the cutoff is listed. */
  lemma NeighborIdsMembers(atoms: seq<AtomData>, atom: AtomData, cutoff: real)
    ensures atom.id !in NeighborIds(atoms, atom, cutoff)
    ensures forall x :: x in NeighborIds(atoms, atom, cutoff) ==>
      exists other :: other in atoms && other.id == x && WithinCutoff(atom.position, other.position, cutoff)
    ensures forall other :: other in atoms && other.id != atom.id && WithinCutoff(atom.position, other.position, cutoff) ==>
      other.id in NeighborIds(atoms, atom, cutoff)
  {
    var w := Within(atoms, atom, cutoff);
    WithinMembers(atoms, atom, cutoff);
    forall x | x in NeighborIds(atoms, atom, cutoff)
      ensures exists other :: other in atoms && other.id == x && WithinCutoff(atom.position, other.position, cutoff)
    {
      var k :| 0 <= k < |w| && Ids(w)[k] == x;
      assert w[k] in atoms && w[k].id == x;
    }
    forall other | other in atoms && other.id != atom.id && WithinCutoff(atom.position, other.position, cutoff)
      ensures other.id in NeighborIds(atoms, atom, cutoff)
    {
      var k :| 0 <= k < |w| && w[k] == other;
      assert Ids(w)[k] == other.id;
    }
  }

  /** Filter then map keeps input order: the answer for a population split in
      two lists the ids of the first part before those of the second. */
  lemma NeighborIdsAppend(s: seq<AtomData>, t: seq<AtomData>, atom: AtomData, cutoff: real)
    ensures NeighborIds(s + t, atom, cutoff) == NeighborIds(s, atom, cutoff) + NeighborIds(t, atom, cutoff)
  {
    WithinAppend(s, t, atom, cutoff);
    IdsAppend(Within(s, atom, cutoff), Within(t, atom, cutoff));
  }

  lemma {:induction false} WithinAppend(s: seq<AtomData>, t: seq<AtomData>, atom: AtomData, cutoff: real)
    ensures Within(s + t, atom, cutoff) == Within(s, atom, cutoff) + Within(t, atom, cutoff)
    decreases |t|
  {
    if t == [] {
      assert s + t == s;
    } else {
      var t' := t[..|t| - 1];
      assert (s + t)[..|s + t| - 1] == s + t';
      WithinAppend(s, t', atom, cutoff);
    }
  }

  lemma IdsAppend(s: seq<AtomData>, t: seq<AtomData>)
    ensures Ids(s + t) == Ids(s) + Ids(t)
  {
    assert Ids(s + t) == Ids(s) + Ids(t);
  }

  /** The distance expression is symmetric, so a record is within the cutoff
      of another exactly when the other is within its cutoff. */
  lemma WithinSymmetric(atoms: seq<AtomData>, a: AtomData, b: AtomData, cutoff: real)
    requires a in atoms && b in atoms
    ensures b in Within(atoms, a, cutoff) <==> a in Within(atoms, b, cutoff)
  {
    WithinMembers(atoms, a, cutoff);
    WithinMembers(atoms, b, cutoff);
    WithinCutoffSymmetric(a.position, b.position, cutoff);
  }

  /** A lookup in an id-to-neighbor-ids dictionary with the `|| []` fallback:
      a missing entry counts as an empty list. */
  function NeighborIdsOf(neighbors: map<nat, seq<nat>>, id: nat): seq<nat> {
    if id in neighbors then neighbors[id] else []
  }

  /** The map after the loop has handled the records of `prefix`: each
      handled record's id mapped to its answer over the whole population. */
  function Answers(prefix: seq<AtomData>, atoms: seq<AtomData>, cutoff: real): map<nat, seq<nat>> {
    if prefix == [] then map[]
    else Answers(prefix[..|prefix| - 1], atoms, cutoff)[prefix[|prefix| - 1].id := NeighborIds(atoms, prefix[|prefix| - 1], cutoff)]
  }

  /** Every handled id, and only those, is a key. */
  lemma {:induction false} AnswersKeys(prefix: seq<AtomData>, atoms: seq<AtomData>, cutoff: real)
    ensures Answers(prefix, atoms, cutoff).Keys == set i | 0 <= i < |prefix| :: prefix[i].id
    decreases |prefix|
  {
    if prefix != [] {
      var n := |prefix| - 1;
      AnswersKeys(prefix[..n], atoms, cutoff);
      assert (set i | 0 <= i < |prefix| :: prefix[i].id) == (set i | 0 <= i < n :: prefix[..n][i].id) + {prefix[n].id};
    }
  }

  /** A key's list is the answer for the last handled record with that id. */
  lemma {:induction false} AnswersLast(prefix: seq<AtomData>, atoms: seq<AtomData>, cutoff: real, i: nat)
    requires i < |prefix| && forall j :: i < j < |prefix| ==> prefix[j].id != prefix[i].id
    ensures prefix[i].id in Answers(prefix, atoms, cutoff)
    ensures Answers(prefix, atoms, cutoff)[prefix[i].id] == NeighborIds(atoms, prefix[i], cutoff)
    decreases |prefix|
  {
    var n := |prefix| - 1;
    if i < n {
      AnswersLast(prefix[..n], atoms, cutoff, i);
    }
  }

  /** The worker's `onmessage` loop: every input id gets an entry, which is
      the answer for the last record carrying that id. */
  method BuildNeighborsMap(atoms: seq<AtomData>, cutoff: real) returns (neighborsMap: map<nat, seq<nat>>)
    ensures neighborsMap.Keys == set i | 0 <= i < |atoms| :: atoms[i].id
    ensures forall i :: 0 <= i < |atoms| && (forall j :: i < j < |atoms| ==> atoms[j].id != atoms[i].id) ==>
      neighborsMap[atoms[i].id] == NeighborIds(atoms, atoms[i], cutoff)
  {
    neighborsMap := map[];
    for n := 0 to |atoms|
      invariant neighborsMap == Answers(atoms[..n], atoms, cutoff)
    {
      var atom := atoms[n];
      var neighbors := NeighborIds(atoms, atom, cutoff);
      assert atoms[..n + 1][..n] == atoms[..n];
      neighborsMap := neighborsMap[atom.id := neighbors];
    }
    assert atoms[..|atoms|] == atoms;
    AnswersKeys(atoms, atoms, cutoff);
    forall i | 0 <= i < |atoms| && (forall j :: i < j < |atoms| ==> atoms[j].id != atoms[i].id)
      ensures neighborsMap[atoms[i].id] == NeighborIds(atoms, atoms[i], cutoff)
    {
      AnswersLast(atoms, atoms, cutoff, i);
    }
  }
}

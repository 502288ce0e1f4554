/** updateAtomColorsByNeighborhood (src/lib/atomFunctions.ts): the
    single-pass color propagation of the sequential path, which writes the
    atoms' `color` fields in place and reads a neighbor's CURRENT color. The
    pass is specified on values: a map from atom to color plus the
    `processed` id set. */
module ColorPropagation {
  import opened AtomModel
  import opened NeighborLists

  /** The colors of the population's atoms and the processed ids. */
  datatype LocalState = LocalState(colors: map<Atom, Color>, processed: set<nat>)

  /** The color a state records for `b` (every member is recorded, so the
      empty fallback is never read by the pass). */
  function ColorIn(s: LocalState, b: Atom): Color {
    if b in s.colors then s.colors[b] else ""
  }

  /** The `forEach` over `[atom, ...neighbors]`. */
  function PaintAtoms(s: LocalState, list: seq<Atom>, sharedColor: Color): LocalState {
    if list == [] then s
    else
      var t := PaintAtoms(s, list[..|list| - 1], sharedColor);
      LocalState(t.colors[list[|list| - 1] := sharedColor], t.processed + {list[|list| - 1].id})
  }

  /** One iteration of the `atoms.forEach`. */
  function LocalVisit(s: LocalState, atom: Atom, neighborLists: map<nat, seq<Atom>>): LocalState {
    var neighbors := ListOf(neighborLists, atom.id);
    if |neighbors| == 0 then LocalState(s.colors[atom := atom.originalColor], s.processed)
    else if atom.id in s.processed then s
    else PaintAtoms(s, [atom] + neighbors, ColorIn(s, neighbors[0]))
  }

  /** The state after visiting `atoms`, starting from `s`. */
  function LocalPropagate(s: LocalState, atoms: seq<Atom>, neighborLists: map<nat, seq<Atom>>): LocalState {
    if atoms == [] then s
    else LocalVisit(LocalPropagate(s, atoms[..|atoms| - 1], neighborLists), atoms[|atoms| - 1], neighborLists)
  }

  /** Painting records the listed atoms and marks their ids processed. */
  lemma {:induction false} PaintAtomsDomains(s: LocalState, list: seq<Atom>, sharedColor: Color)
    ensures PaintAtoms(s, list, sharedColor).colors.Keys == s.colors.Keys + set b | b in list
    ensures PaintAtoms(s, list, sharedColor).processed == s.processed + set b | b in list :: b.id
    decreases |list|
  {
    if list != [] {
      var n := |list| - 1;
      PaintAtomsDomains(s, list[..n], sharedColor);
      assert (set b | b in list) == (set b | b in list[..n]) + {list[n]};
      assert (set b | b in list :: b.id) == (set b | b in list[..n] :: b.id) + {list[n].id};
    }
  }

  /** Painting gives exactly the listed atoms the shared color and keeps every
      other entry. */
  lemma {:induction false} PaintAtomsEffect(s: LocalState, list: seq<Atom>, sharedColor: Color)
    ensures forall b :: b in list ==> b in PaintAtoms(s, list, sharedColor).colors && PaintAtoms(s, list, sharedColor).colors[b] == sharedColor
    ensures forall b :: b in s.colors && b !in list ==>
      b in PaintAtoms(s, list, sharedColor).colors && PaintAtoms(s, list, sharedColor).colors[b] == s.colors[b]
    decreases |list|
  {
    if list != [] {
      var n := |list| - 1;
      PaintAtomsEffect(s, list[..n], sharedColor);
      assert forall b :: b in list ==> b in list[..n] || b == list[n];
    }
  }

  /** An atom with an empty or missing list is reset to its original color. */
  lemma LocalVisitIsolated(s: LocalState, atom: Atom, neighborLists: map<nat, seq<Atom>>)
    requires ListOf(neighborLists, atom.id) == []
    ensures LocalVisit(s, atom, neighborLists) == LocalState(s.colors[atom := atom.originalColor], s.processed)
  {
  }

  /** An unprocessed atom with neighbors gives itself and all its neighbors
      the first neighbor's current color and marks them processed. */
  lemma LocalVisitSpreads(s: LocalState, atom: Atom, neighborLists: map<nat, seq<Atom>>)
    requires atom.id in neighborLists && neighborLists[atom.id] != [] && atom.id !in s.processed
    ensures var t := LocalVisit(s, atom, neighborLists);
      var sharedColor := ColorIn(s, neighborLists[atom.id][0]);
      atom in t.colors && t.colors[atom] == sharedColor &&
      (forall b :: b in neighborLists[atom.id] ==> b in t.colors && t.colors[b] == sharedColor) &&
      t.processed == s.processed + {atom.id} + (set b | b in neighborLists[atom.id] :: b.id) &&
      (forall b :: b in s.colors && b != atom && b !in neighborLists[atom.id] ==> b in t.colors && t.colors[b] == s.colors[b])
  {
    var list := [atom] + neighborLists[atom.id];
    PaintAtomsDomains(s, list, ColorIn(s, neighborLists[atom.id][0]));
    PaintAtomsEffect(s, list, ColorIn(s, neighborLists[atom.id][0]));
    assert (set b | b in list :: b.id) == {atom.id} + (set b | b in neighborLists[atom.id] :: b.id);
  }

  /** Provenance: starting from a state that records every member, every
      resulting color is a color some member already held or the original
      color of a visited atom, and every member stays recorded. */
  lemma {:induction false} LocalPropagateProvenance(s: LocalState, atoms: seq<Atom>, neighborLists: map<nat, seq<Atom>>,
                                                    all: seq<Atom>)
    requires Members(all, neighborLists) <= s.colors.Keys
    requires forall a :: a in atoms ==> a in all
    ensures Members(all, neighborLists) <= LocalPropagate(s, atoms, neighborLists).colors.Keys
    ensures forall b :: b in LocalPropagate(s, atoms, neighborLists).colors ==>
      LocalPropagate(s, atoms, neighborLists).colors[b] in s.colors.Values + set a | a in atoms :: a.originalColor
    decreases |atoms|
  {
    if atoms != [] {
      var n := |atoms| - 1;
      var atom := atoms[n];
      var t := LocalPropagate(s, atoms[..n], neighborLists);
      LocalPropagateProvenance(s, atoms[..n], neighborLists, all);
      var allowed := s.colors.Values + set a | a in atoms :: a.originalColor;
      assert forall b :: b in t.colors ==> t.colors[b] in allowed;
      var neighbors := ListOf(neighborLists, atom.id);
      if |neighbors| > 0 && atom.id !in t.processed {
        ListedAreMembers(all, neighborLists, atom);
        PaintAtomsDomains(t, [atom] + neighbors, ColorIn(t, neighbors[0]));
        PaintAtomsEffect(t, [atom] + neighbors, ColorIn(t, neighbors[0]));
      }
    }
  }

  /** The heap agrees with a color map on every member. */
  ghost predicate Agrees(members: set<Atom>, colors: map<Atom, Color>)
    reads members`color
  {
    forall b :: b in members ==> b in colors && b.color == colors[b]
  }

  /** The colors of the members as a state map. */
  ghost function ColorsOf(members: set<Atom>): map<Atom, Color>
    reads members`color
  {
    map b | b in members :: b.color
  }

  /** One write of the pass: heap and map change together. */
  method SetColor(ghost members: set<Atom>, ghost colors: map<Atom, Color>, atom: Atom, c: Color)
    requires atom in members && Agrees(members, colors)
    modifies atom`color
    ensures Agrees(members, colors[atom := c])
  {
    atom.color := c;
  }

  /** updateAtomColorsByNeighborhood: every member's new color is the one the
      value-level pass computes from the members' old colors. */
  method UpdateAtomColorsByNeighborhood(atoms: seq<Atom>, neighborLists: map<nat, seq<Atom>>)
    modifies Members(atoms, neighborLists)`color
    ensures Agrees(Members(atoms, neighborLists),
                   LocalPropagate(LocalState(old(ColorsOf(Members(atoms, neighborLists))), {}), atoms, neighborLists).colors)
  {
    ghost var members := Members(atoms, neighborLists);
    ghost var s := LocalState(ColorsOf(members), {});
    var processed: set<nat> := {};
    for i := 0 to |atoms|
      invariant s == LocalPropagate(LocalState(old(ColorsOf(members)), {}), atoms[..i], neighborLists)
      invariant processed == s.processed && Agrees(members, s.colors)
    {
      var atom := atoms[i];
      assert atoms[..i + 1][..i] == atoms[..i];
      ListedAreMembers(atoms, neighborLists, atom);
      var neighbors := ListOf(neighborLists, atom.id);
      if |neighbors| == 0 {
        SetColor(members, s.colors, atom, atom.originalColor);
        s := LocalState(s.colors[atom := atom.originalColor], s.processed);
      } else if atom.id !in processed {
        var sharedColor := neighbors[0].color;
        var list := [atom] + neighbors;
        ghost var s0 := s;
        for j := 0 to |list|
          invariant s == PaintAtoms(s0, list[..j], sharedColor)
          invariant processed == s.processed && Agrees(members, s.colors)
        {
          assert list[..j + 1][..j] == list[..j];
          var neighbor := list[j];
          SetColor(members, s.colors, neighbor, sharedColor);
          processed := processed + {neighbor.id};
          s := LocalState(s.colors[neighbor := sharedColor], s.processed + {neighbor.id});
        }
        assert list[..|list|] == list;
      }
    }
    assert atoms[..|atoms|] == atoms;
  }
}

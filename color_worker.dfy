/** The color worker (src/workers/colorWorker.ts): one pass over the atoms
    that gives every atom with neighbors, not yet reached by an earlier
    atom's neighborhood, the color of its first neighbor (or its own original
    color) and spreads it over the neighborhood, marking it processed. */
module ColorWorker {
  import opened AtomModel
  import NeighborsWorker

  datatype AtomData = AtomData(id: nat, originalColor: Color)

  /** The `colors` answer and the `processed` set. */
  datatype ColorState = ColorState(colors: map<nat, Color>, processed: set<nat>)

  /** The `forEach` over `[atom.id, ...neighborIds]`: each id gets the shared
      color and is marked processed. */
  function Paint(s: ColorState, ids: seq<nat>, sharedColor: Color): ColorState {
    if ids == [] then s
    else
      var t := Paint(s, ids[..|ids| - 1], sharedColor);
      ColorState(t.colors[ids[|ids| - 1] := sharedColor], t.processed + {ids[|ids| - 1]})
  }

  /** One iteration of the worker's loop. */
  function Visit(s: ColorState, atom: AtomData, neighbors: map<nat, seq<nat>>): ColorState {
    var neighborIds := NeighborsWorker.NeighborIdsOf(neighbors, atom.id);
    if |neighborIds| == 0 then ColorState(s.colors[atom.id := atom.originalColor], s.processed)
    else if atom.id in s.processed then s
    else Paint(s, [atom.id] + neighborIds, ColorOr(s.colors, neighborIds[0], atom.originalColor))
  }

  /** The state after the loop has visited `atoms`, starting from nothing. */
  function Propagate(atoms: seq<AtomData>, neighbors: map<nat, seq<nat>>): ColorState {
    if atoms == [] then ColorState(map[], {})
    else Visit(Propagate(atoms[..|atoms| - 1], neighbors), atoms[|atoms| - 1], neighbors)
  }

  /** Painting adds the listed ids to the answered and the processed ids. */
  lemma {:induction false} PaintDomains(s: ColorState, ids: seq<nat>, sharedColor: Color)
    ensures Paint(s, ids, sharedColor).colors.Keys == s.colors.Keys + set x | x in ids
    ensures Paint(s, ids, sharedColor).processed == s.processed + set x | x in ids
    decreases |ids|
  {
    if ids != [] {
      var n := |ids| - 1;
      PaintDomains(s, ids[..n], sharedColor);
      assert (set x | x in ids) == (set x | x in ids[..n]) + {ids[n]};
    }
  }

  /** Painting sets exactly the listed ids to the shared color and keeps
      every other entry. */
  lemma {:induction false} PaintEffect(s: ColorState, ids: seq<nat>, sharedColor: Color)
    ensures forall x :: x in ids ==> x in Paint(s, ids, sharedColor).colors && Paint(s, ids, sharedColor).colors[x] == sharedColor
    ensures forall x :: x in s.colors && x !in ids ==>
      x in Paint(s, ids, sharedColor).colors && Paint(s, ids, sharedColor).colors[x] == s.colors[x]
    decreases |ids|
  {
    if ids != [] {
      var n := |ids| - 1;
      PaintEffect(s, ids[..n], sharedColor);
      assert forall x :: x in ids ==> x in ids[..n] || x == ids[n];
    }
  }

  /** An atom with an empty or missing neighbor list gets its original color. */
  lemma VisitIsolated(s: ColorState, atom: AtomData, neighbors: map<nat, seq<nat>>)
    requires atom.id !in neighbors || neighbors[atom.id] == []
    ensures Visit(s, atom, neighbors).colors == s.colors[atom.id := atom.originalColor]
    ensures Visit(s, atom, neighbors).processed == s.processed
  {
  }

  /** An already processed atom with neighbors changes nothing. */
  lemma VisitProcessed(s: ColorState, atom: AtomData, neighbors: map<nat, seq<nat>>)
    requires atom.id in neighbors && neighbors[atom.id] != [] && atom.id in s.processed
    ensures Visit(s, atom, neighbors) == s
  {
  }

  /** An unprocessed atom with neighbors gives itself and every neighbor id
      the same shared color, `colors[first] || originalColor`, marks them all
      processed and leaves every other entry alone. */
  lemma VisitSpreads(s: ColorState, atom: AtomData, neighbors: map<nat, seq<nat>>)
    requires atom.id in neighbors && neighbors[atom.id] != [] && atom.id !in s.processed
    ensures var t := Visit(s, atom, neighbors);
      var sharedColor := ColorOr(s.colors, neighbors[atom.id][0], atom.originalColor);
      atom.id in t.colors && t.colors[atom.id] == sharedColor &&
      (forall x :: x in neighbors[atom.id] ==> x in t.colors && t.colors[x] == sharedColor) &&
      t.processed == s.processed + {atom.id} + (set x | x in neighbors[atom.id]) &&
      (forall x :: x in s.colors && x != atom.id && x !in neighbors[atom.id] ==> x in t.colors && t.colors[x] == s.colors[x])
  {
    var ids := [atom.id] + neighbors[atom.id];
    PaintDomains(s, ids, ColorOr(s.colors, neighbors[atom.id][0], atom.originalColor));
    PaintEffect(s, ids, ColorOr(s.colors, neighbors[atom.id][0], atom.originalColor));
    assert (set x | x in ids) == {atom.id} + (set x | x in neighbors[atom.id]);
  }

  /** The original colors of the input atoms. */
  function Originals(atoms: seq<AtomData>): set<Color> {
    set a | a in atoms :: a.originalColor
  }

  /** Invariant of the pass: every answered color is the original color of
      some input atom. */
  lemma {:induction false} PropagateOriginals(atoms: seq<AtomData>, neighbors: map<nat, seq<nat>>)
    ensures forall x :: x in Propagate(atoms, neighbors).colors ==> Propagate(atoms, neighbors).colors[x] in Originals(atoms)
    decreases |atoms|
  {
    if atoms != [] {
      var n := |atoms| - 1;
      var atom := atoms[n];
      var s := Propagate(atoms[..n], neighbors);
      PropagateOriginals(atoms[..n], neighbors);
      assert atoms == atoms[..n] + [atom];
      assert Originals(atoms) == Originals(atoms[..n]) + {atom.originalColor};
      var neighborIds := NeighborsWorker.NeighborIdsOf(neighbors, atom.id);
      if |neighborIds| > 0 && atom.id !in s.processed {
        var sharedColor := ColorOr(s.colors, neighborIds[0], atom.originalColor);
        PaintDomains(s, [atom.id] + neighborIds, sharedColor);
        PaintEffect(s, [atom.id] + neighborIds, sharedColor);
      }
    }
  }

  /** Every visited atom id has an answer, and so has every processed id. */
  lemma {:induction false} PropagateCovers(atoms: seq<AtomData>, neighbors: map<nat, seq<nat>>)
    ensures forall a :: a in atoms ==> a.id in Propagate(atoms, neighbors).colors
    ensures Propagate(atoms, neighbors).processed <= Propagate(atoms, neighbors).colors.Keys
    decreases |atoms|
  {
    if atoms != [] {
      var n := |atoms| - 1;
      var atom := atoms[n];
      var s := Propagate(atoms[..n], neighbors);
      PropagateCovers(atoms[..n], neighbors);
      assert atoms == atoms[..n] + [atom];
      var neighborIds := NeighborsWorker.NeighborIdsOf(neighbors, atom.id);
      if |neighborIds| > 0 && atom.id !in s.processed {
        PaintDomains(s, [atom.id] + neighborIds, ColorOr(s.colors, neighborIds[0], atom.originalColor));
      }
    }
  }

  /** The worker's `onmessage` body: the colors answer of the pass over `atoms`. */
  method ColorPass(atoms: seq<AtomData>, neighbors: map<nat, seq<nat>>) returns (colors: map<nat, Color>)
    ensures colors == Propagate(atoms, neighbors).colors
    ensures forall a :: a in atoms ==> a.id in colors
    ensures forall x :: x in colors ==> colors[x] in Originals(atoms)
  {
    var processed: set<nat> := {};
    colors := map[];
    for i := 0 to |atoms|
      invariant ColorState(colors, processed) == Propagate(atoms[..i], neighbors)
    {
      var atom := atoms[i];
      assert atoms[..i + 1][..i] == atoms[..i];
      var neighborIds := NeighborsWorker.NeighborIdsOf(neighbors, atom.id);
      if |neighborIds| == 0 {
        colors := colors[atom.id := atom.originalColor];
      } else if atom.id !in processed {
        var sharedColor := ColorOr(colors, neighborIds[0], atom.originalColor);
        var ids := [atom.id] + neighborIds;
        ghost var s0 := ColorState(colors, processed);
        for j := 0 to |ids|
          invariant ColorState(colors, processed) == Paint(s0, ids[..j], sharedColor)
        {
          assert ids[..j + 1][..j] == ids[..j];
          colors := colors[ids[j] := sharedColor];
          processed := processed + {ids[j]};
        }
        assert ids[..|ids|] == ids;
      }
    }
    assert atoms[..|atoms|] == atoms;
    PropagateOriginals(atoms, neighbors);
    PropagateCovers(atoms, neighbors);
  }
}

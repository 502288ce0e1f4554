/** The two color passes of the program disagree on the same configuration:
    the sequential path's updateAtomColorsByNeighborhood
    (src/lib/atomFunctions.ts) copies a neighbor's CURRENT color, while the
    color worker (src/workers/colorWorker.ts) starts from an empty answer and
    falls back to the atom's original color. The configuration: two atoms,
    each the other's only neighbor, A (id 0, original red, currently blue)
    and B (id 1, original green, currently yellow). */
module ColorVariants {
  import opened AtomModel
  import NeighborLists
  import ColorPropagation
  import ColorWorker

  /** The sequential pass paints A with B's current color, yellow. */
  method SequentialPassExample() returns (colorOfA: Color)
    ensures colorOfA == "#ffff00"
  {
    var a := new Atom(0, originalColor := "#ff0000");
    var b := new Atom(1, originalColor := "#00ff00");
    a.color := "#0000ff";
    b.color := "#ffff00";
    var lists := map[0 := [b], 1 := [a]];
    NeighborLists.ListedAreMembers([a, b], lists, a);
    NeighborLists.ListedAreMembers([a, b], lists, b);
    ghost var members := NeighborLists.Members([a, b], lists);
    ghost var s0 := ColorPropagation.LocalState(ColorPropagation.ColorsOf(members), {});
    assert s0.colors[b] == "#ffff00";
    ghost var s1 := ColorPropagation.LocalVisit(s0, a, lists);
    ColorPropagation.LocalVisitSpreads(s0, a, lists);
    assert s1.colors[a] == "#ffff00" && 1 in s1.processed;
    assert [a, b][..1] == [a] && [a][..0] == [];
    assert ColorPropagation.LocalPropagate(s0, [a], lists) == s1;
    assert NeighborLists.ListOf(lists, b.id) == [a];
    assert ColorPropagation.LocalPropagate(s0, [a, b], lists) == s1;
    ColorPropagation.UpdateAtomColorsByNeighborhood([a, b], lists);
    colorOfA := a.color;
  }

  /** The worker paints A with its own original color, red, since B has no
      answer yet when A is visited. */
  method WorkerPassExample() returns (colorOfA: Color)
    ensures colorOfA == "#ff0000"
  {
    var atoms := [ColorWorker.AtomData(0, "#ff0000"), ColorWorker.AtomData(1, "#00ff00")];
    var neighbors := map[0 := [1], 1 := [0]];
    assert atoms[..1] == [atoms[0]] && atoms[..1][..0] == [];
    ghost var s1 := ColorWorker.Visit(ColorWorker.ColorState(map[], {}), atoms[0], neighbors);
    ColorWorker.VisitSpreads(ColorWorker.ColorState(map[], {}), atoms[0], neighbors);
    assert s1.colors[0] == "#ff0000" && 1 in s1.processed;
    assert ColorWorker.Propagate(atoms[..1], neighbors) == s1;
    assert ColorWorker.Propagate(atoms, neighbors) == s1;
    var colors := ColorWorker.ColorPass(atoms, neighbors);
    colorOfA := colors[0];
  }
}

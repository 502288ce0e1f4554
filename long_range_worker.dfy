/** The long-range forces worker (src/workers/longRangeForcesWorker.ts): the
    gravity and Coulomb pass over plain records, answered as an id-keyed
    `forces` dictionary. It shares the pair deduplication of
    applyLongRangeForces but, through the once-per-atom snapshot of the
    atom's entry, keeps only the last handled pair's force on each center, so
    the answered forces need not sum to zero. */
module LongRangeWorker {
  import opened Vectors
  import opened PairIndex
  import opened PairSchedule
  import opened ForceMapPass
  import opened RecordIndex
  import NeighborsWorker
  import LongRange

  datatype AtomData = AtomData(id: nat, position: Vec3, mass: real, charge: real)

  datatype NeighborListData = NeighborListData(id: nat, neighbors: seq<nat>)

  function AtomDataId(a: AtomData): nat {
    a.id
  }

  function EntryId(e: NeighborListData): nat {
    e.id
  }

  /** `new Map(neighbors.map(entry => [entry.id, entry.neighbors]))`. */
  function NeighborMapOf(entries: seq<NeighborListData>): map<nat, seq<nat>> {
    var index := IndexById(entries, EntryId);
    map x | x in index :: index[x].neighbors
  }

  /** Every id listed for an input atom names an input atom: what the
      `atomMap.get(neighborId)!` lookups take for granted. */
  predicate Resolves(atoms: seq<AtomData>, entries: seq<NeighborListData>) {
    forall i, x :: 0 <= i < |atoms| && x in NeighborsWorker.NeighborIdsOf(NeighborMapOf(entries), atoms[i].id) ==>
      x in IndexById(atoms, AtomDataId)
  }

  /** The force on `a` from `b`: the distance clamped to MIN_DISTANCE, each
      magnitude over its square, along the displacement divided by the
      clamped distance. `length` stands for the Euclidean norm. */
  function WorkerPairForce(a: AtomData, b: AtomData, G: real, k: real, length: Vec3 -> real): Vec3 {
    var d := Sub(b.position, a.position);
    var r := LongRange.Clamp(length(d));
    var direction := Div(d, r);
    Add(Scale(direction, G * a.mass * b.mass * LongRange.InverseSquare(r)),
        Scale(direction, k * a.charge * b.charge * LongRange.InverseSquare(r)))
  }

  function ForceFn(G: real, k: real, length: Vec3 -> real): (AtomData, AtomData) -> Vec3 {
    (a: AtomData, b: AtomData) => WorkerPairForce(a, b, G, k, length)
  }

  /** The rows of the pass: each atom with its resolved `neighborMap.get(atom.id) || []`. */
  function WorkerRows(atoms: seq<AtomData>, entries: seq<NeighborListData>): seq<(AtomData, seq<AtomData>)>
    requires Resolves(atoms, entries)
  {
    var atomMap := IndexById(atoms, AtomDataId);
    var neighborMap := NeighborMapOf(entries);
    seq(|atoms|, i requires 0 <= i < |atoms| =>
      (atoms[i], Resolve(atomMap, NeighborsWorker.NeighborIdsOf(neighborMap, atoms[i].id))))
  }

  /** Row i of the pass is atom i with, in list order, an input atom for
      each id its neighbor list names, carrying that id. */
  lemma WorkerRowsResolved(atoms: seq<AtomData>, entries: seq<NeighborListData>, i: nat)
    requires Resolves(atoms, entries) && i < |atoms|
    ensures |WorkerRows(atoms, entries)| == |atoms|
    ensures var row := WorkerRows(atoms, entries)[i];
      var ids := NeighborsWorker.NeighborIdsOf(NeighborMapOf(entries), atoms[i].id);
      row.0 == atoms[i] && |row.1| == |ids| &&
      forall j :: 0 <= j < |ids| ==> row.1[j] in atoms && row.1[j].id == ids[j]
  {
    ResolveIndexById(atoms, AtomDataId, NeighborsWorker.NeighborIdsOf(NeighborMapOf(entries), atoms[i].id));
  }

  /** The state the worker's loops reach. */
  function WorkerPass(atoms: seq<AtomData>, entries: seq<NeighborListData>, G: real, k: real,
                      length: Vec3 -> real): PassState<AtomData>
    requires Resolves(atoms, entries)
  {
    Pass(WorkerRows(atoms, entries), AtomDataId, ForceFn(G, k, length))
  }

  /** Where the displacement is at least MIN_DISTANCE long, the worker's
      force is the one applyLongRangeForces computes. */
  lemma WorkerForceAgreesLocal(a: AtomData, b: AtomData, G: real, k: real, length: Vec3 -> real)
    requires length(Sub(b.position, a.position)) >= LongRange.MinDistance
    ensures WorkerPairForce(a, b, G, k, length) ==
      LongRange.LongRangeForce(a.position, a.mass, a.charge, b.position, b.mass, b.charge, G, k, length)
  {
    var d := Sub(b.position, a.position);
    assert LongRange.Clamp(length(d)) == length(d);
    assert Normalize(d, length(d)) == Div(d, length(d));
  }

  /** Closer than MIN_DISTANCE, the distance counts as 0.1: the force is the
      displacement times 1000 * (G*m1*m2 + k*q1*q2). */
  lemma WorkerForceClamped(a: AtomData, b: AtomData, G: real, k: real, length: Vec3 -> real)
    requires length(Sub(b.position, a.position)) <= LongRange.MinDistance
    ensures WorkerPairForce(a, b, G, k, length) ==
      Scale(Sub(b.position, a.position), 1000.0 * (G * a.mass * b.mass + k * a.charge * b.charge))
  {
    var d := Sub(b.position, a.position);
    var g, c := G * a.mass * b.mass, k * a.charge * b.charge;
    assert LongRange.Clamp(length(d)) == 0.1;
    assert LongRange.InverseSquare(0.1) == 100.0;
    var direction := Div(d, 0.1);
    assert direction == Scale(d, 10.0);
    assert d.x * 10.0 * (g * 100.0) + d.x * 10.0 * (c * 100.0) == d.x * (1000.0 * (g + c));
    assert d.y * 10.0 * (g * 100.0) + d.y * 10.0 * (c * 100.0) == d.y * (1000.0 * (g + c));
    assert d.z * 10.0 * (g * 100.0) + d.z * 10.0 * (c * 100.0) == d.z * (1000.0 * (g + c));
  }

  /** The worker handles each unordered neighbor pair at most once. */
  lemma WorkerPairsOnce(atoms: seq<AtomData>, entries: seq<NeighborListData>, G: real, k: real, length: Vec3 -> real)
    requires Resolves(atoms, entries)
    ensures var h := WorkerPass(atoms, entries, G, k, length).schedule.handled;
      forall i, j :: 0 <= i < j < |h| ==> KeyOf(h[i], AtomDataId) != KeyOf(h[j], AtomDataId)
  {
    var rows := WorkerRows(atoms, entries);
    PassAtMostOnce(rows, AtomDataId, ForceFn(G, k, length));
    assert WorkerPass(atoms, entries, G, k, length) == Pass(rows, AtomDataId, ForceFn(G, k, length));
  }

  /** The key of every (atom, listed neighbor id) is processed by the end. */
  lemma WorkerListedProcessed(atoms: seq<AtomData>, entries: seq<NeighborListData>, G: real, k: real,
                              length: Vec3 -> real, i: nat, x: nat)
    requires Resolves(atoms, entries)
    requires i < |atoms| && x in NeighborsWorker.NeighborIdsOf(NeighborMapOf(entries), atoms[i].id)
    ensures PairKey(atoms[i].id, x) in WorkerPass(atoms, entries, G, k, length).schedule.processed
  {
    var rows := WorkerRows(atoms, entries);
    PassAtMostOnce(rows, AtomDataId, ForceFn(G, k, length));
    var ids := NeighborsWorker.NeighborIdsOf(NeighborMapOf(entries), atoms[i].id);
    var j :| 0 <= j < |ids| && ids[j] == x;
    assert rows[i].1 == Resolve(IndexById(atoms, AtomDataId), ids);
    assert rows[i].1[j] in rows[i].1 && AtomDataId(rows[i].1[j]) == x;
  }

  /** Three unit-mass, uncharged atoms on the x axis at 0, 1 and 2, where
      each atom lists the other two: the symmetric lists the neighbors
      worker answers for them with a cutoff of at least 2. */
  function DemoAtoms(): seq<AtomData> {
    [AtomData(0, Vec3(0.0, 0.0, 0.0), 1.0, 0.0), AtomData(1, Vec3(1.0, 0.0, 0.0), 1.0, 0.0),
     AtomData(2, Vec3(2.0, 0.0, 0.0), 1.0, 0.0)]
  }

  function DemoEntries(): seq<NeighborListData> {
    [NeighborListData(0, [1, 2]), NeighborListData(1, [0, 2]), NeighborListData(2, [0, 1])]
  }

  /** The configuration as the neighbors worker receives it. */
  function DemoRecords(): seq<NeighborsWorker.AtomData> {
    [NeighborsWorker.AtomData(0, Vec3(0.0, 0.0, 0.0)), NeighborsWorker.AtomData(1, Vec3(1.0, 0.0, 0.0)),
     NeighborsWorker.AtomData(2, Vec3(2.0, 0.0, 0.0))]
  }

  /** With a cutoff of 2 the neighbors worker lists, for each atom, the
      other two in input order: DemoEntries is its answer. */
  lemma DemoEntriesAnswered()
    ensures forall i :: 0 <= i < 3 ==>
      DemoEntries()[i].id == DemoRecords()[i].id &&
      DemoEntries()[i].neighbors == NeighborsWorker.NeighborIds(DemoRecords(), DemoRecords()[i], 2.0)
  {
    DemoAnswer0();
    DemoAnswer1();
    DemoAnswer2();
  }

  lemma DemoAnswer0()
    ensures NeighborsWorker.NeighborIds(DemoRecords(), DemoRecords()[0], 2.0) == [1, 2]
  {
    var r := DemoRecords();
    assert r[..1][..0] == [] && r[..2][..1] == r[..1] && r[..2] == r[..|r| - 1];
    assert NeighborsWorker.Within(r[..1], r[0], 2.0) == [];
    assert NeighborsWorker.Within(r[..2], r[0], 2.0) == [r[1]];
    assert NeighborsWorker.Within(r, r[0], 2.0) == [r[1], r[2]];
    assert NeighborsWorker.Ids([r[1], r[2]]) == [1, 2];
  }

  lemma DemoAnswer1()
    ensures NeighborsWorker.NeighborIds(DemoRecords(), DemoRecords()[1], 2.0) == [0, 2]
  {
    var r := DemoRecords();
    assert r[..1][..0] == [] && r[..2][..1] == r[..1] && r[..2] == r[..|r| - 1];
    assert NeighborsWorker.Within(r[..1], r[1], 2.0) == [r[0]];
    assert NeighborsWorker.Within(r[..2], r[1], 2.0) == [r[0]];
    assert NeighborsWorker.Within(r, r[1], 2.0) == [r[0], r[2]];
    assert NeighborsWorker.Ids([r[0], r[2]]) == [0, 2];
  }

  lemma DemoAnswer2()
    ensures NeighborsWorker.NeighborIds(DemoRecords(), DemoRecords()[2], 2.0) == [0, 1]
  {
    var r := DemoRecords();
    assert r[..1][..0] == [] && r[..2][..1] == r[..1] && r[..2] == r[..|r| - 1];
    assert NeighborsWorker.Within(r[..1], r[2], 2.0) == [r[0]];
    assert NeighborsWorker.Within(r[..2], r[2], 2.0) == [r[0], r[1]];
    assert NeighborsWorker.Within(r, r[2], 2.0) == [r[0], r[1]];
    assert NeighborsWorker.Ids([r[0], r[1]]) == [0, 1];
  }

  lemma DemoAtomMap()
    ensures IndexById(DemoAtoms(), AtomDataId) == map[0 := DemoAtoms()[0], 1 := DemoAtoms()[1], 2 := DemoAtoms()[2]]
  {
    var atoms := DemoAtoms();
    assert atoms[..1][..0] == [];
    assert IndexById(atoms[..1], AtomDataId) == map[0 := atoms[0]];
    assert atoms[..2][..1] == atoms[..1];
    assert IndexById(atoms[..2], AtomDataId) == map[0 := atoms[0], 1 := atoms[1]];
    assert atoms[..2] == atoms[..|atoms| - 1];
  }

  lemma DemoEntryIndex()
    ensures var e := DemoEntries();
      IndexById(e, EntryId) == map[0 := e[0], 1 := e[1], 2 := e[2]]
  {
    var entries := DemoEntries();
    assert entries[..1][..0] == [];
    assert IndexById(entries[..1], EntryId) == map[0 := entries[0]];
    assert entries[..2][..1] == entries[..1];
    assert IndexById(entries[..2], EntryId) == map[0 := entries[0], 1 := entries[1]];
    assert entries[..2] == entries[..|entries| - 1];
  }

  lemma DemoNeighborMap()
    ensures NeighborMapOf(DemoEntries()) == map[0 := [1, 2], 1 := [0, 2], 2 := [0, 1]]
  {
    DemoEntryIndex();
    var m := NeighborMapOf(DemoEntries());
    assert m.Keys == {0, 1, 2};
    assert m[0] == [1, 2] && m[1] == [0, 2] && m[2] == [0, 1];
  }

  lemma DemoResolves()
    ensures Resolves(DemoAtoms(), DemoEntries())
  {
    DemoAtomMap();
    DemoNeighborMap();
  }

  lemma DemoResolvePartners(m: map<nat, AtomData>, x: nat, y: nat, b: AtomData, c: AtomData)
    requires x in m && y in m && m[x] == b && m[y] == c
    ensures Resolve(m, [x, y]) == [b, c]
  {
    var r := Resolve(m, [x, y]);
    assert |r| == 2 && r[0] == b && r[1] == c;
  }

  lemma DemoThree<T>(s: seq<T>, a: T, b: T, c: T)
    requires |s| == 3 && s[0] == a && s[1] == b && s[2] == c
    ensures s == [a, b, c]
  {
  }

  lemma DemoRows()
    ensures Resolves(DemoAtoms(), DemoEntries())
    ensures var A, B, C := DemoAtoms()[0], DemoAtoms()[1], DemoAtoms()[2];
      WorkerRows(DemoAtoms(), DemoEntries()) == [(A, [B, C]), (B, [A, C]), (C, [A, B])]
  {
    var atoms := DemoAtoms();
    var A, B, C := atoms[0], atoms[1], atoms[2];
    DemoResolves();
    DemoAtomMap();
    DemoNeighborMap();
    var atomMap := IndexById(atoms, AtomDataId);
    var rows := WorkerRows(atoms, DemoEntries());
    assert rows[0] == (A, Resolve(atomMap, [1, 2]));
    assert rows[1] == (B, Resolve(atomMap, [0, 2]));
    assert rows[2] == (C, Resolve(atomMap, [0, 1]));
    DemoResolvePartners(atomMap, 1, 2, B, C);
    DemoResolvePartners(atomMap, 0, 2, A, C);
    DemoResolvePartners(atomMap, 0, 1, A, B);
    DemoThree(rows, (A, [B, C]), (B, [A, C]), (C, [A, B]));
  }

  lemma DemoForces(length: Vec3 -> real)
    requires length(Vec3(1.0, 0.0, 0.0)) == 1.0 && length(Vec3(2.0, 0.0, 0.0)) == 2.0
    ensures WorkerPairForce(DemoAtoms()[0], DemoAtoms()[1], 1.0, 0.0, length) == Vec3(1.0, 0.0, 0.0)
    ensures WorkerPairForce(DemoAtoms()[0], DemoAtoms()[2], 1.0, 0.0, length) == Vec3(0.25, 0.0, 0.0)
    ensures WorkerPairForce(DemoAtoms()[1], DemoAtoms()[2], 1.0, 0.0, length) == Vec3(1.0, 0.0, 0.0)
  {
    var A, B, C := DemoAtoms()[0], DemoAtoms()[1], DemoAtoms()[2];
    assert LongRange.InverseSquare(1.0) == 1.0;
    assert LongRange.InverseSquare(2.0) == 0.25;
    assert Sub(B.position, A.position) == Vec3(1.0, 0.0, 0.0);
    assert Sub(C.position, A.position) == Vec3(2.0, 0.0, 0.0);
    assert Sub(C.position, B.position) == Vec3(1.0, 0.0, 0.0);
  }

  function DemoAfterFirst(): PassState<AtomData> {
    PassState(map[0 := Vec3(1.0, 0.0, 0.0), 1 := Vec3(-1.0, 0.0, 0.0)],
              Schedule({(0, 1)}, [(DemoAtoms()[0], DemoAtoms()[1])]))
  }

  function DemoAfterRow(): PassState<AtomData> {
    PassState(map[0 := Vec3(0.25, 0.0, 0.0), 1 := Vec3(-1.0, 0.0, 0.0), 2 := Vec3(-0.25, 0.0, 0.0)],
              Schedule({(0, 1), (0, 2)}, [(DemoAtoms()[0], DemoAtoms()[1]), (DemoAtoms()[0], DemoAtoms()[2])]))
  }

  function DemoAfterSecond(): PassState<AtomData> {
    PassState(map[0 := Vec3(0.25, 0.0, 0.0), 1 := Vec3(0.0, 0.0, 0.0), 2 := Vec3(-1.25, 0.0, 0.0)],
              Schedule({(0, 1), (0, 2), (1, 2)},
                       [(DemoAtoms()[0], DemoAtoms()[1]), (DemoAtoms()[0], DemoAtoms()[2]),
                        (DemoAtoms()[1], DemoAtoms()[2])]))
  }

  /** Atom 0's row: the pair (0, 1) sets entry 0 to the snapshot (zero) plus
      1, then the pair (0, 2) sets it to the snapshot plus 0.25. */
  lemma DemoFirstRow(length: Vec3 -> real)
    requires length(Vec3(1.0, 0.0, 0.0)) == 1.0 && length(Vec3(2.0, 0.0, 0.0)) == 2.0
    ensures RowPass(PassState(map[], Schedule({}, [])), DemoAtoms()[0], Zero, [DemoAtoms()[1], DemoAtoms()[2]],
                    AtomDataId, ForceFn(1.0, 0.0, length)) == DemoAfterRow()
  {
    var A, B, C := DemoAtoms()[0], DemoAtoms()[1], DemoAtoms()[2];
    var fn := ForceFn(1.0, 0.0, length);
    var s0: PassState<AtomData> := PassState(map[], Schedule({}, []));
    DemoForces(length);
    assert fn(A, B) == Vec3(1.0, 0.0, 0.0) && fn(A, C) == Vec3(0.25, 0.0, 0.0);
    assert PairKey(0, 1) == (0, 1) && PairKey(0, 2) == (0, 2);
    assert PairStep(s0, A, Zero, B, AtomDataId, fn) == DemoAfterFirst();
    assert PairStep(DemoAfterFirst(), A, Zero, C, AtomDataId, fn) == DemoAfterRow();
    assert [B, C][..1] == [B] && [B][..0] == [];
    assert RowPass(s0, A, Zero, [B], AtomDataId, fn) == DemoAfterFirst();
  }

  /** Atom 1's row, from its snapshot -1: the pair (1, 0) is already
      processed, and the pair (1, 2) sets entry 1 to -1 + 1 and takes 1 more
      from entry 2. */
  lemma DemoSecondRow(length: Vec3 -> real)
    requires length(Vec3(1.0, 0.0, 0.0)) == 1.0 && length(Vec3(2.0, 0.0, 0.0)) == 2.0
    ensures RowPass(DemoAfterRow(), DemoAtoms()[1], Vec3(-1.0, 0.0, 0.0), [DemoAtoms()[0], DemoAtoms()[2]],
                    AtomDataId, ForceFn(1.0, 0.0, length)) == DemoAfterSecond()
  {
    var A, B, C := DemoAtoms()[0], DemoAtoms()[1], DemoAtoms()[2];
    var fn := ForceFn(1.0, 0.0, length);
    var snapshot := Vec3(-1.0, 0.0, 0.0);
    DemoForces(length);
    assert fn(B, C) == Vec3(1.0, 0.0, 0.0);
    assert PairKey(1, 0) == (0, 1) && PairKey(1, 2) == (1, 2);
    assert PairStep(DemoAfterRow(), B, snapshot, A, AtomDataId, fn) == DemoAfterRow();
    assert PairStep(DemoAfterRow(), B, snapshot, C, AtomDataId, fn) == DemoAfterSecond();
    assert [A, C][..1] == [A] && [A][..0] == [];
    assert RowPass(DemoAfterRow(), B, snapshot, [A], AtomDataId, fn) == DemoAfterRow();
  }

  /** Atom 2's row changes nothing: both of its pairs are processed. */
  lemma DemoThirdRow(length: Vec3 -> real)
    ensures RowPass(DemoAfterSecond(), DemoAtoms()[2], Vec3(-1.25, 0.0, 0.0), [DemoAtoms()[0], DemoAtoms()[1]],
                    AtomDataId, ForceFn(1.0, 0.0, length)) == DemoAfterSecond()
  {
    var A, B, C := DemoAtoms()[0], DemoAtoms()[1], DemoAtoms()[2];
    var fn := ForceFn(1.0, 0.0, length);
    var snapshot := Vec3(-1.25, 0.0, 0.0);
    assert PairKey(2, 0) == (0, 2) && PairKey(2, 1) == (1, 2);
    assert PairStep(DemoAfterSecond(), C, snapshot, A, AtomDataId, fn) == DemoAfterSecond();
    assert PairStep(DemoAfterSecond(), C, snapshot, B, AtomDataId, fn) == DemoAfterSecond();
    assert [A, B][..1] == [A] && [A][..0] == [];
    assert RowPass(DemoAfterSecond(), C, snapshot, [A], AtomDataId, fn) == DemoAfterSecond();
  }

  /** The stale snapshot breaks action and reaction: with G = 1 and k = 0,
      atom 0 keeps only the pull of atom 2 (0.25), atom 1 keeps only the
      pull of atom 2 over its snapshot (-1 + 1 = 0) and atom 2 loses 0.25
      and 1, so the answered forces sum to (-1, 0, 0) instead of zero
      (applyLongRangeForces, on the same atoms, sums to zero:
      LongRange.LongRangeNetZero). */
  lemma WorkerNotNetZero(length: Vec3 -> real)
    requires length(Vec3(1.0, 0.0, 0.0)) == 1.0 && length(Vec3(2.0, 0.0, 0.0)) == 2.0
    ensures Resolves(DemoAtoms(), DemoEntries())
    ensures var F := WorkerPass(DemoAtoms(), DemoEntries(), 1.0, 0.0, length).forces;
      F == map[0 := Vec3(0.25, 0.0, 0.0), 1 := Vec3(0.0, 0.0, 0.0), 2 := Vec3(-1.25, 0.0, 0.0)] &&
      Add(Add(F[0], F[1]), F[2]) == Vec3(-1.0, 0.0, 0.0)
  {
    DemoWorkerPass(length);
  }

  /** The worker pass over the configuration is the three row passes. */
  lemma DemoWorkerPass(length: Vec3 -> real)
    requires length(Vec3(1.0, 0.0, 0.0)) == 1.0 && length(Vec3(2.0, 0.0, 0.0)) == 2.0
    ensures Resolves(DemoAtoms(), DemoEntries())
    ensures WorkerPass(DemoAtoms(), DemoEntries(), 1.0, 0.0, length) == DemoAfterSecond()
  {
    DemoRows();
    DemoPass(length);
  }

  /** The three rows in turn, each from its own snapshot. */
  lemma DemoPass(length: Vec3 -> real)
    requires length(Vec3(1.0, 0.0, 0.0)) == 1.0 && length(Vec3(2.0, 0.0, 0.0)) == 2.0
    ensures var A, B, C := DemoAtoms()[0], DemoAtoms()[1], DemoAtoms()[2];
      Pass([(A, [B, C]), (B, [A, C]), (C, [A, B])], AtomDataId, ForceFn(1.0, 0.0, length)) == DemoAfterSecond()
  {
    var A, B, C := DemoAtoms()[0], DemoAtoms()[1], DemoAtoms()[2];
    var rows := [(A, [B, C]), (B, [A, C]), (C, [A, B])];
    var fn := ForceFn(1.0, 0.0, length);
    DemoFirstRow(length);
    DemoSecondRow(length);
    DemoThirdRow(length);
    assert rows[..1][..0] == [];
    assert Pass(rows[..1], AtomDataId, fn) == DemoAfterRow();
    assert ForceAt(DemoAfterRow().forces, 1) == Vec3(-1.0, 0.0, 0.0);
    assert rows[..2][..1] == rows[..1];
    assert Pass(rows[..2], AtomDataId, fn) == DemoAfterSecond();
    assert ForceAt(DemoAfterSecond().forces, 2) == Vec3(-1.25, 0.0, 0.0);
    assert rows[..2] == rows[..|rows| - 1];
  }

  /** The inner loop over the neighbor ids of one atom. */
  method NeighborLoop(atom: AtomData, neighbors: seq<nat>, atomMap: map<nat, AtomData>, atomForce: Vec3,
                      forces0: map<nat, Vec3>, processedPairs0: set<Key>, ghost schedule0: Schedule<AtomData>,
                      G: real, k: real, length: Vec3 -> real)
    returns (forces: map<nat, Vec3>, processedPairs: set<Key>, ghost schedule: Schedule<AtomData>)
    requires forall x :: x in neighbors ==> x in atomMap
    requires processedPairs0 == schedule0.processed
    ensures PassState(forces, schedule) == RowPass(PassState(forces0, schedule0), atom, atomForce,
                                                   Resolve(atomMap, neighbors), AtomDataId, ForceFn(G, k, length))
    ensures processedPairs == schedule.processed
    ensures var t := RowPass(PassState(forces0, schedule0), atom, atomForce, Resolve(atomMap, neighbors), AtomDataId,
                             ForceFn(G, k, length));
      forces == t.forces && processedPairs == t.schedule.processed
  {
    ghost var partners := Resolve(atomMap, neighbors);
    ghost var fn := ForceFn(G, k, length);
    ghost var s0 := PassState(forces0, schedule0);
    forces, processedPairs, schedule := forces0, processedPairs0, schedule0;
    for j := 0 to |neighbors|
      invariant PassState(forces, schedule) == RowPass(s0, atom, atomForce, partners[..j], AtomDataId, fn)
      invariant processedPairs == schedule.processed
    {
      assert partners[..j + 1][..j] == partners[..j];
      var neighbor := atomMap[neighbors[j]];
      assert neighbor == partners[j];
      var pairKey := PairKey(atom.id, neighbor.id);
      if pairKey !in processedPairs {
        processedPairs := processedPairs + {pairKey};
        var totalForce := WorkerPairForce(atom, neighbor, G, k, length);
        assert totalForce == fn(atom, neighbor);
        forces := forces[atom.id := Add(atomForce, totalForce)];
        forces := forces[neighbor.id := Add(ForceAt(forces, neighbor.id), Neg(totalForce))];
        schedule := Schedule(schedule.processed + {pairKey}, schedule.handled + [(atom, neighbor)]);
      }
    }
    assert partners[..|neighbors|] == partners;
  }

  /** The worker's `onmessage` body: the answered `forces` are those of the
      pass specified by WorkerPass. */
  method LongRangeForcesPass(atoms: seq<AtomData>, entries: seq<NeighborListData>, G: real, k: real,
                             length: Vec3 -> real) returns (forces: map<nat, Vec3>)
    requires Resolves(atoms, entries)
    ensures forces == WorkerPass(atoms, entries, G, k, length).forces
  {
    var atomMap := IndexById(atoms, AtomDataId);
    var neighborMap := NeighborMapOf(entries);
    ghost var rows := WorkerRows(atoms, entries);
    ghost var fn := ForceFn(G, k, length);
    forces := map[];
    var processedPairs: set<Key> := {};
    ghost var schedule: Schedule<AtomData> := Schedule({}, []);
    for i := 0 to |atoms|
      invariant PassState(forces, schedule) == Pass(rows[..i], AtomDataId, fn) && processedPairs == schedule.processed
    {
      var atom := atoms[i];
      PassStep(rows, i, AtomDataId, fn);
      var atomForce := ForceAt(forces, atom.id);
      var neighbors := NeighborsWorker.NeighborIdsOf(neighborMap, atom.id);
      assert rows[i] == (atom, Resolve(atomMap, neighbors));
      forces, processedPairs, schedule := NeighborLoop(atom, neighbors, atomMap, atomForce, forces, processedPairs,
                                                       schedule, G, k, length);
    }
    assert rows[..|atoms|] == rows;
  }
}

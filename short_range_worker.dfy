/** The short-range forces worker (src/workers/shortRangeForcesWorker.ts):
    a vibrational pass over the bonded pairs, deduplicated by the sorted pair
    key, followed by a rotational pass over the i < j bond pairs of each
    atom, both writing into an id-keyed `forces` dictionary. Each pass
    captures the atom's entry once per atom and overwrites the entry from that
    snapshot, so only the last pair's contribution survives on the atom. */
module ShortRangeWorker {
  import opened Vectors
  import opened PairIndex
  import opened PairSchedule
  import opened ForceMapPass
  import opened RecordIndex
  import opened Rotation
  import AtomModel
  import LongRange

  datatype BondData = BondData(id: nat, position: Vec3, bonds: seq<nat>)

  function BondDataId(a: BondData): nat {
    a.id
  }

  /** Every bond id of the records is a key of m. */
  predicate BondsIn(atoms: seq<BondData>, m: map<nat, BondData>) {
    forall i, x :: 0 <= i < |atoms| && x in atoms[i].bonds ==> x in m
  }

  /** What the `atomMap.get(id)!` lookups take for granted: every bond id
      names an input record. */
  predicate BondsResolve(atoms: seq<BondData>) {
    BondsIn(atoms, IndexById(atoms, BondDataId))
  }

  /** The vibrational force on `a` from its bond partner `b`: the distance
      clamped to MIN_DISTANCE, along the displacement divided by the clamped
      distance, scaled by springConstant * (r - 1). */
  function WorkerVibrationalForce(a: BondData, b: BondData, springConstant: real, length: Vec3 -> real): Vec3 {
    var d := Sub(b.position, a.position);
    var r := LongRange.Clamp(length(d));
    Scale(Div(d, r), springConstant * (r - AtomModel.RestLength))
  }

  function VibrationalFn(springConstant: real, length: Vec3 -> real): (BondData, BondData) -> Vec3 {
    (a: BondData, b: BondData) => WorkerVibrationalForce(a, b, springConstant, length)
  }

  /** The rows of the vibrational pass: each record with its resolved bond partners. */
  function VibrationalRows(atoms: seq<BondData>): seq<(BondData, seq<BondData>)>
    requires BondsResolve(atoms)
  {
    var atomMap := IndexById(atoms, BondDataId);
    seq(|atoms|, i requires 0 <= i < |atoms| => (atoms[i], Resolve(atomMap, atoms[i].bonds)))
  }

  /** Row i of the vibrational pass is record i with, in bond order, an
      input record for each of its bond ids, carrying that id. */
  lemma VibrationalRowsResolved(atoms: seq<BondData>, i: nat)
    requires BondsResolve(atoms) && i < |atoms|
    ensures |VibrationalRows(atoms)| == |atoms|
    ensures var row := VibrationalRows(atoms)[i];
      row.0 == atoms[i] && |row.1| == |atoms[i].bonds| &&
      forall j :: 0 <= j < |atoms[i].bonds| ==> row.1[j] in atoms && row.1[j].id == atoms[i].bonds[j]
  {
    ResolveIndexById(atoms, BondDataId, atoms[i].bonds);
  }

  /** The state the vibrational loops reach. */
  function VibrationalPass(atoms: seq<BondData>, springConstant: real, length: Vec3 -> real): PassState<BondData>
    requires BondsResolve(atoms)
  {
    Pass(VibrationalRows(atoms), BondDataId, VibrationalFn(springConstant, length))
  }

  /** At least MIN_DISTANCE apart, and for a norm that ignores the sign of its
      argument, the worker's vibrational force is the one
      applyVibrationalForce adds on the atom. */
  lemma WorkerVibrationalAgreesLocal(a: BondData, b: BondData, springConstant: real, length: Vec3 -> real)
    requires length(Sub(b.position, a.position)) >= LongRange.MinDistance
    requires length(Sub(a.position, b.position)) == length(Sub(b.position, a.position))
    ensures WorkerVibrationalForce(a, b, springConstant, length) ==
      AtomModel.LocalVibrationalForce(a.position, b.position, springConstant, length)
  {
    var d := Sub(b.position, a.position);
    assert LongRange.Clamp(length(d)) == length(d);
    assert Normalize(d, length(d)) == Div(d, length(d));
  }

  /** Closer than MIN_DISTANCE the distance counts as 0.1, so the bond pulls
      (for a positive spring constant) with the displacement times
      -9 * springConstant. */
  lemma WorkerVibrationalClamped(a: BondData, b: BondData, springConstant: real, length: Vec3 -> real)
    requires length(Sub(b.position, a.position)) <= LongRange.MinDistance
    ensures WorkerVibrationalForce(a, b, springConstant, length) ==
      Scale(Sub(b.position, a.position), -9.0 * springConstant)
  {
    var d := Sub(b.position, a.position);
    assert LongRange.Clamp(length(d)) == 0.1;
    var s := springConstant * (0.1 - 1.0);
    assert Div(d, 0.1) == Scale(d, 10.0);
    assert d.x * 10.0 * s == d.x * (-9.0 * springConstant);
    assert d.y * 10.0 * s == d.y * (-9.0 * springConstant);
    assert d.z * 10.0 * s == d.z * (-9.0 * springConstant);
  }

  /** Each unordered bonded pair is handled at most once in the vibrational pass. */
  lemma VibrationalPairsOnce(atoms: seq<BondData>, springConstant: real, length: Vec3 -> real)
    requires BondsResolve(atoms)
    ensures var h := VibrationalPass(atoms, springConstant, length).schedule.handled;
      forall i, j :: 0 <= i < j < |h| ==> KeyOf(h[i], BondDataId) != KeyOf(h[j], BondDataId)
  {
    var rows := VibrationalRows(atoms);
    PassAtMostOnce(rows, BondDataId, VibrationalFn(springConstant, length));
    assert VibrationalPass(atoms, springConstant, length) == Pass(rows, BondDataId, VibrationalFn(springConstant, length));
  }

  /** The key of every (record, bond id) is processed by the end of the vibrational pass. */
  lemma VibrationalBondProcessed(atoms: seq<BondData>, springConstant: real, length: Vec3 -> real, i: nat, x: nat)
    requires BondsResolve(atoms)
    requires i < |atoms| && x in atoms[i].bonds
    ensures PairKey(atoms[i].id, x) in VibrationalPass(atoms, springConstant, length).schedule.processed
  {
    var rows := VibrationalRows(atoms);
    PassAtMostOnce(rows, BondDataId, VibrationalFn(springConstant, length));
    var j :| 0 <= j < |atoms[i].bonds| && atoms[i].bonds[j] == x;
    assert rows[i].1 == Resolve(IndexById(atoms, BondDataId), atoms[i].bonds);
    assert rows[i].1[j] in rows[i].1 && BondDataId(rows[i].1[j]) == x;
  }

  /** A record not bonded to itself has only partners with other ids. */
  lemma PartnersDiffer(atoms: seq<BondData>, i: nat)
    requires BondsResolve(atoms)
    requires i < |atoms| && atoms[i].id !in atoms[i].bonds
    ensures forall p :: p in VibrationalRows(atoms)[i].1 ==> BondDataId(p) != atoms[i].id
  {
    var partners := VibrationalRows(atoms)[i].1;
    assert partners == Resolve(IndexById(atoms, BondDataId), atoms[i].bonds);
    forall p | p in partners ensures BondDataId(p) != atoms[i].id {
      var j :| 0 <= j < |partners| && partners[j] == p;
      assert BondDataId(p) == atoms[i].bonds[j];
    }
  }

  /** The stale snapshot in the vibrational pass: after record i's row, when
      the record is not bonded to itself, its entry is unchanged if the row
      handles no pair, and otherwise is the entry captured at the start of
      the row plus the force of the row's LAST handled bond only. */
  lemma VibrationalRowCenter(atoms: seq<BondData>, springConstant: real, length: Vec3 -> real, i: nat)
    requires BondsResolve(atoms)
    requires i < |atoms| && atoms[i].id !in atoms[i].bonds
    ensures var rows := VibrationalRows(atoms);
      var fn := VibrationalFn(springConstant, length);
      var s, t := Pass(rows[..i], BondDataId, fn), Pass(rows[..i + 1], BondDataId, fn);
      var c := atoms[i].id;
      |s.schedule.handled| <= |t.schedule.handled| &&
      (|t.schedule.handled| == |s.schedule.handled| ==> ForceAt(t.forces, c) == ForceAt(s.forces, c)) &&
      (|t.schedule.handled| > |s.schedule.handled| ==>
        var last := t.schedule.handled[|t.schedule.handled| - 1];
        last.0 == atoms[i] && last.1 in rows[i].1 &&
        ForceAt(t.forces, c) == Add(ForceAt(s.forces, c), WorkerVibrationalForce(atoms[i], last.1, springConstant, length)))
  {
    var rows := VibrationalRows(atoms);
    var fn := VibrationalFn(springConstant, length);
    PartnersDiffer(atoms, i);
    PassRowCenter(rows, i, BondDataId, fn);
  }

  /** The partner entries are read afresh: after record i's row, every entry
      other than the record's own has lost exactly the forces of the pairs the
      row handled with that partner. */
  lemma VibrationalRowPartner(atoms: seq<BondData>, springConstant: real, length: Vec3 -> real, i: nat, x: nat)
    requires BondsResolve(atoms)
    requires i < |atoms| && x != atoms[i].id
    ensures var rows := VibrationalRows(atoms);
      var fn := VibrationalFn(springConstant, length);
      var s, t := Pass(rows[..i], BondDataId, fn), Pass(rows[..i + 1], BondDataId, fn);
      |s.schedule.handled| <= |t.schedule.handled| &&
      ForceAt(t.forces, x) == Add(ForceAt(s.forces, x), Loss(x, t.schedule.handled[|s.schedule.handled|..], BondDataId, fn))
  {
    var rows := VibrationalRows(atoms);
    var fn := VibrationalFn(springConstant, length);
    var s := Pass(rows[..i], BondDataId, fn);
    PassStep(rows, i, BondDataId, fn);
    RowPassPartner(s, atoms[i], ForceAt(s.forces, atoms[i].id), rows[i].1, BondDataId, fn, x);
  }

  /** The partner positions of a bond list, `atomMap.get(bonds[i])!.position`. */
  function BondPositions(atomMap: map<nat, BondData>, bonds: seq<nat>): seq<Vec3>
    requires forall x :: x in bonds ==> x in atomMap
  {
    seq(|bonds|, i requires 0 <= i < |bonds| => atomMap[bonds[i]].position)
  }

  /** The inner loops of the rotational pass: each visited pair overwrites
      the center's entry with the snapshot plus the pair's term. */
  function Overwrite(F: map<nat, Vec3>, c: nat, snapshot: Vec3, pairs: seq<(nat, nat)>, rotationalConstant: real,
                     center: Vec3, qs: seq<Vec3>, rotational: (real, Vec3, Vec3, Vec3) -> Vec3): map<nat, Vec3>
  {
    if pairs == [] then F
    else Overwrite(F, c, snapshot, pairs[..|pairs| - 1], rotationalConstant, center, qs, rotational)
           [c := Add(snapshot, RotationalTerm(pairs[|pairs| - 1], rotationalConstant, center, qs, rotational))]
  }

  /** Only the last visited pair counts: every earlier write is overwritten. */
  lemma {:induction false} OverwriteLast(F: map<nat, Vec3>, c: nat, snapshot: Vec3, pairs: seq<(nat, nat)>,
                                         rotationalConstant: real, center: Vec3, qs: seq<Vec3>,
                                         rotational: (real, Vec3, Vec3, Vec3) -> Vec3)
    ensures Overwrite(F, c, snapshot, pairs, rotationalConstant, center, qs, rotational) ==
      if pairs == [] then F
      else F[c := Add(snapshot, RotationalTerm(pairs[|pairs| - 1], rotationalConstant, center, qs, rotational))]
  {
    if pairs != [] {
      var front := pairs[..|pairs| - 1];
      OverwriteLast(F, c, snapshot, front, rotationalConstant, center, qs, rotational);
      var v := Add(snapshot, RotationalTerm(pairs[|pairs| - 1], rotationalConstant, center, qs, rotational));
      if front != [] {
        var w := Add(snapshot, RotationalTerm(front[|front| - 1], rotationalConstant, center, qs, rotational));
        assert F[c := w][c := v] == F[c := v];
      }
    }
  }

  lemma {:induction false} OverwriteAppend(F: map<nat, Vec3>, c: nat, snapshot: Vec3, a: seq<(nat, nat)>, b: seq<(nat, nat)>,
                                           rotationalConstant: real, center: Vec3, qs: seq<Vec3>,
                                           rotational: (real, Vec3, Vec3, Vec3) -> Vec3)
    ensures Overwrite(F, c, snapshot, a + b, rotationalConstant, center, qs, rotational) ==
      Overwrite(Overwrite(F, c, snapshot, a, rotationalConstant, center, qs, rotational), c, snapshot, b,
                rotationalConstant, center, qs, rotational)
    decreases |b|
  {
    if b == [] {
      assert a + b == a;
    } else {
      assert (a + b)[..|a + b| - 1] == a + b[..|b| - 1];
      OverwriteAppend(F, c, snapshot, a, b[..|b| - 1], rotationalConstant, center, qs, rotational);
    }
  }

  /** One run of the inner loop for bond i, j in [lo, hi), starting from F. */
  function RowWrite(F: map<nat, Vec3>, c: nat, snapshot: Vec3, i: nat, lo: nat, hi: nat, rotationalConstant: real,
                    center: Vec3, qs: seq<Vec3>, rotational: (real, Vec3, Vec3, Vec3) -> Vec3): map<nat, Vec3>
    decreases hi
  {
    if hi <= lo then F
    else RowWrite(F, c, snapshot, i, lo, hi - 1, rotationalConstant, center, qs, rotational)
           [c := Add(snapshot, RotationalTerm((i, hi - 1), rotationalConstant, center, qs, rotational))]
  }

  /** The first `rows` runs of the outer loop over n bonds, starting from F. */
  function RowsWrite(F: map<nat, Vec3>, c: nat, snapshot: Vec3, rows: nat, n: nat, rotationalConstant: real,
                     center: Vec3, qs: seq<Vec3>, rotational: (real, Vec3, Vec3, Vec3) -> Vec3): map<nat, Vec3>
  {
    if rows == 0 then F
    else RowWrite(RowsWrite(F, c, snapshot, rows - 1, n, rotationalConstant, center, qs, rotational), c, snapshot,
                  rows - 1, rows, n, rotationalConstant, center, qs, rotational)
  }

  lemma {:induction false} RowWriteOverwrites(F: map<nat, Vec3>, c: nat, snapshot: Vec3, i: nat, lo: nat, hi: nat,
                                              rotationalConstant: real, center: Vec3, qs: seq<Vec3>,
                                              rotational: (real, Vec3, Vec3, Vec3) -> Vec3)
    ensures RowWrite(F, c, snapshot, i, lo, hi, rotationalConstant, center, qs, rotational)
         == Overwrite(F, c, snapshot, Row(i, lo, hi), rotationalConstant, center, qs, rotational)
    decreases hi
  {
    if hi > lo {
      var front := Row(i, lo, hi - 1);
      assert Row(i, lo, hi) == front + [(i, hi - 1)];
      RowWriteOverwrites(F, c, snapshot, i, lo, hi - 1, rotationalConstant, center, qs, rotational);
      assert (front + [(i, hi - 1)])[..|front|] == front;
    } else {
      assert Row(i, lo, hi) == [];
    }
  }

  /** The nested loops make exactly the writes of PairsBefore(rows, n), in that order. */
  lemma {:induction false} RowsWriteOverwrites(F: map<nat, Vec3>, c: nat, snapshot: Vec3, rows: nat, n: nat,
                                               rotationalConstant: real, center: Vec3, qs: seq<Vec3>,
                                               rotational: (real, Vec3, Vec3, Vec3) -> Vec3)
    ensures RowsWrite(F, c, snapshot, rows, n, rotationalConstant, center, qs, rotational)
         == Overwrite(F, c, snapshot, PairsBefore(rows, n), rotationalConstant, center, qs, rotational)
  {
    if rows > 0 {
      var G := RowsWrite(F, c, snapshot, rows - 1, n, rotationalConstant, center, qs, rotational);
      RowsWriteOverwrites(F, c, snapshot, rows - 1, n, rotationalConstant, center, qs, rotational);
      RowWriteOverwrites(G, c, snapshot, rows - 1, rows, n, rotationalConstant, center, qs, rotational);
      OverwriteAppend(F, c, snapshot, PairsBefore(rows - 1, n), Row(rows - 1, rows, n), rotationalConstant, center, qs,
                      rotational);
    }
  }

  /** The rotational loops of one record: its entry is captured once, then
      overwritten for every pair i < j of its bonds. */
  function RotationalRow(F: map<nat, Vec3>, atom: BondData, atomMap: map<nat, BondData>, rotationalConstant: real,
                         rotational: (real, Vec3, Vec3, Vec3) -> Vec3): map<nat, Vec3>
    requires forall x :: x in atom.bonds ==> x in atomMap
  {
    Overwrite(F, atom.id, ForceAt(F, atom.id), Pairs(|atom.bonds|), rotationalConstant, atom.position,
              BondPositions(atomMap, atom.bonds), rotational)
  }

  /** A record's rotational loops write only its own entry: with fewer than
      two bonds nothing changes; otherwise the entry becomes the captured
      value plus the term of the LAST pair (n - 2, n - 1) alone. */
  lemma RotationalRowEffect(F: map<nat, Vec3>, atom: BondData, atomMap: map<nat, BondData>, rotationalConstant: real,
                            rotational: (real, Vec3, Vec3, Vec3) -> Vec3)
    requires forall x :: x in atom.bonds ==> x in atomMap
    ensures var n := |atom.bonds|;
      RotationalRow(F, atom, atomMap, rotationalConstant, rotational) ==
        if n < 2 then F
        else F[atom.id := Add(ForceAt(F, atom.id), rotational(rotationalConstant, atom.position,
                                                               atomMap[atom.bonds[n - 2]].position,
                                                               atomMap[atom.bonds[n - 1]].position))]
  {
    var n := |atom.bonds|;
    var qs := BondPositions(atomMap, atom.bonds);
    OverwriteLast(F, atom.id, ForceAt(F, atom.id), Pairs(n), rotationalConstant, atom.position, qs, rotational);
    if n < 2 {
      PairsShort(n);
    } else {
      PairsLast(n);
    }
  }

  lemma BondsInPrefix(atoms: seq<BondData>, m: map<nat, BondData>, n: nat)
    requires BondsIn(atoms, m) && n <= |atoms|
    ensures BondsIn(atoms[..n], m)
  {
    forall i, x | 0 <= i < n && x in atoms[..n][i].bonds ensures x in m {
      assert atoms[..n][i] == atoms[i];
    }
  }

  /** The rotational pass over the records, in input order. */
  function RotationalPass(F: map<nat, Vec3>, atoms: seq<BondData>, atomMap: map<nat, BondData>,
                          rotationalConstant: real, rotational: (real, Vec3, Vec3, Vec3) -> Vec3): map<nat, Vec3>
    requires BondsIn(atoms, atomMap)
  {
    if atoms == [] then F
    else
      var n := |atoms| - 1;
      BondsInPrefix(atoms, atomMap, n);
      RotationalRow(RotationalPass(F, atoms[..n], atomMap, rotationalConstant, rotational), atoms[n], atomMap,
                    rotationalConstant, rotational)
  }

  /** The rotational pass writes only the entries of the records' ids: any
      other id keeps its entry, or its absence. */
  lemma {:induction false} RotationalPassFrame(F: map<nat, Vec3>, atoms: seq<BondData>, atomMap: map<nat, BondData>,
                                               rotationalConstant: real, rotational: (real, Vec3, Vec3, Vec3) -> Vec3, x: nat)
    requires BondsIn(atoms, atomMap)
    requires forall i :: 0 <= i < |atoms| ==> atoms[i].id != x
    ensures var R := RotationalPass(F, atoms, atomMap, rotationalConstant, rotational);
      (x in R <==> x in F) && ForceAt(R, x) == ForceAt(F, x)
    decreases |atoms|
  {
    if atoms != [] {
      var n := |atoms| - 1;
      BondsInPrefix(atoms, atomMap, n);
      RotationalPassFrame(F, atoms[..n], atomMap, rotationalConstant, rotational, x);
      var R0 := RotationalPass(F, atoms[..n], atomMap, rotationalConstant, rotational);
      RotationalRowEffect(R0, atoms[n], atomMap, rotationalConstant, rotational);
    }
  }

  /** The entry a record's rotational loops leave from the captured value v:
      v itself with fewer than two bonds, otherwise v plus the term of the
      last bond pair (n - 2, n - 1). */
  function RowEntry(v: Vec3, a: BondData, atomMap: map<nat, BondData>, rotationalConstant: real,
                    rotational: (real, Vec3, Vec3, Vec3) -> Vec3): Vec3
    requires forall x :: x in a.bonds ==> x in atomMap
  {
    var n := |a.bonds|;
    if n < 2 then v
    else Add(v, rotational(rotationalConstant, a.position, atomMap[a.bonds[n - 2]].position,
                           atomMap[a.bonds[n - 1]].position))
  }

  /** RotationalRowEffect, entry by entry. */
  lemma RotationalRowAt(F: map<nat, Vec3>, a: BondData, atomMap: map<nat, BondData>, rotationalConstant: real,
                        rotational: (real, Vec3, Vec3, Vec3) -> Vec3, x: nat)
    requires forall y :: y in a.bonds ==> y in atomMap
    ensures ForceAt(RotationalRow(F, a, atomMap, rotationalConstant, rotational), x) ==
      if x == a.id then RowEntry(ForceAt(F, a.id), a, atomMap, rotationalConstant, rotational) else ForceAt(F, x)
  {
    RotationalRowEffect(F, a, atomMap, rotationalConstant, rotational);
  }

  /** The pass over one more record, entry by entry. */
  lemma RotationalPassAt(F: map<nat, Vec3>, atoms: seq<BondData>, atomMap: map<nat, BondData>,
                         rotationalConstant: real, rotational: (real, Vec3, Vec3, Vec3) -> Vec3, x: nat)
    requires BondsIn(atoms, atomMap) && atoms != []
    ensures BondsIn(atoms[..|atoms| - 1], atomMap)
    ensures var n := |atoms| - 1;
      var R0 := RotationalPass(F, atoms[..n], atomMap, rotationalConstant, rotational);
      ForceAt(RotationalPass(F, atoms, atomMap, rotationalConstant, rotational), x) ==
        if x == atoms[n].id then RowEntry(ForceAt(R0, x), atoms[n], atomMap, rotationalConstant, rotational)
        else ForceAt(R0, x)
  {
    var n := |atoms| - 1;
    BondsInPrefix(atoms, atomMap, n);
    var R0 := RotationalPass(F, atoms[..n], atomMap, rotationalConstant, rotational);
    assert RotationalPass(F, atoms, atomMap, rotationalConstant, rotational) ==
      RotationalRow(R0, atoms[n], atomMap, rotationalConstant, rotational);
    RotationalRowAt(R0, atoms[n], atomMap, rotationalConstant, rotational, x);
  }

  /** With distinct ids, each record's final entry is RowEntry of its entry
      before the rotational pass: the last bond pair's term only. */
  lemma {:induction false} RotationalPassFinal(F: map<nat, Vec3>, atoms: seq<BondData>, atomMap: map<nat, BondData>,
                                               rotationalConstant: real, rotational: (real, Vec3, Vec3, Vec3) -> Vec3, k: nat)
    requires BondsIn(atoms, atomMap)
    requires forall i, j :: 0 <= i < j < |atoms| ==> atoms[i].id != atoms[j].id
    requires k < |atoms|
    ensures ForceAt(RotationalPass(F, atoms, atomMap, rotationalConstant, rotational), atoms[k].id) ==
      RowEntry(ForceAt(F, atoms[k].id), atoms[k], atomMap, rotationalConstant, rotational)
    decreases |atoms|
  {
    var n := |atoms| - 1;
    var front := atoms[..n];
    BondsInPrefix(atoms, atomMap, n);
    var R0 := RotationalPass(F, front, atomMap, rotationalConstant, rotational);
    var x := atoms[k].id;
    var goal := RowEntry(ForceAt(F, x), atoms[k], atomMap, rotationalConstant, rotational);
    RotationalPassAt(F, atoms, atomMap, rotationalConstant, rotational, x);
    if k == n {
      assert ForceAt(R0, x) == ForceAt(F, x) by {
        RotationalPassFrame(F, front, atomMap, rotationalConstant, rotational, x);
      }
    } else {
      assert ForceAt(R0, x) == goal by {
        assert front[k] == atoms[k];
        RotationalPassFinal(F, front, atomMap, rotationalConstant, rotational, k);
      }
      assert x != atoms[n].id;
    }
  }

  /** The answered dictionary: the rotational pass over the state the
      vibrational pass leaves. */
  function ShortRangeAnswer(atoms: seq<BondData>, springConstant: real, rotationalConstant: real, length: Vec3 -> real,
                            rotational: (real, Vec3, Vec3, Vec3) -> Vec3): map<nat, Vec3>
    requires BondsResolve(atoms)
  {
    RotationalPass(VibrationalPass(atoms, springConstant, length).forces, atoms, IndexById(atoms, BondDataId),
                   rotationalConstant, rotational)
  }

  /** The inner vibrational loop over the bond ids of one record. */
  method BondLoop(atom: BondData, atomMap: map<nat, BondData>, atomForce: Vec3, forces0: map<nat, Vec3>,
                  processedPairs0: set<Key>, ghost schedule0: Schedule<BondData>, springConstant: real,
                  length: Vec3 -> real)
    returns (forces: map<nat, Vec3>, processedPairs: set<Key>, ghost schedule: Schedule<BondData>)
    requires forall x :: x in atom.bonds ==> x in atomMap && atomMap[x].id == x
    requires processedPairs0 == schedule0.processed
    ensures PassState(forces, schedule) == RowPass(PassState(forces0, schedule0), atom, atomForce,
                                                   Resolve(atomMap, atom.bonds), BondDataId,
                                                   VibrationalFn(springConstant, length))
    ensures processedPairs == schedule.processed
    ensures var t := RowPass(PassState(forces0, schedule0), atom, atomForce, Resolve(atomMap, atom.bonds), BondDataId,
                             VibrationalFn(springConstant, length));
      forces == t.forces && processedPairs == t.schedule.processed
  {
    ghost var partners := Resolve(atomMap, atom.bonds);
    ghost var fn := VibrationalFn(springConstant, length);
    ghost var s0 := PassState(forces0, schedule0);
    forces, processedPairs, schedule := forces0, processedPairs0, schedule0;
    for j := 0 to |atom.bonds|
      invariant PassState(forces, schedule) == RowPass(s0, atom, atomForce, partners[..j], BondDataId, fn)
      invariant processedPairs == schedule.processed
    {
      assert partners[..j + 1][..j] == partners[..j];
      var bondId := atom.bonds[j];
      var bondedAtom := atomMap[bondId];
      assert bondedAtom == partners[j] && BondDataId(bondedAtom) == bondId;
      var pairKey := PairKey(atom.id, bondId);
      if pairKey !in processedPairs {
        processedPairs := processedPairs + {pairKey};
        var vibrationalForce := WorkerVibrationalForce(atom, bondedAtom, springConstant, length);
        assert vibrationalForce == fn(atom, bondedAtom);
        forces := forces[atom.id := Add(atomForce, vibrationalForce)];
        forces := forces[bondId := Add(ForceAt(forces, bondId), Neg(vibrationalForce))];
        schedule := Schedule(schedule.processed + {pairKey}, schedule.handled + [(atom, bondedAtom)]);
      }
    }
    assert partners[..|atom.bonds|] == partners;
  }

  /** The vibrational loops of the handler. */
  method VibrationalLoops(atoms: seq<BondData>, atomMap: map<nat, BondData>, springConstant: real, length: Vec3 -> real)
    returns (forces: map<nat, Vec3>)
    requires BondsResolve(atoms) && atomMap == IndexById(atoms, BondDataId)
    ensures forces == VibrationalPass(atoms, springConstant, length).forces
  {
    ghost var rows := VibrationalRows(atoms);
    ghost var fn := VibrationalFn(springConstant, length);
    forces := map[];
    var processedPairs: set<Key> := {};
    ghost var schedule: Schedule<BondData> := Schedule({}, []);
    for i := 0 to |atoms|
      invariant PassState(forces, schedule) == Pass(rows[..i], BondDataId, fn) && processedPairs == schedule.processed
    {
      var atom := atoms[i];
      PassStep(rows, i, BondDataId, fn);
      var atomForce := ForceAt(forces, atom.id);
      assert rows[i] == (atom, Resolve(atomMap, atom.bonds));
      forces, processedPairs, schedule := BondLoop(atom, atomMap, atomForce, forces, processedPairs, schedule,
                                                   springConstant, length);
    }
    assert rows[..|atoms|] == rows;
  }

  /** The nested i < j loops of one record in the rotational pass. */
  method RotateAbout(F: map<nat, Vec3>, atom: BondData, atomMap: map<nat, BondData>, rotationalConstant: real,
                     rotational: (real, Vec3, Vec3, Vec3) -> Vec3) returns (forces: map<nat, Vec3>)
    requires forall x :: x in atom.bonds ==> x in atomMap
    ensures forces == RotationalRow(F, atom, atomMap, rotationalConstant, rotational)
  {
    var atomForce := ForceAt(F, atom.id);
    ghost var qs := BondPositions(atomMap, atom.bonds);
    var n := |atom.bonds|;
    forces := F;
    for i := 0 to n
      invariant forces == RowsWrite(F, atom.id, atomForce, i, n, rotationalConstant, atom.position, qs, rotational)
    {
      for j := i + 1 to n
        invariant forces == RowWrite(RowsWrite(F, atom.id, atomForce, i, n, rotationalConstant, atom.position, qs, rotational),
                                     atom.id, atomForce, i, i + 1, j, rotationalConstant, atom.position, qs, rotational)
      {
        var atom1 := atomMap[atom.bonds[i]];
        var atom2 := atomMap[atom.bonds[j]];
        var term := rotational(rotationalConstant, atom.position, atom1.position, atom2.position);
        assert term == RotationalTerm((i, j), rotationalConstant, atom.position, qs, rotational);
        forces := forces[atom.id := Add(atomForce, term)];
      }
    }
    RowsWriteOverwrites(F, atom.id, atomForce, n, n, rotationalConstant, atom.position, qs, rotational);
  }

  /** The worker's `onmessage` body: the vibrational loops, then the
      rotational loops over every record in input order. */
  method ShortRangeForcesPass(atoms: seq<BondData>, springConstant: real, rotationalConstant: real,
                              length: Vec3 -> real, rotational: (real, Vec3, Vec3, Vec3) -> Vec3)
    returns (forces: map<nat, Vec3>)
    requires BondsResolve(atoms)
    ensures forces == ShortRangeAnswer(atoms, springConstant, rotationalConstant, length, rotational)
  {
    var atomMap := IndexById(atoms, BondDataId);
    forces := VibrationalLoops(atoms, atomMap, springConstant, length);
    ghost var F := forces;
    for i := 0 to |atoms|
      invariant BondsIn(atoms[..i], atomMap)
      invariant forces == RotationalPass(F, atoms[..i], atomMap, rotationalConstant, rotational)
    {
      assert atoms[..i + 1][..i] == atoms[..i];
      forces := RotateAbout(forces, atoms[i], atomMap, rotationalConstant, rotational);
    }
    assert atoms[..|atoms|] == atoms;
  }
}

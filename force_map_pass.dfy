/** The pair pass shared by the two force workers
    (src/workers/longRangeForcesWorker.ts and the vibrational pass of
    src/workers/shortRangeForcesWorker.ts). They use the same pair
    deduplication as applyLongRangeForces but write into a `forces`
    dictionary keyed by id, and they capture the center's entry once per
    outer iteration: every handled pair overwrites `forces[center]` with
    that snapshot plus the pair's force, while the partner's entry is read
    afresh and loses the force. */
module ForceMapPass {
  import opened Vectors
  import opened PairIndex
  import opened PairSchedule

  /** The `forces` dictionary and the pair schedule so far. */
  datatype PassState<T> = PassState(forces: map<nat, Vec3>, schedule: Schedule<T>)

  /** One inner iteration: a pair whose key is already processed is skipped;
      otherwise its key is recorded, the center's entry becomes the snapshot
      plus the force and the partner's current entry loses the force. */
  function PairStep<T>(s: PassState<T>, center: T, snapshot: Vec3, partner: T, idOf: T -> nat,
                       force: (T, T) -> Vec3): PassState<T>
  {
    var key := PairKey(idOf(center), idOf(partner));
    if key in s.schedule.processed then s
    else
      var f := force(center, partner);
      var F1 := s.forces[idOf(center) := Add(snapshot, f)];
      PassState(F1[idOf(partner) := Add(ForceAt(F1, idOf(partner)), Neg(f))],
                Schedule(s.schedule.processed + {key}, s.schedule.handled + [(center, partner)]))
  }

  /** The inner loop over the partners of one center. */
  function RowPass<T>(s: PassState<T>, center: T, snapshot: Vec3, partners: seq<T>, idOf: T -> nat,
                      force: (T, T) -> Vec3): PassState<T>
  {
    if partners == [] then s
    else PairStep(RowPass(s, center, snapshot, partners[..|partners| - 1], idOf, force),
                  center, snapshot, partners[|partners| - 1], idOf, force)
  }

  /** The outer loop: each row starts by capturing `forces[center] || [0, 0, 0]`. */
  function Pass<T>(rows: seq<(T, seq<T>)>, idOf: T -> nat, force: (T, T) -> Vec3): PassState<T> {
    if rows == [] then PassState(map[], Schedule({}, []))
    else
      var s := Pass(rows[..|rows| - 1], idOf, force);
      var row := rows[|rows| - 1];
      RowPass(s, row.0, ForceAt(s.forces, idOf(row.0)), row.1, idOf, force)
  }

  /** The pass over one more row. */
  lemma PassStep<T>(rows: seq<(T, seq<T>)>, i: nat, idOf: T -> nat, force: (T, T) -> Vec3)
    requires i < |rows|
    ensures var s := Pass(rows[..i], idOf, force);
      Pass(rows[..i + 1], idOf, force) == RowPass(s, rows[i].0, ForceAt(s.forces, idOf(rows[i].0)), rows[i].1, idOf, force)
  {
    assert rows[..i + 1][..i] == rows[..i];
  }

  /** The forces the partners of `pairs` whose id is x lose. */
  function Loss<T>(x: nat, pairs: seq<(T, T)>, idOf: T -> nat, force: (T, T) -> Vec3): Vec3 {
    if pairs == [] then Zero
    else
      var e := pairs[|pairs| - 1];
      Add(Loss(x, pairs[..|pairs| - 1], idOf, force), if idOf(e.1) == x then Neg(force(e.0, e.1)) else Zero)
  }

  /** One inner iteration: a processed key changes nothing; otherwise the
      center's entry is the snapshot plus the force, the partner's entry its
      previous value (or zero) minus the force, and no other entry changes. */
  lemma PairStepEffect<T>(s: PassState<T>, center: T, snapshot: Vec3, partner: T, idOf: T -> nat,
                          force: (T, T) -> Vec3)
    ensures var t := PairStep(s, center, snapshot, partner, idOf, force);
      var c, p := idOf(center), idOf(partner);
      (PairKey(c, p) in s.schedule.processed ==> t == s) &&
      (PairKey(c, p) !in s.schedule.processed && c != p ==>
        t.forces == s.forces[c := Add(snapshot, force(center, partner))]
                            [p := Add(ForceAt(s.forces, p), Neg(force(center, partner)))])
  {
  }

  /** The forces follow the very schedule of applyLongRangeForces. */
  lemma {:induction false} RowPassSchedule<T>(s: PassState<T>, center: T, snapshot: Vec3, partners: seq<T>,
                                              idOf: T -> nat, force: (T, T) -> Vec3)
    ensures RowPass(s, center, snapshot, partners, idOf, force).schedule == ScheduleRow(s.schedule, center, partners, idOf)
    decreases |partners|
  {
    if partners != [] {
      RowPassSchedule(s, center, snapshot, partners[..|partners| - 1], idOf, force);
    }
  }

  lemma {:induction false} PassSchedule<T>(rows: seq<(T, seq<T>)>, idOf: T -> nat, force: (T, T) -> Vec3)
    ensures Pass(rows, idOf, force).schedule == ScheduleRows(rows, idOf)
    decreases |rows|
  {
    if rows != [] {
      var n := |rows| - 1;
      var s := Pass(rows[..n], idOf, force);
      PassSchedule(rows[..n], idOf, force);
      RowPassSchedule(s, rows[n].0, ForceAt(s.forces, idOf(rows[n].0)), rows[n].1, idOf, force);
    }
  }

  /** Each unordered pair is handled at most once over the whole pass, through
      the shared processed-pair set, and every listed pair's key is processed. */
  lemma PassAtMostOnce<T>(rows: seq<(T, seq<T>)>, idOf: T -> nat, force: (T, T) -> Vec3)
    ensures var h := Pass(rows, idOf, force).schedule.handled;
      forall i, j :: 0 <= i < j < |h| ==> KeyOf(h[i], idOf) != KeyOf(h[j], idOf)
    ensures forall i, p :: 0 <= i < |rows| && p in rows[i].1 ==>
      PairKey(idOf(rows[i].0), idOf(p)) in Pass(rows, idOf, force).schedule.processed
  {
    PassSchedule(rows, idOf, force);
    ScheduleAtMostOnce(rows, idOf);
    ScheduleCovers(rows, idOf);
  }

  /** The stale snapshot: after a row whose partners all differ from the
      center, the center's entry is unchanged when the row handles no pair,
      and otherwise is the snapshot plus the force of the LAST handled pair
      only; the earlier pairs of the row are lost from it. */
  lemma {:induction false} RowPassCenter<T>(s: PassState<T>, center: T, snapshot: Vec3, partners: seq<T>,
                                            idOf: T -> nat, force: (T, T) -> Vec3)
    requires forall p :: p in partners ==> idOf(p) != idOf(center)
    ensures var t := RowPass(s, center, snapshot, partners, idOf, force);
      |s.schedule.handled| <= |t.schedule.handled| &&
      (|t.schedule.handled| == |s.schedule.handled| ==> ForceAt(t.forces, idOf(center)) == ForceAt(s.forces, idOf(center))) &&
      (|t.schedule.handled| > |s.schedule.handled| ==>
        var last := t.schedule.handled[|t.schedule.handled| - 1];
        last.0 == center && last.1 in partners &&
        ForceAt(t.forces, idOf(center)) == Add(snapshot, force(center, last.1)))
    decreases |partners|
  {
    if partners != [] {
      var n := |partners| - 1;
      var u := RowPass(s, center, snapshot, partners[..n], idOf, force);
      RowPassCenter(s, center, snapshot, partners[..n], idOf, force);
      assert forall p :: p in partners[..n] ==> p in partners;
      PairStepEffect(u, center, snapshot, partners[n], idOf, force);
    }
  }

  /** RowPassCenter for row i of a pass. */
  lemma PassRowCenter<T>(rows: seq<(T, seq<T>)>, i: nat, idOf: T -> nat, force: (T, T) -> Vec3)
    requires i < |rows| && forall p :: p in rows[i].1 ==> idOf(p) != idOf(rows[i].0)
    ensures var s, t := Pass(rows[..i], idOf, force), Pass(rows[..i + 1], idOf, force);
      var c := idOf(rows[i].0);
      |s.schedule.handled| <= |t.schedule.handled| &&
      (|t.schedule.handled| == |s.schedule.handled| ==> ForceAt(t.forces, c) == ForceAt(s.forces, c)) &&
      (|t.schedule.handled| > |s.schedule.handled| ==>
        var last := t.schedule.handled[|t.schedule.handled| - 1];
        last.0 == rows[i].0 && last.1 in rows[i].1 && ForceAt(t.forces, c) == Add(ForceAt(s.forces, c), force(rows[i].0, last.1)))
  {
    var s := Pass(rows[..i], idOf, force);
    PassStep(rows, i, idOf, force);
    RowPassCenter(s, rows[i].0, ForceAt(s.forces, idOf(rows[i].0)), rows[i].1, idOf, force);
  }

  /** What one inner iteration takes from the entry x != center. */
  function StepLoss<T>(s: PassState<T>, center: T, partner: T, idOf: T -> nat, force: (T, T) -> Vec3, x: nat): Vec3 {
    if PairKey(idOf(center), idOf(partner)) !in s.schedule.processed && idOf(partner) == x
    then Neg(force(center, partner)) else Zero
  }

  lemma AddAssoc(a: Vec3, b: Vec3, c: Vec3)
    ensures Add(Add(a, b), c) == Add(a, Add(b, c))
  {
  }

  /** The entry x != center changes by StepLoss in one inner iteration. */
  lemma PairStepPartnerForce<T>(u: PassState<T>, center: T, snapshot: Vec3, partner: T, idOf: T -> nat,
                                force: (T, T) -> Vec3, x: nat)
    requires x != idOf(center)
    ensures ForceAt(PairStep(u, center, snapshot, partner, idOf, force).forces, x)
         == Add(ForceAt(u.forces, x), StepLoss(u, center, partner, idOf, force, x))
  {
    var key := PairKey(idOf(center), idOf(partner));
    if key !in u.schedule.processed {
      var f := force(center, partner);
      var F1 := u.forces[idOf(center) := Add(snapshot, f)];
      ForceAtUpdate(u.forces, idOf(center), Add(snapshot, f), x);
      ForceAtUpdate(F1, idOf(partner), Add(ForceAt(F1, idOf(partner)), Neg(f)), x);
    }
  }

  /** One inner iteration adds StepLoss to the loss of the pairs handled
      since position k. */
  lemma PairStepPartnerLoss<T>(u: PassState<T>, center: T, snapshot: Vec3, partner: T, idOf: T -> nat,
                               force: (T, T) -> Vec3, x: nat, k: nat)
    requires k <= |u.schedule.handled|
    ensures var t := PairStep(u, center, snapshot, partner, idOf, force);
      k <= |t.schedule.handled| &&
      Loss(x, t.schedule.handled[k..], idOf, force)
        == Add(Loss(x, u.schedule.handled[k..], idOf, force), StepLoss(u, center, partner, idOf, force, x))
  {
    var key := PairKey(idOf(center), idOf(partner));
    if key !in u.schedule.processed {
      var h := u.schedule.handled;
      assert (h + [(center, partner)])[k..] == h[k..] + [(center, partner)];
      assert (h[k..] + [(center, partner)])[..|h[k..]|] == h[k..];
    }
  }

  /** One inner iteration takes StepLoss from the entry x and adds it to the
      loss of the pairs handled since position k. */
  lemma PairStepPartner<T>(u: PassState<T>, center: T, snapshot: Vec3, partner: T, idOf: T -> nat,
                           force: (T, T) -> Vec3, x: nat, k: nat)
    requires x != idOf(center) && k <= |u.schedule.handled|
    ensures var t := PairStep(u, center, snapshot, partner, idOf, force);
      var d := StepLoss(u, center, partner, idOf, force, x);
      k <= |t.schedule.handled| &&
      ForceAt(t.forces, x) == Add(ForceAt(u.forces, x), d) &&
      Loss(x, t.schedule.handled[k..], idOf, force) == Add(Loss(x, u.schedule.handled[k..], idOf, force), d)
  {
    PairStepPartnerForce(u, center, snapshot, partner, idOf, force, x);
    PairStepPartnerLoss(u, center, snapshot, partner, idOf, force, x, k);
  }

  /** The partners' entries are read afresh: after a row, every entry other
      than the center's has lost exactly the forces of the pairs the row
      handled with that partner. */
  lemma {:induction false} RowPassPartner<T>(s: PassState<T>, center: T, snapshot: Vec3, partners: seq<T>,
                                             idOf: T -> nat, force: (T, T) -> Vec3, x: nat)
    requires x != idOf(center)
    ensures var t := RowPass(s, center, snapshot, partners, idOf, force);
      |s.schedule.handled| <= |t.schedule.handled| &&
      ForceAt(t.forces, x) == Add(ForceAt(s.forces, x), Loss(x, t.schedule.handled[|s.schedule.handled|..], idOf, force))
    decreases |partners|
  {
    var k := |s.schedule.handled|;
    if partners == [] {
      assert s.schedule.handled[k..] == [];
    } else {
      var n := |partners| - 1;
      var u := RowPass(s, center, snapshot, partners[..n], idOf, force);
      RowPassPartner(s, center, snapshot, partners[..n], idOf, force, x);
      PairStepPartner(u, center, snapshot, partners[n], idOf, force, x, k);
      AddAssoc(ForceAt(s.forces, x), Loss(x, u.schedule.handled[k..], idOf, force),
               StepLoss(u, center, partners[n], idOf, force, x));
    }
  }
}

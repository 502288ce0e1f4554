/** The pair bookkeeping of applyRotationalForce: the contributions of the
    visited bond-partner pairs, added to the force in visiting order. The
    per-pair formula (angles, cross products, normalisation) is a parameter. */
module Rotation {
  import opened Vectors
  import opened PairIndex

  /** The contribution of the visited index pair (i, j) given the partner
      positions qs; an index pair outside the list contributes nothing. */
  function RotationalTerm(pair: (nat, nat), rotationalConstant: real, center: Vec3, qs: seq<Vec3>,
                          rotational: (real, Vec3, Vec3, Vec3) -> Vec3): Vec3
  {
    if pair.0 < |qs| && pair.1 < |qs| then rotational(rotationalConstant, center, qs[pair.0], qs[pair.1]) else Zero
  }

  /** `base` with the contribution of each pair added, in order. */
  function Accumulate(base: Vec3, pairs: seq<(nat, nat)>, rotationalConstant: real, center: Vec3, qs: seq<Vec3>,
                      rotational: (real, Vec3, Vec3, Vec3) -> Vec3): Vec3
  {
    if pairs == [] then base
    else Add(Accumulate(base, pairs[..|pairs| - 1], rotationalConstant, center, qs, rotational),
             RotationalTerm(pairs[|pairs| - 1], rotationalConstant, center, qs, rotational))
  }

  lemma {:induction false} AccumulateAppend(base: Vec3, a: seq<(nat, nat)>, b: seq<(nat, nat)>, rotationalConstant: real,
                                            center: Vec3, qs: seq<Vec3>, rotational: (real, Vec3, Vec3, Vec3) -> Vec3)
    ensures Accumulate(base, a + b, rotationalConstant, center, qs, rotational)
         == Accumulate(Accumulate(base, a, rotationalConstant, center, qs, rotational), b, rotationalConstant, center, qs, rotational)
    decreases |b|
  {
    if b == [] {
      assert a + b == a;
    } else {
      assert (a + b)[..|a + b| - 1] == a + b[..|b| - 1];
      AccumulateAppend(base, a, b[..|b| - 1], rotationalConstant, center, qs, rotational);
    }
  }

  /** One run of the inner loop for row i, j in [lo, hi), starting from `base`. */
  function RowFrom(base: Vec3, i: nat, lo: nat, hi: nat, rotationalConstant: real, center: Vec3, qs: seq<Vec3>,
                   rotational: (real, Vec3, Vec3, Vec3) -> Vec3): Vec3
    decreases hi
  {
    if hi <= lo then base
    else Add(RowFrom(base, i, lo, hi - 1, rotationalConstant, center, qs, rotational),
             RotationalTerm((i, hi - 1), rotationalConstant, center, qs, rotational))
  }

  /** The first `rows` runs of the outer loop over n partners, starting from `base`. */
  function RowsFrom(base: Vec3, rows: nat, n: nat, rotationalConstant: real, center: Vec3, qs: seq<Vec3>,
                    rotational: (real, Vec3, Vec3, Vec3) -> Vec3): Vec3
  {
    if rows == 0 then base
    else RowFrom(RowsFrom(base, rows - 1, n, rotationalConstant, center, qs, rotational), rows - 1, rows, n,
                 rotationalConstant, center, qs, rotational)
  }

  lemma {:induction false} RowFromAccumulates(base: Vec3, i: nat, lo: nat, hi: nat, rotationalConstant: real,
                                              center: Vec3, qs: seq<Vec3>, rotational: (real, Vec3, Vec3, Vec3) -> Vec3)
    ensures RowFrom(base, i, lo, hi, rotationalConstant, center, qs, rotational)
         == Accumulate(base, Row(i, lo, hi), rotationalConstant, center, qs, rotational)
    decreases hi
  {
    if hi > lo {
      var front := Row(i, lo, hi - 1);
      assert Row(i, lo, hi) == front + [(i, hi - 1)];
      RowFromAccumulates(base, i, lo, hi - 1, rotationalConstant, center, qs, rotational);
      assert (front + [(i, hi - 1)])[..|front|] == front;
    } else {
      assert Row(i, lo, hi) == [];
    }
  }

  /** The nested loops add exactly the contributions of PairsBefore(rows, n), in that order. */
  lemma {:induction false} RowsFromAccumulates(base: Vec3, rows: nat, n: nat, rotationalConstant: real,
                                               center: Vec3, qs: seq<Vec3>, rotational: (real, Vec3, Vec3, Vec3) -> Vec3)
    ensures RowsFrom(base, rows, n, rotationalConstant, center, qs, rotational)
         == Accumulate(base, PairsBefore(rows, n), rotationalConstant, center, qs, rotational)
  {
    if rows > 0 {
      var b0 := RowsFrom(base, rows - 1, n, rotationalConstant, center, qs, rotational);
      RowsFromAccumulates(base, rows - 1, n, rotationalConstant, center, qs, rotational);
      RowFromAccumulates(b0, rows - 1, rows, n, rotationalConstant, center, qs, rotational);
      AccumulateAppend(base, PairsBefore(rows - 1, n), Row(rows - 1, rows, n), rotationalConstant, center, qs, rotational);
    }
  }
}

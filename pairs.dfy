/** Unordered pairs of atoms. The source keys a pair by its two ids sorted and
    joined (`[a, b].sort().join('-')`); with ids modelled as naturals the key is
    the ordered pair (min, max). The index pairs visited by the nested
    `for i / for j = i + 1` loops over a bond list are `Pairs(n)`. */
module PairIndex {

  type Key = (nat, nat)

  function PairKey(a: nat, b: nat): Key {
    if a <= b then (a, b) else (b, a)
  }

  /** The key identifies the unordered pair: it is the same in both directions,
      and two keys agree exactly when the two pairs have the same members. */
  lemma PairKeyUnordered(a: nat, b: nat, c: nat, d: nat)
    ensures PairKey(a, b) == PairKey(b, a)
    ensures PairKey(a, b) == PairKey(c, d) <==> (a == c && b == d) || (a == d && b == c)
  {
  }

  /** The pairs (i, j) for lo <= j < hi, in increasing j: one run of the inner loop. */
  function Row(i: nat, lo: nat, hi: nat): seq<(nat, nat)>
    decreases hi
  {
    if hi <= lo then [] else Row(i, lo, hi - 1) + [(i, hi - 1)]
  }

  /** The pairs visited by the first `rows` runs of the outer loop over a list of length n. */
  function PairsBefore(rows: nat, n: nat): seq<(nat, nat)>
  {
    if rows == 0 then [] else PairsBefore(rows - 1, n) + Row(rows - 1, rows, n)
  }

  /** Every index pair i < j < n, in the order the nested loops visit them. */
  function Pairs(n: nat): seq<(nat, nat)> {
    PairsBefore(n, n)
  }

  lemma {:induction false} RowMembers(i: nat, lo: nat, hi: nat, p: (nat, nat))
    ensures p in Row(i, lo, hi) <==> p.0 == i && lo <= p.1 < hi
    ensures |Row(i, lo, hi)| == if hi <= lo then 0 else hi - lo
    decreases hi
  {
    if hi > lo {
      RowMembers(i, lo, hi - 1, p);
    }
  }

  lemma {:induction false} RowNoDup(i: nat, lo: nat, hi: nat)
    ensures forall a, b :: 0 <= a < b < |Row(i, lo, hi)| ==> Row(i, lo, hi)[a] != Row(i, lo, hi)[b]
    decreases hi
  {
    if hi > lo {
      RowNoDup(i, lo, hi - 1);
      var r := Row(i, lo, hi - 1);
      forall p | p in r ensures p.1 < hi - 1 {
        RowMembers(i, lo, hi - 1, p);
      }
    }
  }

  lemma {:induction false} PairsBeforeMembers(rows: nat, n: nat, p: (nat, nat))
    ensures p in PairsBefore(rows, n) <==> p.0 < rows && p.0 < p.1 < n
  {
    if rows > 0 {
      PairsBeforeMembers(rows - 1, n, p);
      RowMembers(rows - 1, rows, n, p);
    }
  }

  lemma {:induction false} PairsBeforeNoDup(rows: nat, n: nat)
    ensures forall a, b :: 0 <= a < b < |PairsBefore(rows, n)| ==> PairsBefore(rows, n)[a] != PairsBefore(rows, n)[b]
  {
    if rows > 0 {
      PairsBeforeNoDup(rows - 1, n);
      RowNoDup(rows - 1, rows, n);
      var front := PairsBefore(rows - 1, n);
      var back := Row(rows - 1, rows, n);
      forall p | p in front ensures p.0 < rows - 1 {
        PairsBeforeMembers(rows - 1, n, p);
      }
      forall p | p in back ensures p.0 == rows - 1 {
        RowMembers(rows - 1, rows, n, p);
      }
      var all := front + back;
      forall a, b | 0 <= a < b < |all| ensures all[a] != all[b] {
        if b >= |front| && a < |front| {
          assert all[a] in front && all[b] in back;
        }
      }
    }
  }

  /** The nested loops visit each pair i < j < n, only those, each exactly once. */
  lemma PairsExactlyOnce(n: nat)
    ensures forall p :: p in Pairs(n) <==> p.0 < p.1 < n
    ensures forall a, b :: 0 <= a < b < |Pairs(n)| ==> Pairs(n)[a] != Pairs(n)[b]
  {
    forall p ensures p in Pairs(n) <==> p.0 < p.1 < n {
      PairsBeforeMembers(n, n, p);
    }
    PairsBeforeNoDup(n, n);
  }

  /** The last pair visited over a list of at least two entries is (n - 2, n - 1). */
  lemma PairsLast(n: nat)
    requires n >= 2
    ensures |Pairs(n)| > 0 && Pairs(n)[|Pairs(n)| - 1] == (n - 2, n - 1)
  {
    assert Row(n - 1, n, n) == [];
    assert PairsBefore(n, n) == PairsBefore(n - 1, n);
    assert Row(n - 2, n - 1, n) == Row(n - 2, n - 1, n - 1) + [(n - 2, n - 1)];
  }

  /** Over a list of fewer than two entries the nested loops visit nothing. */
  lemma PairsShort(n: nat)
    requires n < 2
    ensures Pairs(n) == []
  {
    if n == 1 {
      assert Row(0, 1, 1) == [];
    }
  }
}

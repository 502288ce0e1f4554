/** The pair deduplication shared by applyLongRangeForces
    (src/lib/atomFunctions.ts) and the two force workers: an outer loop over
    centers, an inner loop over each center's partners, and one
    `processedPairs` set of sorted pair keys shared by all rows, so a pair
    already seen from either end is skipped. The schedule records the pairs
    that get handled, in order. */
module PairSchedule {
  import opened PairIndex

  /** The processed keys and the (center, partner) pairs handled so far. */
  datatype Schedule<T> = Schedule(processed: set<Key>, handled: seq<(T, T)>)

  function KeyOf<T>(e: (T, T), idOf: T -> nat): Key {
    PairKey(idOf(e.0), idOf(e.1))
  }

  /** The inner loop over the partners of one center. */
  function ScheduleRow<T>(s: Schedule<T>, center: T, partners: seq<T>, idOf: T -> nat): Schedule<T> {
    if partners == [] then s
    else
      var t := ScheduleRow(s, center, partners[..|partners| - 1], idOf);
      var key := PairKey(idOf(center), idOf(partners[|partners| - 1]));
      if key in t.processed then t
      else Schedule(t.processed + {key}, t.handled + [(center, partners[|partners| - 1])])
  }

  /** The outer loop over the rows (center, partners). */
  function ScheduleRows<T>(rows: seq<(T, seq<T>)>, idOf: T -> nat): Schedule<T> {
    if rows == [] then Schedule({}, [])
    else ScheduleRow(ScheduleRows(rows[..|rows| - 1], idOf), rows[|rows| - 1].0, rows[|rows| - 1].1, idOf)
  }

  /** The outer loop one row further. */
  lemma ScheduleRowsStep<T>(rows: seq<(T, seq<T>)>, i: nat, idOf: T -> nat)
    requires i < |rows|
    ensures ScheduleRows(rows[..i + 1], idOf) == ScheduleRow(ScheduleRows(rows[..i], idOf), rows[i].0, rows[i].1, idOf)
  {
    assert rows[..i + 1][..i] == rows[..i];
  }

  /** The processed set is exactly the keys of the handled pairs, and no key
      is handled twice. */
  ghost predicate Consistent<T>(s: Schedule<T>, idOf: T -> nat) {
    s.processed == (set k | 0 <= k < |s.handled| :: KeyOf(s.handled[k], idOf)) &&
    forall i, j :: 0 <= i < j < |s.handled| ==> KeyOf(s.handled[i], idOf) != KeyOf(s.handled[j], idOf)
  }

  /** A row only appends to the handled pairs and only adds keys. */
  lemma {:induction false} ScheduleRowExtends<T>(s: Schedule<T>, center: T, partners: seq<T>, idOf: T -> nat)
    ensures |s.handled| <= |ScheduleRow(s, center, partners, idOf).handled|
    ensures ScheduleRow(s, center, partners, idOf).handled[..|s.handled|] == s.handled
    ensures s.processed <= ScheduleRow(s, center, partners, idOf).processed
    decreases |partners|
  {
    if partners != [] {
      ScheduleRowExtends(s, center, partners[..|partners| - 1], idOf);
    }
  }

  /** A row keeps the schedule consistent. */
  lemma {:induction false} ScheduleRowConsistent<T>(s: Schedule<T>, center: T, partners: seq<T>, idOf: T -> nat)
    requires Consistent(s, idOf)
    ensures Consistent(ScheduleRow(s, center, partners, idOf), idOf)
    decreases |partners|
  {
    if partners != [] {
      var n := |partners| - 1;
      var t := ScheduleRow(s, center, partners[..n], idOf);
      ScheduleRowConsistent(s, center, partners[..n], idOf);
      var key := PairKey(idOf(center), idOf(partners[n]));
      if key !in t.processed {
        var h := t.handled + [(center, partners[n])];
        assert KeyOf(h[|t.handled|], idOf) == key;
        assert (set k | 0 <= k < |h| :: KeyOf(h[k], idOf)) ==
               (set k | 0 <= k < |t.handled| :: KeyOf(t.handled[k], idOf)) + {key} by {
          forall k | 0 <= k < |t.handled| ensures h[k] == t.handled[k] { }
        }
        forall i, j | 0 <= i < j < |h| ensures KeyOf(h[i], idOf) != KeyOf(h[j], idOf) {
          if j < |t.handled| {
            assert h[i] == t.handled[i] && h[j] == t.handled[j];
          } else {
            assert h[i] == t.handled[i];
            assert KeyOf(t.handled[i], idOf) in t.processed;
          }
        }
      }
    }
  }

  /** Each unordered pair is handled at most once over the whole pass, and the
      processed set holds exactly the handled keys. */
  lemma {:induction false} ScheduleAtMostOnce<T>(rows: seq<(T, seq<T>)>, idOf: T -> nat)
    ensures Consistent(ScheduleRows(rows, idOf), idOf)
    decreases |rows|
  {
    if rows != [] {
      var n := |rows| - 1;
      ScheduleAtMostOnce(rows[..n], idOf);
      ScheduleRowConsistent(ScheduleRows(rows[..n], idOf), rows[n].0, rows[n].1, idOf);
    }
  }

  /** After a row, the key of every (center, partner) of that row is processed. */
  lemma {:induction false} ScheduleRowCovers<T>(s: Schedule<T>, center: T, partners: seq<T>, idOf: T -> nat)
    ensures forall p :: p in partners ==> PairKey(idOf(center), idOf(p)) in ScheduleRow(s, center, partners, idOf).processed
    decreases |partners|
  {
    if partners != [] {
      var n := |partners| - 1;
      ScheduleRowCovers(s, center, partners[..n], idOf);
      assert forall p :: p in partners ==> p in partners[..n] || p == partners[n];
    }
  }

  /** Every pair a row lists has its key processed by the end of the pass. */
  lemma {:induction false} ScheduleCovers<T>(rows: seq<(T, seq<T>)>, idOf: T -> nat)
    ensures forall i, p :: 0 <= i < |rows| && p in rows[i].1 ==> PairKey(idOf(rows[i].0), idOf(p)) in ScheduleRows(rows, idOf).processed
    decreases |rows|
  {
    if rows != [] {
      var n := |rows| - 1;
      var s := ScheduleRows(rows[..n], idOf);
      ScheduleCovers(rows[..n], idOf);
      ScheduleRowExtends(s, rows[n].0, rows[n].1, idOf);
      ScheduleRowCovers(s, rows[n].0, rows[n].1, idOf);
      assert forall i :: 0 <= i < n ==> rows[..n][i] == rows[i];
    }
  }

  /** The pairs a row handles have its center and one of its partners. */
  lemma {:induction false} ScheduleRowOrigin<T>(s: Schedule<T>, center: T, partners: seq<T>, idOf: T -> nat)
    ensures forall k :: |s.handled| <= k < |ScheduleRow(s, center, partners, idOf).handled| ==>
      ScheduleRow(s, center, partners, idOf).handled[k].0 == center &&
      ScheduleRow(s, center, partners, idOf).handled[k].1 in partners
    decreases |partners|
  {
    if partners != [] {
      var n := |partners| - 1;
      ScheduleRowOrigin(s, center, partners[..n], idOf);
      ScheduleRowExtends(s, center, partners[..n], idOf);
    }
  }

  /** Over the whole pass, every handled pair is a (center, partner) pair of
      some row. */
  lemma {:induction false} ScheduleOrigin<T>(rows: seq<(T, seq<T>)>, idOf: T -> nat)
    ensures forall k :: 0 <= k < |ScheduleRows(rows, idOf).handled| ==>
      exists i :: 0 <= i < |rows| && ScheduleRows(rows, idOf).handled[k].0 == rows[i].0 &&
                  ScheduleRows(rows, idOf).handled[k].1 in rows[i].1
    decreases |rows|
  {
    if rows != [] {
      var n := |rows| - 1;
      var s := ScheduleRows(rows[..n], idOf);
      var t := ScheduleRows(rows, idOf);
      ScheduleOrigin(rows[..n], idOf);
      ScheduleRowExtends(s, rows[n].0, rows[n].1, idOf);
      ScheduleRowOrigin(s, rows[n].0, rows[n].1, idOf);
      forall k | 0 <= k < |t.handled|
        ensures exists i :: 0 <= i < |rows| && t.handled[k].0 == rows[i].0 && t.handled[k].1 in rows[i].1
      {
        if k < |s.handled| {
          assert t.handled[k] == s.handled[k];
          var i :| 0 <= i < n && s.handled[k].0 == rows[..n][i].0 && s.handled[k].1 in rows[..n][i].1;
          assert rows[..n][i] == rows[i];
        } else {
          assert t.handled[k].0 == rows[n].0 && t.handled[k].1 in rows[n].1;
        }
      }
    } else {
      assert ScheduleRows(rows, idOf).handled == [];
    }
  }
}

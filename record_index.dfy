/** The lookup tables the workers build from their input arrays:
    `new Map(records.map(r => [r.id, r]))`, where a later record with the same
    id replaces an earlier one, and the `map.get(id)!` lookups that resolve
    a list of ids against it. */
module RecordIndex {

  /** The id-keyed map of the records; the last record with an id wins. */
  function IndexById<T(==, !new)>(records: seq<T>, idOf: T -> nat): (m: map<nat, T>)
    ensures m.Keys == set r | r in records :: idOf(r)
    ensures forall x :: x in m ==> m[x] in records && idOf(m[x]) == x
  {
    if records == [] then map[]
    else
      var n := |records| - 1;
      var m := IndexById(records[..n], idOf);
      assert forall r :: r in records <==> r in records[..n] || r == records[n];
      m[idOf(records[n]) := records[n]]
  }

  /** The record a key maps to is the last record carrying that id. */
  lemma {:induction false} IndexByIdLast<T(!new)>(records: seq<T>, idOf: T -> nat, i: nat)
    requires i < |records| && forall j :: i < j < |records| ==> idOf(records[j]) != idOf(records[i])
    ensures idOf(records[i]) in IndexById(records, idOf)
    ensures IndexById(records, idOf)[idOf(records[i])] == records[i]
    decreases |records|
  {
    var n := |records| - 1;
    if i < n {
      IndexByIdLast(records[..n], idOf, i);
    }
  }

  /** `ids.map(id => m.get(id)!)`, for ids that all resolve. */
  function Resolve<T>(m: map<nat, T>, ids: seq<nat>): seq<T>
    requires forall x :: x in ids ==> x in m
  {
    seq(|ids|, i requires 0 <= i < |ids| => m[ids[i]])
  }

  /** Resolving ids against the index of some records gives, in order, one
      of those records for each id, carrying that id. */
  lemma ResolveIndexById<T(!new)>(records: seq<T>, idOf: T -> nat, ids: seq<nat>)
    requires forall x :: x in ids ==> x in IndexById(records, idOf)
    ensures var r := Resolve(IndexById(records, idOf), ids);
      |r| == |ids| && forall j :: 0 <= j < |ids| ==> r[j] in records && idOf(r[j]) == ids[j]
  {
  }

  /** The state of a `forEach` that does `map.set(ids[i], vals[i])` for
      i < n: the keys are the ids seen so far, and each key holds the value
      of the last i carrying it. */
  ghost predicate LastWins<V>(ids: seq<nat>, vals: seq<V>, n: nat, m: map<nat, V>) {
    n <= |ids| && |ids| == |vals| &&
    m.Keys == (set i | 0 <= i < n :: ids[i]) &&
    forall i :: 0 <= i < n && (forall j :: i < j < n ==> ids[j] != ids[i]) ==> m[ids[i]] == vals[i]
  }

  /** One more `map.set` keeps LastWins: the new key is added, and the entry
      it may replace belonged to an earlier i that is no longer the last
      with that id. */
  lemma LastWinsStep<V>(ids: seq<nat>, vals: seq<V>, n: nat, m: map<nat, V>)
    requires LastWins(ids, vals, n, m) && n < |ids|
    ensures LastWins(ids, vals, n + 1, m[ids[n] := vals[n]])
  {
    var m' := m[ids[n] := vals[n]];
    var before := set i | 0 <= i < n :: ids[i];
    var after := set i | 0 <= i < n + 1 :: ids[i];
    forall x | x in after ensures x in before + {ids[n]} {
      var i :| 0 <= i < n + 1 && ids[i] == x;
      if i < n {
        assert x in before;
      }
    }
    assert after == before + {ids[n]};
    forall i | 0 <= i < n + 1 && (forall j :: i < j < n + 1 ==> ids[j] != ids[i])
      ensures m'[ids[i]] == vals[i]
    {
      if i < n {
        assert ids[n] != ids[i];
        assert forall j :: i < j < n ==> ids[j] != ids[i];
      }
    }
  }
}

/** Three-component real vectors: the value model of THREE.Vector3 and of the
    `[number, number, number]` triples the workers exchange. */
module Vectors {

  datatype Vec3 = Vec3(x: real, y: real, z: real)

  const Zero := Vec3(0.0, 0.0, 0.0)

  function Add(a: Vec3, b: Vec3): Vec3 {
    Vec3(a.x + b.x, a.y + b.y, a.z + b.z)
  }

  function Sub(a: Vec3, b: Vec3): Vec3 {
    Vec3(a.x - b.x, a.y - b.y, a.z - b.z)
  }

  function Neg(a: Vec3): Vec3 {
    Vec3(-a.x, -a.y, -a.z)
  }

  function Scale(a: Vec3, s: real): Vec3 {
    Vec3(a.x * s, a.y * s, a.z * s)
  }

  function Div(a: Vec3, s: real): Vec3
    requires s != 0.0
  {
    Vec3(a.x / s, a.y / s, a.z / s)
  }

  /** THREE.Vector3.normalize(): divide by the length, or by 1 when the length is 0. */
  function Normalize(v: Vec3, len: real): Vec3 {
    if len == 0.0 then v else Div(v, len)
  }

  /** Squared Euclidean distance, the quantity under the square root of `distanceTo`. */
  function SqDist(a: Vec3, b: Vec3): real {
    (a.x - b.x) * (a.x - b.x) + (a.y - b.y) * (a.y - b.y) + (a.z - b.z) * (a.z - b.z)
  }

  /** `sqrt(SqDist(a, b)) <= cutoff`, stated without the square root: for a
      non-negative radicand the two are equivalent. */
  predicate WithinCutoff(a: Vec3, b: Vec3, cutoff: real) {
    0.0 <= cutoff && SqDist(a, b) <= cutoff * cutoff
  }

  lemma SqDistSymmetric(a: Vec3, b: Vec3)
    ensures SqDist(a, b) == SqDist(b, a)
    ensures SqDist(a, b) >= 0.0
  {
    assert (a.x - b.x) * (a.x - b.x) == (b.x - a.x) * (b.x - a.x);
    assert (a.y - b.y) * (a.y - b.y) == (b.y - a.y) * (b.y - a.y);
    assert (a.z - b.z) * (a.z - b.z) == (b.z - a.z) * (b.z - a.z);
  }

  /** The neighbor relation is symmetric: the distance is computed identically in
      both directions. */
  lemma WithinCutoffSymmetric(a: Vec3, b: Vec3, cutoff: real)
    ensures WithinCutoff(a, b, cutoff) <==> WithinCutoff(b, a, cutoff)
  {
    SqDistSymmetric(a, b);
  }

  /** `m[id] || [0, 0, 0]`: a missing force entry counts as the zero vector. */
  function ForceAt(m: map<nat, Vec3>, id: nat): Vec3 {
    if id in m then m[id] else Zero
  }

  /** Writing an entry changes what ForceAt reads at that id only. */
  lemma ForceAtUpdate(m: map<nat, Vec3>, id: nat, v: Vec3, x: nat)
    ensures ForceAt(m[id := v], x) == if x == id then v else ForceAt(m, x)
  {
  }

  /** The vector sum of a sequence of forces. */
  function Sum(s: seq<Vec3>): Vec3 {
    if s == [] then Zero else Add(Sum(s[..|s| - 1]), s[|s| - 1])
  }

  lemma {:induction false} SumAppend(s: seq<Vec3>, t: seq<Vec3>)
    ensures Sum(s + t) == Add(Sum(s), Sum(t))
    decreases |t|
  {
    if t == [] {
      assert s + t == s;
    } else {
      assert (s + t)[..|s + t| - 1] == s + t[..|t| - 1];
      SumAppend(s, t[..|t| - 1]);
    }
  }

  /** Entrywise `bs[i] - v[i]`. */
  function Subtract(bs: seq<Vec3>, v: seq<Vec3>): (r: seq<Vec3>)
    requires |bs| == |v|
    ensures |r| == |bs| && forall i :: 0 <= i < |bs| ==> r[i] == Add(bs[i], Neg(v[i]))
  {
    seq(|bs|, i requires 0 <= i < |bs| => Add(bs[i], Neg(v[i])))
  }

  lemma {:induction false} SumSubtract(bs: seq<Vec3>, v: seq<Vec3>)
    requires |bs| == |v|
    ensures Sum(Subtract(bs, v)) == Add(Sum(bs), Neg(Sum(v)))
    decreases |bs|
  {
    if bs != [] {
      var n := |bs| - 1;
      var r := Subtract(bs, v);
      assert r[..n] == Subtract(bs[..n], v[..n]);
      SumSubtract(bs[..n], v[..n]);
      var sb, sv := Sum(bs[..n]), Sum(v[..n]);
      calc {
        Sum(r);
        Add(Sum(r[..n]), r[n]);
        Add(Add(sb, Neg(sv)), Add(bs[n], Neg(v[n])));
        Add(Add(sb, bs[n]), Neg(Add(sv, v[n])));
        Add(Sum(bs), Neg(Sum(v)));
      }
    } else {
      assert Subtract(bs, v) == [] && v == [];
    }
  }

  /** Net-zero bookkeeping: when a head entry gains Sum(v) while each entry of
      b loses the matching v[i], the overall sum is unchanged. */
  lemma NetZero(a: Vec3, b: seq<Vec3>, v: seq<Vec3>)
    requires |b| == |v|
    ensures Add(Add(a, Sum(v)), Sum(Subtract(b, v))) == Add(a, Sum(b))
  {
    SumSubtract(b, v);
  }
}

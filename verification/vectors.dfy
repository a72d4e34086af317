/** State and derivative vectors: numpy 1-D float arrays, here over exact reals. */
module Vectors {

  type Vector = seq<real>

  /** Elementwise sum `a + b`. */
  function Add(a: Vector, b: Vector): (r: Vector)
    requires |a| == |b|
    ensures |r| == |a|
    ensures forall j :: 0 <= j < |r| ==> r[j] == a[j] + b[j]
  {
    seq(|a|, j requires 0 <= j < |a| => a[j] + b[j])
  }

  /** Elementwise difference `a - b`. */
  function Sub(a: Vector, b: Vector): (r: Vector)
    requires |a| == |b|
    ensures |r| == |a|
    ensures forall j :: 0 <= j < |r| ==> r[j] == a[j] - b[j]
  {
    seq(|a|, j requires 0 <= j < |a| => a[j] - b[j])
  }

  /** Scalar multiple `c * a`. */
  function Scale(c: real, a: Vector): (r: Vector)
    ensures |r| == |a|
    ensures forall j :: 0 <= j < |r| ==> r[j] == c * a[j]
  {
    seq(|a|, j requires 0 <= j < |a| => c * a[j])
  }

  /** Scaling twice scales by the product. */
  lemma ScaleTwice(a: real, b: real, y: Vector)
    ensures Scale(a, Scale(b, y)) == Scale(a * b, y)
  {
    var r := Scale(a, Scale(b, y));
    var e := Scale(a * b, y);
    forall j | 0 <= j < |y|
      ensures r[j] == e[j]
    {
      assert r[j] == a * (b * y[j]);
    }
  }

  /** The zero vector of length `k`. */
  function Zeros(k: nat): (r: Vector)
    ensures |r| == k
    ensures forall j :: 0 <= j < k ==> r[j] == 0.0
  {
    seq(k, j => 0.0)
  }
}

/**
 * The numeric arrays the converter handles: the rank-1 and rank-2 arrays
 * that the graph's initializers hold, with exact `real` entries, and the
 * three array operations the converter uses: transpose, scaling by a
 * scalar, and a vector of zeros.
 */
module Tensors {

  /** A rank-1 array (a bias vector) or a rank-2 array stored row by row (a weight matrix). */
  datatype Tensor =
    | Vector(elems: seq<real>)
    | Matrix(rows: seq<seq<real>>)

  /** `shape[0]`: the length of a vector, the row count of a matrix. */
  function Length(t: Tensor): nat
  {
    match t
    case Vector(v) => |v|
    case Matrix(m) => |m|
  }

  /** The column count of a matrix, read off its first row. */
  function Columns(m: seq<seq<real>>): nat
  {
    if |m| == 0 then 0 else |m[0]|
  }

  /** Every row has the same length, as in a numpy array. */
  predicate Rectangular(m: seq<seq<real>>)
  {
    forall i :: 0 <= i < |m| ==> |m[i]| == Columns(m)
  }

  /**
   * A matrix whose shape survives the row-by-row representation: rectangular,
   * and with at least one column whenever it has a row.
   */
  predicate Proper(m: seq<seq<real>>)
  {
    Rectangular(m) && (|m| > 0 ==> Columns(m) > 0)
  }

  /** The transpose of a matrix given by its rows (a short row reads as padded with zeros). */
  function TransposeRows(m: seq<seq<real>>): (r: seq<seq<real>>)
    ensures |r| == Columns(m)
    ensures forall j :: 0 <= j < |r| ==> |r[j]| == |m|
    ensures Rectangular(m) ==>
      forall i, j :: 0 <= i < |m| && 0 <= j < Columns(m) ==> r[j][i] == m[i][j]
  {
    seq(Columns(m), j requires 0 <= j < Columns(m) => seq(|m|, i requires 0 <= i < |m| => if j < |m[i]| then m[i][j] else 0.0))
  }

  /** numpy's `transpose()`: it swaps the axes of a matrix and leaves a vector as it is. */
  function Transpose(t: Tensor): (r: Tensor)
    ensures t.Vector? ==> r == t
    ensures t.Matrix? ==> r.Matrix? && Length(r) == Columns(t.rows) &&
                          forall j :: 0 <= j < |r.rows| ==> |r.rows[j]| == |t.rows|
    ensures t.Matrix? && Rectangular(t.rows) ==>
      forall i, j :: 0 <= i < |t.rows| && 0 <= j < Columns(t.rows) ==> r.rows[j][i] == t.rows[i][j]
  {
    match t
    case Vector(v) => Vector(v)
    case Matrix(m) => Matrix(TransposeRows(m))
  }

  /** `t *= c`: every entry multiplied by `c`, the shape kept. */
  function Scale(c: real, t: Tensor): (r: Tensor)
    ensures r.Vector? == t.Vector? && Length(r) == Length(t)
    ensures t.Vector? ==> forall k :: 0 <= k < |t.elems| ==> r.elems[k] == c * t.elems[k]
    ensures t.Matrix? ==> forall i :: 0 <= i < |t.rows| ==>
      |r.rows[i]| == |t.rows[i]| &&
      forall j :: 0 <= j < |t.rows[i]| ==> r.rows[i][j] == c * t.rows[i][j]
  {
    match t
    case Vector(v) => Vector(seq(|v|, k requires 0 <= k < |v| => c * v[k]))
    case Matrix(m) => Matrix(seq(|m|, i requires 0 <= i < |m| => seq(|m[i]|, j requires 0 <= j < |m[i]| => c * m[i][j])))
  }

  /** `np.zeros(n)`: a vector of `n` zeros. */
  function Zeros(n: nat): (r: Tensor)
    ensures r.Vector? && Length(r) == n
    ensures forall k :: 0 <= k < n ==> r.elems[k] == 0.0
  {
    Vector(seq(n, _ => 0.0))
  }

  /** Transposing twice gives back every vector and every proper matrix. */
  lemma TransposeInvolutive(t: Tensor)
    requires t.Matrix? ==> Proper(t.rows)
    ensures Transpose(Transpose(t)) == t
  {
    if t.Matrix? {
      var m := t.rows;
      var r := TransposeRows(m);
      var rr := TransposeRows(r);
      if |m| == 0 {
        assert rr == [];
      } else {
        assert |r| > 0;
        assert Columns(r) == |m|;
        assert |rr| == |m|;
        forall i | 0 <= i < |m|
          ensures rr[i] == m[i]
        {
          assert |rr[i]| == |r| == |m[i]|;
          forall j | 0 <= j < |m[i]|
            ensures rr[i][j] == m[i][j]
          {
            assert |r[j]| == |m|;
          }
        }
      }
    }
  }

  /** Scaling by 1.0 changes nothing: the default `alpha` and `beta` of a Gemm node. */
  lemma ScaleByOne(t: Tensor)
    ensures Scale(1.0, t) == t
  {
    match t
    case Vector(v) =>
      assert Scale(1.0, t).elems == v;
    case Matrix(m) =>
      var r := Scale(1.0, t).rows;
      forall i | 0 <= i < |m|
        ensures r[i] == m[i]
      {
      }
      assert r == m;
  }

  /** Scaling a vector of zeros leaves it a vector of zeros. */
  lemma ScaleZeros(c: real, n: nat)
    ensures Scale(c, Zeros(n)) == Zeros(n)
  {
    assert Scale(c, Zeros(n)).elems == Zeros(n).elems;
  }
}

/** Dense real linear algebra shared by the snapshot compressor, the affine
    product and the functions-list multiplication.  Floating-point values are
    modelled as `real`; a vector is a sequence of entries and a matrix a
    sequence of rows.  Sums are accumulated over a prefix `k` of the entries,
    first entry first, so that every proof by induction walks the same
    vectors and never cuts them into slices. */
module LinearAlgebra {
  import opened Wrappers

  type Vector = seq<real>
  type Matrix = seq<seq<real>>

  /** Every vector of `vs` has `n` entries. */
  predicate HasDim(vs: seq<Vector>, n: nat) {
    forall i :: 0 <= i < |vs| ==> |vs[i]| == n
  }

  predicate IsSquare(a: Matrix, n: nat) {
    |a| == n && HasDim(a, n)
  }

  predicate IsSymmetric(a: Matrix)
    requires IsSquare(a, |a|)
  {
    forall i, j :: 0 <= i < |a| && 0 <= j < |a| ==> a[i][j] == a[j][i]
  }

  function Zeros(n: nat): (z: Vector)
    ensures |z| == n && forall k :: 0 <= k < n ==> z[k] == 0.0
  {
    seq(n, _ => 0.0)
  }

  function Add(u: Vector, v: Vector): (w: Vector)
    requires |u| == |v|
    ensures |w| == |u| && forall k :: 0 <= k < |u| ==> w[k] == u[k] + v[k]
  {
    seq(|u|, k requires 0 <= k < |u| => u[k] + v[k])
  }

  function Scale(c: real, v: Vector): (w: Vector)
    ensures |w| == |v| && forall k :: 0 <= k < |v| ==> w[k] == c * v[k]
  {
    seq(|v|, k requires 0 <= k < |v| => c * v[k])
  }

  /** `u[0]*v[0] + ... + u[k-1]*v[k-1]`. */
  function DotPrefix(u: Vector, v: Vector, k: nat): real
    requires k <= |u| == |v|
  {
    if k == 0 then 0.0 else DotPrefix(u, v, k - 1) + u[k - 1] * v[k - 1]
  }

  /** The Euclidean product, summed from the first entry to the last. */
  function Dot(u: Vector, v: Vector): real
    requires |u| == |v|
  {
    DotPrefix(u, v, |u|)
  }

  function MatVec(a: Matrix, v: Vector): (w: Vector)
    requires HasDim(a, |v|)
    ensures |w| == |a| && forall i :: 0 <= i < |a| ==> w[i] == Dot(a[i], v)
  {
    seq(|a|, i requires 0 <= i < |a| => Dot(a[i], v))
  }

  /** The optional inner-product matrix `x` fits vectors with `n` entries. */
  predicate InnerProductFits(x: Option<Matrix>, n: nat) {
    x.Some? ==> IsSquare(x.value, n)
  }

  /** `transpose(u)*X*v`, or `transpose(u)*v` when no inner-product matrix is given. */
  function Inner(x: Option<Matrix>, u: Vector, v: Vector): real
    requires |u| == |v| && InnerProductFits(x, |v|)
  {
    match x
    case None => Dot(u, v)
    case Some(a) => Dot(u, MatVec(a, v))
  }

  /** `c[0]*fs[0] + ... + c[k-1]*fs[k-1]`, accumulated from the zero vector of
      dimension `n`. */
  function LinCombPrefix(fs: seq<Vector>, c: Vector, n: nat, k: nat): (w: Vector)
    requires |fs| == |c| && HasDim(fs, n) && k <= |fs|
    ensures |w| == n
  {
    if k == 0 then Zeros(n)
    else Add(LinCombPrefix(fs, c, n, k - 1), Scale(c[k - 1], fs[k - 1]))
  }

  /** The matrix-vector product `S*c`, where the columns of `S` are `fs`. */
  function LinComb(fs: seq<Vector>, c: Vector, n: nat): (w: Vector)
    requires |fs| == |c| && HasDim(fs, n)
    ensures |w| == n
  {
    LinCombPrefix(fs, c, n, |fs|)
  }

  /** Entry `k` of every vector of `fs`: row `k` of the matrix whose columns are `fs`. */
  function Row(fs: seq<Vector>, k: nat, n: nat): (r: Vector)
    requires HasDim(fs, n) && k < n
    ensures |r| == |fs| && forall i :: 0 <= i < |fs| ==> r[i] == fs[i][k]
  {
    seq(|fs|, i requires 0 <= i < |fs| => fs[i][k])
  }

  /** The inner products of each vector of `fs` with `v`. */
  function InnersLeft(x: Option<Matrix>, fs: seq<Vector>, v: Vector): (r: Vector)
    requires HasDim(fs, |v|) && InnerProductFits(x, |v|)
    ensures |r| == |fs| && forall i :: 0 <= i < |fs| ==> r[i] == Inner(x, fs[i], v)
  {
    seq(|fs|, i requires 0 <= i < |fs| => Inner(x, fs[i], v))
  }

  /** The inner products of `u` with each vector of `fs`. */
  function InnersRight(x: Option<Matrix>, u: Vector, fs: seq<Vector>): (r: Vector)
    requires HasDim(fs, |u|) && InnerProductFits(x, |u|)
    ensures |r| == |fs| && forall j :: 0 <= j < |fs| ==> r[j] == Inner(x, u, fs[j])
  {
    seq(|fs|, j requires 0 <= j < |fs| => Inner(x, u, fs[j]))
  }

  /** The Gram matrix `transpose(S)*X*S` (or `transpose(S)*S`) of the vectors `fs`. */
  function Gram(fs: seq<Vector>, x: Option<Matrix>, n: nat): (g: Matrix)
    requires HasDim(fs, n) && InnerProductFits(x, n)
    ensures IsSquare(g, |fs|)
    ensures forall i :: 0 <= i < |fs| ==> g[i] == InnersRight(x, fs[i], fs)
  {
    seq(|fs|, i requires 0 <= i < |fs| => InnersRight(x, fs[i], fs))
  }

  /** The coefficient vector that is 1 at position `i` and 0 elsewhere. */
  function Unit(m: nat, i: nat): (e: Vector)
    ensures |e| == m && forall k :: 0 <= k < m ==> e[k] == if k == i then 1.0 else 0.0
  {
    seq(m, k => if k == i then 1.0 else 0.0)
  }

  function Identity(n: nat): (a: Matrix)
    ensures IsSquare(a, n)
    ensures forall i :: 0 <= i < n ==> a[i] == Unit(n, i)
  {
    seq(n, (i: nat) => Unit(n, i))
  }

  // ---------------------------------------------------------------------------
  // Linearity of the Euclidean product

  lemma {:induction false} DotZerosLeft(v: Vector, k: nat)
    requires k <= |v|
    ensures DotPrefix(Zeros(|v|), v, k) == 0.0
  {
    if k > 0 {
      DotZerosLeft(v, k - 1);
    }
  }

  lemma {:induction false} DotSymmetric(u: Vector, v: Vector, k: nat)
    requires k <= |u| == |v|
    ensures DotPrefix(u, v, k) == DotPrefix(v, u, k)
  {
    if k > 0 {
      DotSymmetric(u, v, k - 1);
    }
  }

  lemma {:induction false} DotScaleLeft(c: real, u: Vector, v: Vector, k: nat)
    requires k <= |u| == |v|
    ensures DotPrefix(Scale(c, u), v, k) == c * DotPrefix(u, v, k)
  {
    if k > 0 {
      DotScaleLeft(c, u, v, k - 1);
      calc {
        DotPrefix(Scale(c, u), v, k);
        c * DotPrefix(u, v, k - 1) + (c * u[k - 1]) * v[k - 1];
        c * (DotPrefix(u, v, k - 1) + u[k - 1] * v[k - 1]);
      }
    }
  }

  lemma {:induction false} DotAddLeft(u: Vector, w: Vector, v: Vector, k: nat)
    requires k <= |u| == |w| == |v|
    ensures DotPrefix(Add(u, w), v, k) == DotPrefix(u, v, k) + DotPrefix(w, v, k)
  {
    if k > 0 {
      DotAddLeft(u, w, v, k - 1);
    }
  }

  lemma {:induction false} DotScaleRight(c: real, u: Vector, v: Vector)
    requires |u| == |v|
    ensures Dot(u, Scale(c, v)) == c * Dot(u, v)
  {
    calc {
      Dot(u, Scale(c, v));
      { DotSymmetric(u, Scale(c, v), |u|); }
      Dot(Scale(c, v), u);
      { DotScaleLeft(c, v, u, |u|); }
      c * Dot(v, u);
      { DotSymmetric(v, u, |u|); }
      c * Dot(u, v);
    }
  }

  /** `DotScaleLeft` with the product `Dot(u, v)` already known as `e`. */
  lemma {:induction false} DotScaleLeftAt(c: real, u: Vector, v: Vector, e: real)
    requires |u| == |v| && e == Dot(u, v)
    ensures c * e == Dot(Scale(c, u), v)
  {
    DotScaleLeft(c, u, v, |u|);
  }

  // ---------------------------------------------------------------------------
  // Linearity of the inner product `transpose(u)*X*v`

  lemma {:induction false} MatVecScale(a: Matrix, c: real, v: Vector)
    requires HasDim(a, |v|)
    ensures MatVec(a, Scale(c, v)) == Scale(c, MatVec(a, v))
  {
    forall i | 0 <= i < |a| ensures MatVec(a, Scale(c, v))[i] == Scale(c, MatVec(a, v))[i] {
      DotScaleRight(c, a[i], v);
    }
  }

  lemma {:induction false} InnerScaleLeft(x: Option<Matrix>, c: real, u: Vector, v: Vector)
    requires |u| == |v| && InnerProductFits(x, |v|)
    ensures Inner(x, Scale(c, u), v) == c * Inner(x, u, v)
  {
    match x
    case None => DotScaleLeft(c, u, v, |u|);
    case Some(a) => DotScaleLeft(c, u, MatVec(a, v), |u|);
  }

  lemma {:induction false} InnerScaleRight(x: Option<Matrix>, c: real, u: Vector, v: Vector)
    requires |u| == |v| && InnerProductFits(x, |v|)
    ensures Inner(x, u, Scale(c, v)) == c * Inner(x, u, v)
  {
    match x
    case None => DotScaleRight(c, u, v);
    case Some(a) =>
      MatVecScale(a, c, v);
      DotScaleRight(c, u, MatVec(a, v));
  }

  /** Rescaling one side by `c` and the other by `d` rescales the product by `c*d`. */
  lemma {:induction false} InnerScaleEach(x: Option<Matrix>, c: real, u: Vector, d: real, v: Vector)
    requires |u| == |v| && InnerProductFits(x, |v|)
    ensures Inner(x, Scale(c, u), Scale(d, v)) == c * d * Inner(x, u, v)
  {
    calc {
      Inner(x, Scale(c, u), Scale(d, v));
      { InnerScaleLeft(x, c, u, Scale(d, v)); }
      c * Inner(x, u, Scale(d, v));
      { InnerScaleRight(x, d, u, v); }
      c * (d * Inner(x, u, v));
    }
  }

  // ---------------------------------------------------------------------------
  // Linear combinations

  /** Entry `j` of the linear combination is the product of the coefficients
      with row `j` of the matrix whose columns are `fs`. */
  lemma {:induction false} LinCombAt(fs: seq<Vector>, c: Vector, n: nat, k: nat, j: nat)
    requires |fs| == |c| && HasDim(fs, n) && k <= |fs| && j < n
    ensures LinCombPrefix(fs, c, n, k)[j] == DotPrefix(c, Row(fs, j, n), k)
  {
    if k > 0 {
      LinCombAt(fs, c, n, k - 1, j);
    }
  }

  /** The product with `Unit(|v|, i)` over a prefix of length `k` picks
      `v[i]` when `i` lies inside the prefix, and nothing otherwise. */
  lemma {:induction false} DotUnit(v: Vector, i: nat, k: nat)
    requires i < |v| && k <= |v|
    ensures DotPrefix(v, Unit(|v|, i), k) == if i < k then v[i] else 0.0
  {
    if k > 0 {
      DotUnit(v, i, k - 1);
    }
  }

  /** Weights that pick out position `i` alone reproduce `fs[i]`. */
  lemma {:induction false} LinCombUnit(fs: seq<Vector>, n: nat, i: nat)
    requires HasDim(fs, n) && i < |fs|
    ensures LinComb(fs, Unit(|fs|, i), n) == fs[i]
  {
    forall j | 0 <= j < n ensures LinComb(fs, Unit(|fs|, i), n)[j] == fs[i][j] {
      LinCombAt(fs, Unit(|fs|, i), n, |fs|, j);
      DotUnit(Row(fs, j, n), i, |fs|);
      DotSymmetric(Unit(|fs|, i), Row(fs, j, n), |fs|);
    }
  }

  /** `transpose(S*c)*w` is `c` weighted against the products `transpose(fs[i])*w`,
      that is against `transpose(S)*w` written as `MatVec(fs, w)`. */
  lemma {:induction false} DotLinComb(fs: seq<Vector>, c: Vector, n: nat, w: Vector, k: nat)
    requires |fs| == |c| && HasDim(fs, n) && |w| == n && k <= |fs|
    ensures Dot(LinCombPrefix(fs, c, n, k), w) == DotPrefix(c, MatVec(fs, w), k)
  {
    if k == 0 {
      DotZerosLeft(w, n);
    } else {
      var front := LinCombPrefix(fs, c, n, k - 1);
      var products := MatVec(fs, w);
      DotLinComb(fs, c, n, w, k - 1);
      DotScaleLeftAt(c[k - 1], fs[k - 1], w, products[k - 1]);
      DotAddLeft(front, Scale(c[k - 1], fs[k - 1]), w, n);
    }
  }

  /** `transpose(u)*(A*v)` equals `transpose(transpose(A)*u)*v`, where
      `transpose(A)*u` is the combination of the rows of `A` weighted by `u`. */
  lemma {:induction false} DotMatVecTranspose(u: Vector, a: Matrix, v: Vector)
    requires |u| == |a| && HasDim(a, |v|)
    ensures Dot(u, MatVec(a, v)) == Dot(LinComb(a, u, |v|), v)
  {
    DotLinComb(a, u, |v|, v, |a|);
  }

  /** The inner-product matrix applied to `v`, or `v` itself without one. */
  function Apply(x: Option<Matrix>, v: Vector): (w: Vector)
    requires InnerProductFits(x, |v|)
    ensures |w| == |v|
  {
    match x
    case None => v
    case Some(a) => MatVec(a, v)
  }

  /** `transpose(S*c)*X*v` is `c` weighted against the products `transpose(fs[i])*X*v`. */
  lemma {:induction false} InnerLinCombLeft(x: Option<Matrix>, fs: seq<Vector>, c: Vector, n: nat, v: Vector)
    requires |fs| == |c| && HasDim(fs, n) && |v| == n && InnerProductFits(x, n)
    ensures Inner(x, LinComb(fs, c, n), v) == Dot(c, InnersLeft(x, fs, v))
  {
    var w := Apply(x, v);
    DotLinComb(fs, c, n, w, |fs|);
    assert MatVec(fs, w) == InnersLeft(x, fs, v);
  }

  /** `transpose(u)*(S*c)` is `c` weighted against the products `transpose(u)*fs[j]`. */
  lemma {:induction false} DotLinCombRight(u: Vector, fs: seq<Vector>, c: Vector, n: nat)
    requires |fs| == |c| && HasDim(fs, n) && |u| == n
    ensures Dot(u, LinComb(fs, c, n)) == Dot(c, InnersRight(None, u, fs))
  {
    DotSymmetric(u, LinComb(fs, c, n), n);
    DotLinComb(fs, c, n, u, |fs|);
    forall j | 0 <= j < |fs| ensures MatVec(fs, u)[j] == InnersRight(None, u, fs)[j] {
      DotSymmetric(fs[j], u, n);
    }
    assert MatVec(fs, u) == InnersRight(None, u, fs);
  }

  /** `transpose(u)*X*(S*c)` is `c` weighted against the products `transpose(u)*X*fs[j]`. */
  lemma {:induction false} InnerLinCombRight(x: Option<Matrix>, u: Vector, fs: seq<Vector>, c: Vector, n: nat)
    requires |fs| == |c| && HasDim(fs, n) && |u| == n && InnerProductFits(x, n)
    ensures Inner(x, u, LinComb(fs, c, n)) == Dot(c, InnersRight(x, u, fs))
  {
    match x
    case None => DotLinCombRight(u, fs, c, n);
    case Some(a) =>
      var t := LinComb(a, u, n);
      DotMatVecTranspose(u, a, LinComb(fs, c, n));
      DotLinCombRight(t, fs, c, n);
      forall j | 0 <= j < |fs| ensures InnersRight(None, t, fs)[j] == InnersRight(x, u, fs)[j] {
        DotMatVecTranspose(u, a, fs[j]);
      }
      assert InnersRight(None, t, fs) == InnersRight(x, u, fs);
  }

  /** The inner products of each `fs[i]` with `S*w` form the vector `G*w`. */
  lemma {:induction false} InnersWithLinComb(x: Option<Matrix>, fs: seq<Vector>, w: Vector, n: nat)
    requires |fs| == |w| && HasDim(fs, n) && InnerProductFits(x, n)
    ensures InnersLeft(x, fs, LinComb(fs, w, n)) == MatVec(Gram(fs, x, n), w)
  {
    var g := Gram(fs, x, n);
    var col := InnersLeft(x, fs, LinComb(fs, w, n));
    forall i | 0 <= i < |fs| ensures col[i] == MatVec(g, w)[i] {
      InnerLinCombRight(x, fs[i], fs, w, n);
      DotSymmetric(w, g[i], |fs|);
    }
  }

  /** The inner product of two combinations `S*u` and `S*w` of the same
      vectors is `transpose(u)*G*w`, with `G` the Gram matrix of the vectors. */
  lemma {:induction false} InnerOfLinCombs(x: Option<Matrix>, fs: seq<Vector>, u: Vector, w: Vector, n: nat)
    requires |fs| == |u| == |w| && HasDim(fs, n) && InnerProductFits(x, n)
    ensures Inner(x, LinComb(fs, u, n), LinComb(fs, w, n)) == Dot(u, MatVec(Gram(fs, x, n), w))
  {
    InnerLinCombLeft(x, fs, u, n, LinComb(fs, w, n));
    InnersWithLinComb(x, fs, w, n);
  }

  // ---------------------------------------------------------------------------
  // Symmetry of `transpose(u)*X*v`

  lemma {:induction false} InnerSymmetric(x: Option<Matrix>, u: Vector, v: Vector)
    requires |u| == |v| && InnerProductFits(x, |v|)
    requires x.Some? ==> IsSymmetric(x.value)
    ensures Inner(x, u, v) == Inner(x, v, u)
  {
    match x
    case None => DotSymmetric(u, v, |u|);
    case Some(a) =>
      var n := |v|;
      DotMatVecTranspose(u, a, v);
      forall j | 0 <= j < n ensures LinComb(a, u, n)[j] == MatVec(a, u)[j] {
        LinCombAt(a, u, n, n, j);
        assert Row(a, j, n) == a[j];
        DotSymmetric(u, a[j], n);
      }
      assert LinComb(a, u, n) == MatVec(a, u);
      DotSymmetric(MatVec(a, u), v, n);
  }

  /** A symmetric inner-product matrix gives a symmetric Gram matrix. */
  lemma {:induction false} GramSymmetric(fs: seq<Vector>, x: Option<Matrix>, n: nat)
    requires HasDim(fs, n) && InnerProductFits(x, n)
    requires x.Some? ==> IsSymmetric(x.value)
    ensures IsSymmetric(Gram(fs, x, n))
  {
    var g := Gram(fs, x, n);
    forall i, j | 0 <= i < |fs| && 0 <= j < |fs| ensures g[i][j] == g[j][i] {
      InnerSymmetric(x, fs[i], fs[j]);
    }
  }

  /** The identity matrix as inner product is the same as no inner product. */
  lemma {:induction false} InnerIdentity(u: Vector, v: Vector)
    requires |u| == |v|
    ensures Inner(Some(Identity(|v|)), u, v) == Inner(None, u, v)
  {
    var n := |v|;
    forall i | 0 <= i < n ensures MatVec(Identity(n), v)[i] == v[i] {
      DotSymmetric(Unit(n, i), v, n);
      DotUnit(v, i, n);
    }
    assert MatVec(Identity(n), v) == v;
  }
}

/** The three multiplications and the 2x2 inverse: `multiplyVectors`
    (entrywise), `multiplyMatrices` (the matrix product, computed by three
    nested loops into a zero-filled result), `multiply3DMatrices` (a 3x3x3
    product taken slice by slice along the depth index, four nested loops)
    and `inverseMatrix` (adjugate over determinant). */
module Products {
  import opened Tensors

  // ---------------------------------------------------------------------
  // Vectors: the entrywise (Hadamard) product, not the dot product.

  function Hadamard(x: seq<real>, y: seq<real>): (r: seq<real>)
    requires |x| == |y|
    ensures |r| == |x|
    ensures forall k :: 0 <= k < |x| ==> r[k] == x[k] * y[k]
  {
    if x == [] then [] else [x[0] * y[0]] + Hadamard(x[1..], y[1..])
  }

  /** `multiplyVectors`: vectors of different lengths are refused, otherwise
      the product is taken entry by entry. */
  function MultiplyVectors(x: seq<real>, y: seq<real>): (r: Result<seq<real>>)
    ensures r.Ok? <==> |x| == |y|
    ensures r.Err? ==> r.error == VectorLengthMismatch
    ensures r.Ok? ==> |r.value| == |x| && forall k :: 0 <= k < |x| ==> r.value[k] == x[k] * y[k]
  {
    if |x| != |y| then Err(VectorLengthMismatch) else Ok(Hadamard(x, y))
  }

  lemma HadamardCommutes(x: seq<real>, y: seq<real>)
    requires |x| == |y|
    ensures Hadamard(x, y) == Hadamard(y, x)
  {
  }

  /** The entrywise product does not depend on the order of its operands. */
  lemma MultiplyVectorsCommutes(x: seq<real>, y: seq<real>)
    ensures MultiplyVectors(x, y) == MultiplyVectors(y, x)
  {
    if |x| == |y| {
      HadamardCommutes(x, y);
    }
  }

  // ---------------------------------------------------------------------
  // Matrices: the ordinary product.

  /** `Σ_{k<n} x[k] * y[k]`, accumulated in increasing `k` as the loops do. */
  function DotPrefix(x: seq<real>, y: seq<real>, n: nat): real
    requires n <= |x| && n <= |y|
  {
    if n == 0 then 0.0 else DotPrefix(x, y, n - 1) + x[n - 1] * y[n - 1]
  }

  /** Column `j` of `b`. */
  function Column(b: seq<seq<real>>, j: nat): (col: seq<real>)
    requires forall k :: 0 <= k < |b| ==> j < |b[k]|
    ensures |col| == |b| && forall k :: 0 <= k < |b| ==> col[k] == b[k][j]
  {
    seq(|b|, k requires 0 <= k < |b| => b[k][j])
  }

  /** The operands the product is defined on: `a` is rectangular with as
      many columns as `b` has rows, and `b` is a non-empty rectangle. */
  predicate Conformable(a: seq<seq<real>>, b: seq<seq<real>>) {
    |b| > 0 && HasSize(b, |b|, |b[0]|) && forall i :: 0 <= i < |a| ==> |a[i]| == |b|
  }

  /** Entry `(i, j)` of the product: row `i` of `a` against column `j` of `b`. */
  function Cell(a: seq<seq<real>>, b: seq<seq<real>>, i: nat, j: nat): real
    requires Conformable(a, b) && i < |a| && j < |b[0]|
  {
    DotPrefix(a[i], Column(b, j), |b|)
  }

  /** The matrix product: `|a|` rows of `|b[0]|` columns, entry `(i, j)`
      being `Σ_{k<|b|} a[i][k] * b[k][j]`. */
  function Product(a: seq<seq<real>>, b: seq<seq<real>>): (r: seq<seq<real>>)
    requires Conformable(a, b)
    ensures HasSize(r, |a|, |b[0]|)
  {
    seq(|a|, i requires 0 <= i < |a| =>
      seq(|b[0]|, j requires 0 <= j < |b[0]| => Cell(a, b, i, j)))
  }

  /** `multiplyMatrices` up to its arithmetic: the checks it makes first,
      and the product when they pass. Reading the first row of an empty
      left operand, or (once the column check has passed) of an empty
      right operand, throws in the source before any arithmetic. */
  function CheckedProduct(a: seq<seq<real>>, b: seq<seq<real>>): (r: Result<seq<seq<real>>>)
    requires Rectangular(a) && Rectangular(b)
    ensures r.Ok? <==> |a| > 0 && |b| > 0 && |a[0]| == |b|
    ensures |a| == 0 ==> r == Err(MissingFirstRow)
    ensures |a| > 0 && |a[0]| != |b| ==> r == Err(IncompatibleDimensions)
    ensures |a| > 0 && |a[0]| == |b| && |b| == 0 ==> r == Err(MissingFirstRow)
    ensures r.Ok? ==> Conformable(a, b) && HasSize(r.value, |a|, |b[0]|)
    ensures r.Ok? ==> r.value == Product(a, b)
  {
    if |a| == 0 then Err(MissingFirstRow)
    else if |a[0]| != |b| then Err(IncompatibleDimensions)
    else if |b| == 0 then Err(MissingFirstRow)
    else Ok(Product(a, b))
  }

  /** `multiplyMatrices`: after the checks, a zero-filled `|a|` by `|b[0]|`
      result is built and entry `(i, j)` accumulates `a[i][k] * b[k][j]`
      for `k` from 0 to `|b| - 1`. */
  method MultiplyMatrices(a: seq<seq<real>>, b: seq<seq<real>>) returns (r: Result<seq<seq<real>>>)
    requires Rectangular(a) && Rectangular(b)
    ensures r == CheckedProduct(a, b)
  {
    if |a| == 0 {
      return Err(MissingFirstRow);
    }
    if |a[0]| != |b| {
      return Err(IncompatibleDimensions);
    }
    if |b| == 0 {
      return Err(MissingFirstRow);
    }
    var rows, cols, n := |a|, |b[0]|, |b|;
    var result := new real[rows, cols]((_, _) => 0.0);
    for i := 0 to rows
      invariant forall p, q :: 0 <= p < rows && 0 <= q < cols ==>
        result[p, q] == if p < i then Cell(a, b, p, q) else 0.0
    {
      for j := 0 to cols
        invariant forall p, q :: 0 <= p < rows && 0 <= q < cols ==>
          result[p, q] == if p < i || (p == i && q < j) then Cell(a, b, p, q) else 0.0
      {
        for k := 0 to n
          invariant result[i, j] == DotPrefix(a[i], Column(b, j), k)
          invariant forall p, q :: 0 <= p < rows && 0 <= q < cols && (p, q) != (i, j) ==>
            result[p, q] == if p < i || (p == i && q < j) then Cell(a, b, p, q) else 0.0
        {
          result[i, j] := result[i, j] + a[i][k] * b[k][j];
        }
      }
    }
    var s := seq(rows, p requires 0 <= p < rows reads result =>
      seq(cols, q requires 0 <= q < cols reads result => result[p, q]));
    assert s == Product(a, b) by {
      forall p | 0 <= p < rows ensures s[p] == Product(a, b)[p] {
        assert forall q :: 0 <= q < cols ==> s[p][q] == Product(a, b)[p][q];
      }
    }
    return Ok(s);
  }

  // ---------------------------------------------------------------------
  // The 2x2 inverse.

  function Identity(n: nat): (r: seq<seq<real>>)
    ensures HasSize(r, n, n)
    ensures forall i, j :: 0 <= i < n && 0 <= j < n ==> r[i][j] == if i == j then 1.0 else 0.0
  {
    seq(n, i requires 0 <= i < n => seq(n, j requires 0 <= j < n => if i == j then 1.0 else 0.0))
  }

  function Det(m: seq<seq<real>>): real
    requires HasSize(m, 2, 2)
  {
    m[0][0] * m[1][1] - m[0][1] * m[1][0]
  }

  /** The closed form of the source: the adjugate divided by the determinant. */
  function InverseFormula(m: seq<seq<real>>): (r: seq<seq<real>>)
    requires HasSize(m, 2, 2) && Det(m) != 0.0
    ensures HasSize(r, 2, 2)
  {
    var d := Det(m);
    [[m[1][1] / d, -m[0][1] / d], [-m[1][0] / d, m[0][0] / d]]
  }

  /** An entry of a product of two 2x2 matrices, written out. */
  lemma Cell2(a: seq<seq<real>>, b: seq<seq<real>>, i: nat, j: nat)
    requires HasSize(a, 2, 2) && HasSize(b, 2, 2) && i < 2 && j < 2
    ensures Conformable(a, b)
    ensures Product(a, b)[i][j] == a[i][0] * b[0][j] + a[i][1] * b[1][j]
  {
    var col := Column(b, j);
    assert DotPrefix(a[i], col, 2) == DotPrefix(a[i], col, 1) + a[i][1] * col[1];
    assert DotPrefix(a[i], col, 1) == a[i][0] * col[0];
  }

  /** The eight scalar identities behind the 2x2 inverse, with
      `d = a*e - b*c` for the matrix `[[a, b], [c, e]]`. */
  lemma AdjugateIdentities(a: real, b: real, c: real, e: real)
    requires a * e - b * c != 0.0
    ensures var d := a * e - b * c;
      a * (e / d) + b * (-c / d) == 1.0 && a * (-b / d) + b * (a / d) == 0.0 &&
      c * (e / d) + e * (-c / d) == 0.0 && c * (-b / d) + e * (a / d) == 1.0 &&
      (e / d) * a + (-b / d) * c == 1.0 && (e / d) * b + (-b / d) * e == 0.0 &&
      (-c / d) * a + (a / d) * c == 0.0 && (-c / d) * b + (a / d) * e == 1.0
  {
  }

  /** A product of 2x2 matrices is the identity once its four entries,
      written out, are those of the identity. */
  lemma ProductIsIdentity2(x: seq<seq<real>>, y: seq<seq<real>>)
    requires HasSize(x, 2, 2) && HasSize(y, 2, 2)
    requires x[0][0] * y[0][0] + x[0][1] * y[1][0] == 1.0
    requires x[0][0] * y[0][1] + x[0][1] * y[1][1] == 0.0
    requires x[1][0] * y[0][0] + x[1][1] * y[1][0] == 0.0
    requires x[1][0] * y[0][1] + x[1][1] * y[1][1] == 1.0
    ensures Conformable(x, y) && Product(x, y) == Identity(2)
  {
    var p := Product(x, y);
    Cell2(x, y, 0, 0);
    Cell2(x, y, 0, 1);
    Cell2(x, y, 1, 0);
    Cell2(x, y, 1, 1);
    var id := Identity(2);
    assert p[0][0] == id[0][0] && p[0][1] == id[0][1];
    assert p[1][0] == id[1][0] && p[1][1] == id[1][1];
    assert p[0] == id[0] && p[1] == id[1];
  }

  /** The closed form is a two-sided inverse, exactly, over the reals. */
  lemma InverseFormulaIsInverse(m: seq<seq<real>>)
    requires HasSize(m, 2, 2) && Det(m) != 0.0
    ensures Conformable(m, InverseFormula(m)) && Conformable(InverseFormula(m), m)
    ensures Product(m, InverseFormula(m)) == Identity(2)
    ensures Product(InverseFormula(m), m) == Identity(2)
  {
    var inv := InverseFormula(m);
    var d := Det(m);
    var a, b, c, e := m[0][0], m[0][1], m[1][0], m[1][1];
    assert inv == [[e / d, -b / d], [-c / d, a / d]];
    AdjugateIdentities(a, b, c, e);
    ProductIsIdentity2(m, inv);
    ProductIsIdentity2(inv, m);
  }

  /** `inverseMatrix`: anything but a 2x2 matrix is refused as unsupported,
      a 2x2 matrix of determinant exactly zero as not invertible; otherwise
      the result is the matrix's two-sided inverse. */
  function Inverse(m: seq<seq<real>>): (r: Result<seq<seq<real>>>)
    requires Rectangular(m)
    ensures !HasSize(m, 2, 2) ==> r == Err(OnlyTwoByTwo)
    ensures HasSize(m, 2, 2) ==> (r.Ok? <==> Det(m) != 0.0)
    ensures HasSize(m, 2, 2) && Det(m) == 0.0 ==> r == Err(NotInvertible)
    ensures r.Ok? ==> HasSize(r.value, 2, 2) && Conformable(m, r.value) && Conformable(r.value, m)
    ensures r.Ok? ==> Product(m, r.value) == Identity(2) && Product(r.value, m) == Identity(2)
  {
    if |m| == 2 && |m[0]| == 2 then
      if Det(m) == 0.0 then
        Err(NotInvertible)
      else
        InverseFormulaIsInverse(m);
        Ok(InverseFormula(m))
    else
      Err(OnlyTwoByTwo)
  }

  // ---------------------------------------------------------------------
  // Cubes: a product per depth slice.

  /** `Σ_{l<n} a[i][l][k] * b[l][j][k]`: the middle index is contracted,
      the depth index `k` is not. */
  function SliceSum(a: seq<seq<seq<real>>>, b: seq<seq<seq<real>>>, i: nat, j: nat, k: nat, n: nat): real
    requires Covers3(a) && Covers3(b) && i < 3 && j < 3 && k < 3 && n <= 3
  {
    if n == 0 then 0.0 else SliceSum(a, b, i, j, k, n - 1) + a[i][n - 1][k] * b[n - 1][j][k]
  }

  /** `multiply3DMatrices` as a value: a 3x3x3 cube whose entry `(i, j, k)`
      is `Σ_{l<3} a[i][l][k] * b[l][j][k]`. Only the leading 3x3x3 entries
      of each operand are read, so larger cubes are cut down to them. */
  function CubeProduct(a: seq<seq<seq<real>>>, b: seq<seq<seq<real>>>): (r: seq<seq<seq<real>>>)
    requires Covers3(a) && Covers3(b)
    ensures IsCube3(r)
  {
    seq(3, i requires 0 <= i < 3 =>
      seq(3, j requires 0 <= j < 3 =>
        seq(3, k requires 0 <= k < 3 => SliceSum(a, b, i, j, k, 3))))
  }

  /** `multiply3DMatrices`: a zero-filled 3x3x3 result, entry `(i, j, k)`
      accumulating `a[i][l][k] * b[l][j][k]` for `l` from 0 to 2. No size
      is checked, so the operands must hold every entry the loops read. */
  method Multiply3DMatrices(a: seq<seq<seq<real>>>, b: seq<seq<seq<real>>>) returns (r: seq<seq<seq<real>>>)
    requires Covers3(a) && Covers3(b)
    ensures r == CubeProduct(a, b)
  {
    var result := new real[3, 3, 3]((_, _, _) => 0.0);
    for i := 0 to 3
      invariant forall p, q, s :: 0 <= p < 3 && 0 <= q < 3 && 0 <= s < 3 ==>
        result[p, q, s] == if p < i then SliceSum(a, b, p, q, s, 3) else 0.0
    {
      for j := 0 to 3
        invariant forall p, q, s :: 0 <= p < 3 && 0 <= q < 3 && 0 <= s < 3 ==>
          result[p, q, s] == if p < i || (p == i && q < j) then SliceSum(a, b, p, q, s, 3) else 0.0
      {
        for k := 0 to 3
          invariant forall p, q, s :: 0 <= p < 3 && 0 <= q < 3 && 0 <= s < 3 ==>
            result[p, q, s] ==
              if p < i || (p == i && q < j) || (p == i && q == j && s < k) then SliceSum(a, b, p, q, s, 3) else 0.0
        {
          for l := 0 to 3
            invariant result[i, j, k] == SliceSum(a, b, i, j, k, l)
            invariant forall p, q, s :: 0 <= p < 3 && 0 <= q < 3 && 0 <= s < 3 && (p, q, s) != (i, j, k) ==>
              result[p, q, s] ==
                if p < i || (p == i && q < j) || (p == i && q == j && s < k) then SliceSum(a, b, p, q, s, 3) else 0.0
          {
            result[i, j, k] := result[i, j, k] + a[i][l][k] * b[l][j][k];
          }
        }
      }
    }
    r := seq(3, p requires 0 <= p < 3 reads result =>
      seq(3, q requires 0 <= q < 3 reads result =>
        seq(3, s requires 0 <= s < 3 reads result => result[p, q, s])));
    assert r == CubeProduct(a, b) by {
      forall p | 0 <= p < 3 ensures r[p] == CubeProduct(a, b)[p] {
        forall q | 0 <= q < 3 ensures r[p][q] == CubeProduct(a, b)[p][q] {
          assert forall s :: 0 <= s < 3 ==> r[p][q][s] == CubeProduct(a, b)[p][q][s];
        }
      }
    }
  }

  /** Depth slice `k` of the leading 3x3x3 entries of a cube, as a 3x3
      matrix. */
  function Slice(c: seq<seq<seq<real>>>, k: nat): (m: seq<seq<real>>)
    requires Covers3(c) && k < 3
    ensures HasSize(m, 3, 3) && forall i, j :: 0 <= i < 3 && 0 <= j < 3 ==> m[i][j] == c[i][j][k]
  {
    seq(3, i requires 0 <= i < 3 => seq(3, j requires 0 <= j < 3 => c[i][j][k]))
  }

  lemma {:induction false} SliceSumIsDot(a: seq<seq<seq<real>>>, b: seq<seq<seq<real>>>, i: nat, j: nat, k: nat, n: nat)
    requires Covers3(a) && Covers3(b) && i < 3 && j < 3 && k < 3 && n <= 3
    ensures Conformable(Slice(a, k), Slice(b, k))
    ensures SliceSum(a, b, i, j, k, n) == DotPrefix(Slice(a, k)[i], Column(Slice(b, k), j), n)
  {
    if n > 0 {
      SliceSumIsDot(a, b, i, j, k, n - 1);
    }
  }

  /** The cube product is the matrix product taken independently in each
      depth slice: slice `k` of the result is slice `k` of `a` times slice
      `k` of `b`. */
  lemma CubeProductIsSlicewise(a: seq<seq<seq<real>>>, b: seq<seq<seq<real>>>, k: nat)
    requires Covers3(a) && Covers3(b) && k < 3
    ensures Conformable(Slice(a, k), Slice(b, k))
    ensures Slice(CubeProduct(a, b), k) == Product(Slice(a, k), Slice(b, k))
  {
    var lhs := Slice(CubeProduct(a, b), k);
    var rhs := Product(Slice(a, k), Slice(b, k));
    forall i, j | 0 <= i < 3 && 0 <= j < 3 ensures lhs[i][j] == rhs[i][j] {
      SliceSumIsDot(a, b, i, j, k, 3);
    }
    forall i | 0 <= i < 3 ensures lhs[i] == rhs[i] {
    }
  }
}

/** The pure decisions of the calculator component: the zero operands
    built for each working dimension (`createEmptyMatrix`), the effect of
    choosing an operation (`handleOperationChange`) and the choice of the
    engine function for an operation and a dimension (`handleCalculate`). */
module Calculator {
  import opened Tensors
  import Elementwise
  import Products

  /** The operations offered by the operation selector. */
  datatype Operation = Sum | Subtract | Multiply | Inverse

  /** What a calculation leaves behind: a result to display, a failure
      (its message is alerted and the result stays empty), or nothing at
      all when no branch of the dispatch applies. */
  datatype Outcome = Computed(value: Tensor) | Failed(error: Error) | NoResult

  function Zeros(n: nat): (r: seq<real>)
    ensures |r| == n && forall k :: 0 <= k < n ==> r[k] == 0.0
  {
    seq(n, k requires 0 <= k < n => 0.0)
  }

  function ZeroMatrix(rows: nat, cols: nat): (r: seq<seq<real>>)
    ensures HasSize(r, rows, cols)
    ensures forall i, j :: 0 <= i < rows && 0 <= j < cols ==> r[i][j] == 0.0
  {
    var row := Zeros(cols);
    seq(rows, _ => row)
  }

  function ZeroCube(n: nat): (r: seq<seq<seq<real>>>)
    ensures |r| == n && forall i :: 0 <= i < n ==> r[i] == ZeroMatrix(n, n)
  {
    var layer := ZeroMatrix(n, n);
    seq(n, _ => layer)
  }

  /** Every entry is zero. */
  predicate AllZero(t: Tensor) {
    match t
    case Vector(v) => forall k :: 0 <= k < |v| ==> v[k] == 0.0
    case Matrix(m) => forall i, j :: 0 <= i < |m| && 0 <= j < |m[i]| ==> m[i][j] == 0.0
    case Cube(c) => forall i, j, k :: 0 <= i < |c| && 0 <= j < |c[i]| && 0 <= k < |c[i][j]| ==> c[i][j][k] == 0.0
  }

  /** The shape the form gives operands at a working dimension: three
      numbers, a 2x2 matrix, or a 3x3x3 cube. */
  predicate FormShaped(dim: int, t: Tensor) {
    match t
    case Vector(v) => dim == 1 && |v| == 3
    case Matrix(m) => dim == 2 && HasSize(m, 2, 2)
    case Cube(c) => dim == 3 && IsCube3(c)
  }

  /** `createEmptyMatrix`: a zero operand of the form's shape for dimensions
      1, 2 and 3, and an empty array for any other dimension. */
  function CreateEmpty(dim: int): (t: Tensor)
    ensures WellFormed(t) && AllZero(t)
    ensures 1 <= dim <= 3 ==> FormShaped(dim, t)
    ensures !(1 <= dim <= 3) ==> t.Vector? && Outer(t) == 0
  {
    if dim == 1 then Vector(Zeros(3))
    else if dim == 2 then Matrix(ZeroMatrix(2, 2))
    else if dim == 3 then Cube(ZeroCube(3))
    else Vector([])
  }

  /** `handleOperationChange`: choosing the inverse away from dimension 2
      falls back to the sum and leaves the second operand alone; choosing
      any other operation resets the second operand to zeros; choosing the
      inverse at dimension 2 keeps the second operand (it is not used). */
  function ChangeOperation(selected: Operation, dim: int, second: Tensor): (r: (Operation, Tensor))
    ensures r.0 == Inverse <==> selected == Inverse && dim == 2
    ensures r.0 == selected || (selected == Inverse && r.0 == Sum)
    ensures selected == Inverse ==> r.1 == second
    ensures selected != Inverse ==> r.1 == CreateEmpty(dim)
  {
    if selected == Inverse && dim != 2 then (Sum, second)
    else if selected != Inverse then (selected, CreateEmpty(dim))
    else (selected, second)
  }

  /** The operands pass the first check of `multiplyMatrices` and the first
      element of the right one is an empty array: the result is built with a
      row per left element and no columns, and no entry is ever read. */
  predicate WithoutColumns(m1: Tensor, m2: Tensor) {
    Is2DArray(m1) && Is2DArray(m2) && FirstInner(m1) == Outer(m2) && FirstInner(m2) == 0
  }

  function Lift(r: Result<Tensor>): Outcome {
    match r
    case Ok(t) => Computed(t)
    case Err(e) => Failed(e)
  }

  /** `handleCalculate`: the operation decides the engine function, and for
      the multiplication and the inverse so does the working dimension.
      The product of two vectors is shown as a one-row matrix. A product
      whose operands do not carry the dimension's rank fails with the
      error the engine's first check raises on them. */
  function Calculate(op: Operation, dim: int, m1: Tensor, m2: Tensor): (r: Outcome)
    requires WellFormed(m1) && WellFormed(m2)
    ensures r.NoResult? <==> op == Multiply && !(1 <= dim <= 3)
    ensures r.Computed? ==> WellFormed(r.value)
    // Sum and difference.
    ensures (op == Sum || op == Subtract) ==> (r.Computed? <==> SameTag(m1, m2) && SameShape(m1, m2))
    ensures (op == Sum || op == Subtract) && !SameTag(m1, m2) ==> r == Failed(UnsupportedOperands)
    ensures (op == Sum || op == Subtract) && SameTag(m1, m2) && !SameShape(m1, m2) ==>
      r == Failed(SizeMismatch(Elementwise.CheckedRank(m1, m2)))
    ensures op == Sum && r.Computed? ==>
      SameShape(m1, m2) && SameShape(r.value, m1) && Elementwise.Combines(Elementwise.Add, m1, m2, r.value)
    ensures op == Subtract && r.Computed? ==>
      SameShape(m1, m2) && SameShape(r.value, m1) && Elementwise.Combines(Elementwise.Sub, m1, m2, r.value)
    // Multiplication at dimension 1: the entrywise product, as one row.
    // Two empty operands are both `[]` whatever their tags, and give `[[]]`.
    ensures op == Multiply && dim == 1 ==>
      (r.Computed? <==> Outer(m1) == Outer(m2) && ((m1.Vector? && m2.Vector?) || Outer(m1) == 0))
    ensures op == Multiply && dim == 1 && m1.Vector? && m2.Vector? && r.Computed? ==>
      |m1.v| == |m2.v| && r.value == Matrix([Products.Hadamard(m1.v, m2.v)])
    ensures op == Multiply && dim == 1 && Outer(m1) == 0 && Outer(m2) == 0 ==> r == Computed(Matrix([[]]))
    ensures op == Multiply && dim == 1 && Outer(m1) != Outer(m2) ==> r == Failed(VectorLengthMismatch)
    // Multiplication at dimension 2: the matrix product.
    // Whatever the ranks, operands without columns give a row of nothing per left row.
    ensures op == Multiply && dim == 2 ==>
      (r.Computed? <==>
         (m1.Matrix? && m2.Matrix? && Products.CheckedProduct(m1.m, m2.m).Ok?) || WithoutColumns(m1, m2))
    ensures op == Multiply && dim == 2 && m1.Matrix? && m2.Matrix? && r.Computed? ==>
      Products.Conformable(m1.m, m2.m) && r.value == Matrix(Products.Product(m1.m, m2.m))
    ensures op == Multiply && dim == 2 && WithoutColumns(m1, m2) ==>
      r.Computed? && r.value.Matrix? && HasSize(r.value.m, Outer(m1), 0)
    ensures op == Multiply && dim == 2 && Outer(m1) == 0 ==> r == Failed(MissingFirstRow)
    ensures op == Multiply && dim == 2 && Outer(m1) > 0 && (m1.Vector? || FirstInner(m1) != Outer(m2)) ==>
      r == Failed(IncompatibleDimensions)
    ensures op == Multiply && dim == 2 && Outer(m1) > 0 && Outer(m2) == 0 &&
            !m1.Vector? && FirstInner(m1) == 0 ==>
      r == Failed(MissingFirstRow)
    // Multiplication at dimension 3: the slicewise cube product.
    ensures op == Multiply && dim == 3 ==>
      (r.Computed? <==> m1.Cube? && m2.Cube? && Covers3(m1.c) && Covers3(m2.c))
    ensures op == Multiply && dim == 3 && r.Computed? ==>
      m1.Cube? && m2.Cube? && Covers3(m1.c) && Covers3(m2.c) &&
      r.value == Cube(Products.CubeProduct(m1.c, m2.c))
    // The inverse, at dimension 2 only.
    ensures op == Inverse && dim != 2 ==> r == Failed(InverseNeedsTwoDimensions)
    ensures op == Inverse && dim == 2 ==>
      (r.Computed? <==> m1.Matrix? && HasSize(m1.m, 2, 2) && Products.Det(m1.m) != 0.0)
    ensures op == Inverse && dim == 2 && !(m1.Matrix? && HasSize(m1.m, 2, 2)) ==> r == Failed(OnlyTwoByTwo)
    ensures op == Inverse && dim == 2 && m1.Matrix? && HasSize(m1.m, 2, 2) && Products.Det(m1.m) == 0.0 ==>
      r == Failed(NotInvertible)
    ensures op == Inverse && dim == 2 && r.Computed? ==>
      m1.Matrix? && r.value.Matrix? &&
      Products.Conformable(m1.m, r.value.m) && Products.Conformable(r.value.m, m1.m) &&
      Products.Product(m1.m, r.value.m) == Products.Identity(2) &&
      Products.Product(r.value.m, m1.m) == Products.Identity(2)
  {
    match op
    case Sum => Lift(Elementwise.Sum(m1, m2))
    case Subtract => Lift(Elementwise.Subtract(m1, m2))
    case Multiply =>
      if dim == 1 then
        if m1.Vector? && m2.Vector? then
          match Products.MultiplyVectors(m1.v, m2.v)
          case Ok(v) => Computed(Matrix([v]))
          case Err(e) => Failed(e)
        else if Outer(m1) != Outer(m2) then Failed(VectorLengthMismatch)
        else if Outer(m1) == 0 then Computed(Matrix([[]]))
        else Failed(UnsupportedOperands)
      else if dim == 2 then
        if m1.Matrix? && m2.Matrix? then
          match Products.CheckedProduct(m1.m, m2.m)
          case Ok(p) => Computed(Matrix(p))
          case Err(e) => Failed(e)
        else if Outer(m1) == 0 then Failed(MissingFirstRow)
        else if m1.Vector? || FirstInner(m1) != Outer(m2) then Failed(IncompatibleDimensions)
        else if Outer(m2) == 0 then Failed(MissingFirstRow)
        else if WithoutColumns(m1, m2) then Computed(Matrix(seq(Outer(m1), _ => [])))
        else Failed(UnsupportedOperands)
      else if dim == 3 then
        if m1.Cube? && m2.Cube? && Covers3(m1.c) && Covers3(m2.c) then
          Computed(Cube(Products.CubeProduct(m1.c, m2.c)))
        else Failed(UnsupportedOperands)
      else NoResult
    case Inverse =>
      if dim == 2 then
        if m1.Matrix? then
          match Products.Inverse(m1.m)
          case Ok(inv) => Computed(Matrix(inv))
          case Err(e) => Failed(e)
        else Failed(OnlyTwoByTwo)
      else Failed(InverseNeedsTwoDimensions)
  }

  /** Operands of the form's shape at dimension 1, 2 or 3 are never refused
      by the size checks: sum, difference and product always produce a
      result, of the shape the dimension calls for, and the inverse fails
      only for a singular 2x2 matrix or away from dimension 2. */
  lemma FormOperandsAreAccepted(op: Operation, dim: int, m1: Tensor, m2: Tensor)
    requires FormShaped(dim, m1) && FormShaped(dim, m2)
    ensures WellFormed(m1) && WellFormed(m2)
    ensures op != Inverse ==> Calculate(op, dim, m1, m2).Computed?
    ensures op == Multiply && dim == 1 ==>
      Calculate(op, dim, m1, m2).value == Matrix([Products.Hadamard(m1.v, m2.v)])
    ensures op == Multiply && dim != 1 ==> FormShaped(dim, Calculate(op, dim, m1, m2).value)
    ensures (op == Sum || op == Subtract) ==> FormShaped(dim, Calculate(op, dim, m1, m2).value)
    ensures op == Inverse && dim == 2 ==>
      (Calculate(op, dim, m1, m2).Computed? <==> Products.Det(m1.m) != 0.0) &&
      (Calculate(op, dim, m1, m2).Failed? ==> Calculate(op, dim, m1, m2).error == NotInvertible)
  {
  }

  /** The second operand the form holds stays of the form's shape when an
      operation is chosen, and the operation left selected is never the
      inverse away from dimension 2. */
  lemma ChangeOperationKeepsForm(selected: Operation, dim: int, second: Tensor)
    requires 1 <= dim <= 3 && FormShaped(dim, second)
    ensures FormShaped(dim, ChangeOperation(selected, dim, second).1)
    ensures ChangeOperation(selected, dim, second).0 == Inverse ==> dim == 2
  {
  }
}

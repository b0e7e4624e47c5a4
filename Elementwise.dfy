/** Elementwise sum and difference (`sumMatrices`, `subtractMatrices`):
    the operands' sizes are checked first, from their first elements only,
    then the entries are combined one by one. */
module Elementwise {
  import opened Tensors

  /** The two entrywise operations; the source writes one function per
      operation, identical but for `+` and `-`. */
  datatype ElemOp = Add | Sub

  function Apply(op: ElemOp, x: real, y: real): real {
    match op
    case Add => x + y
    case Sub => x - y
  }

  /** `row.map((value, k) => value ± other[k])` */
  function ZipVector(op: ElemOp, x: seq<real>, y: seq<real>): (r: seq<real>)
    requires |x| == |y|
    ensures |r| == |x|
    ensures forall k :: 0 <= k < |x| ==> r[k] == Apply(op, x[k], y[k])
  {
    if x == [] then [] else [Apply(op, x[0], y[0])] + ZipVector(op, x[1..], y[1..])
  }

  /** The nested `map` over the rows of two matrices of the same shape. */
  function ZipMatrix(op: ElemOp, x: seq<seq<real>>, y: seq<seq<real>>): (r: seq<seq<real>>)
    requires SameMatrixShape(x, y)
    ensures SameMatrixShape(r, x)
    ensures forall i, j :: 0 <= i < |x| && 0 <= j < |x[i]| ==> r[i][j] == Apply(op, x[i][j], y[i][j])
  {
    if x == [] then [] else [ZipVector(op, x[0], y[0])] + ZipMatrix(op, x[1..], y[1..])
  }

  /** The nested `map` over the layers of two cubes of the same shape. */
  function ZipCube(op: ElemOp, x: seq<seq<seq<real>>>, y: seq<seq<seq<real>>>): (r: seq<seq<seq<real>>>)
    requires SameCubeShape(x, y)
    ensures SameCubeShape(r, x)
    ensures forall i :: 0 <= i < |x| ==>
      (SameMatrixShape(r[i], x[i]) && SameMatrixShape(y[i], x[i]) &&
       forall j, k :: 0 <= j < |x[i]| && 0 <= k < |x[i][j]| ==> r[i][j][k] == Apply(op, x[i][j][k], y[i][j][k]))
  {
    if x == [] then [] else [ZipMatrix(op, x[0], y[0])] + ZipCube(op, x[1..], y[1..])
  }

  /** `r` holds, at every index, `op` applied to the entries of `a` and `b`
      at that index. */
  ghost predicate Combines(op: ElemOp, a: Tensor, b: Tensor, r: Tensor)
    requires SameShape(a, b) && SameShape(r, a)
  {
    match r
    case Vector(z) =>
      forall k :: 0 <= k < |z| ==> z[k] == Apply(op, a.v[k], b.v[k])
    case Matrix(z) =>
      forall i, j :: 0 <= i < |z| && 0 <= j < |z[i]| ==> z[i][j] == Apply(op, a.m[i][j], b.m[i][j])
    case Cube(z) =>
      forall i, j, k :: 0 <= i < |z| && 0 <= j < |z[i]| && 0 <= k < |z[i][j]| ==>
        z[i][j][k] == Apply(op, a.c[i][j][k], b.c[i][j][k])
  }

  function Zip(op: ElemOp, a: Tensor, b: Tensor): (r: Tensor)
    requires SameShape(a, b)
    ensures SameShape(r, a) && Combines(op, a, b, r)
  {
    match a
    case Vector(x) => Vector(ZipVector(op, x, b.v))
    case Matrix(x) => Matrix(ZipMatrix(op, x, b.m))
    case Cube(x) => Cube(ZipCube(op, x, b.c))
  }

  /** The size checks of the source, in its order of branches: both operands
      sniffed as cubes compare layer count, first-layer row count and
      first-row length; both sniffed as at least matrices compare the outer
      length and the first element's length; otherwise only the outer
      length is compared. */
  predicate SizesAgree(a: Tensor, b: Tensor)
    requires SameTag(a, b)
  {
    if Is3DArray(a) && Is3DArray(b) then
      |a.c| == |b.c| && |a.c[0]| == |b.c[0]| && |a.c[0][0]| == |b.c[0][0]|
    else if Is2DArray(a) && Is2DArray(b) then
      Outer(a) == Outer(b) && FirstInner(a) == FirstInner(b)
    else
      Outer(a) == Outer(b)
  }

  /** The rank of the branch the source takes, named in its size error:
      the lower of the two sniffed ranks. */
  function CheckedRank(a: Tensor, b: Tensor): nat {
    if SniffedRank(a) <= SniffedRank(b) then SniffedRank(a) else SniffedRank(b)
  }

  /** For internally consistent operands of one rank, looking only at the
      first element along each index decides whether the whole shapes
      agree: an operand that is empty at some level is sniffed at a lower
      rank, and then its zero length at that level disagrees with any
      operand that is not empty there. */
  lemma FirstSizesDecideShape(a: Tensor, b: Tensor)
    requires WellFormed(a) && WellFormed(b) && SameTag(a, b)
    ensures SizesAgree(a, b) <==> SameShape(a, b)
  {
  }

  /** `sumMatrices` (op Add) and `subtractMatrices` (op Sub). Operands of
      different ranks are refused outright; operands of one rank succeed
      exactly when their shapes agree everywhere, and then the result has
      that shape and combines the entries index by index. */
  function Combine(op: ElemOp, a: Tensor, b: Tensor): (r: Result<Tensor>)
    requires WellFormed(a) && WellFormed(b)
    ensures r.Ok? <==> SameTag(a, b) && SameShape(a, b)
    ensures !SameTag(a, b) ==> r == Err(UnsupportedOperands)
    ensures SameTag(a, b) && !SameShape(a, b) ==> r == Err(SizeMismatch(CheckedRank(a, b)))
    ensures r.Ok? ==> SameShape(r.value, a) && WellFormed(r.value) && Combines(op, a, b, r.value)
  {
    if !SameTag(a, b) then
      Err(UnsupportedOperands)
    else
      FirstSizesDecideShape(a, b);
      if !SizesAgree(a, b) then
        Err(SizeMismatch(CheckedRank(a, b)))
      else
        SameShapeKeepsWellFormed(a, Zip(op, a, b));
        Ok(Zip(op, a, b))
  }

  /** Having the shape of a well-formed tensor makes a tensor well-formed. */
  lemma SameShapeKeepsWellFormed(a: Tensor, r: Tensor)
    requires WellFormed(a) && SameShape(r, a)
    ensures WellFormed(r)
  {
  }

  function Sum(a: Tensor, b: Tensor): Result<Tensor>
    requires WellFormed(a) && WellFormed(b)
  {
    Combine(Add, a, b)
  }

  function Subtract(a: Tensor, b: Tensor): Result<Tensor>
    requires WellFormed(a) && WellFormed(b)
  {
    Combine(Sub, a, b)
  }

  // Entrywise negation, the additive inverse used to relate the two operations.

  function NegateVector(x: seq<real>): (r: seq<real>)
    ensures |r| == |x| && forall k :: 0 <= k < |x| ==> r[k] == -x[k]
  {
    if x == [] then [] else [-x[0]] + NegateVector(x[1..])
  }

  function NegateMatrix(x: seq<seq<real>>): (r: seq<seq<real>>)
    ensures SameMatrixShape(r, x)
    ensures forall i, j :: 0 <= i < |x| && 0 <= j < |x[i]| ==> r[i][j] == -x[i][j]
  {
    if x == [] then [] else [NegateVector(x[0])] + NegateMatrix(x[1..])
  }

  function NegateCube(x: seq<seq<seq<real>>>): (r: seq<seq<seq<real>>>)
    ensures SameCubeShape(r, x)
    ensures forall i :: 0 <= i < |x| ==>
      (SameMatrixShape(r[i], x[i]) &&
       forall j, k :: 0 <= j < |x[i]| && 0 <= k < |x[i][j]| ==> r[i][j][k] == -x[i][j][k])
  {
    if x == [] then [] else [NegateMatrix(x[0])] + NegateCube(x[1..])
  }

  function Negate(t: Tensor): (r: Tensor)
    ensures SameShape(r, t) && SameShape(t, r)
  {
    match t
    case Vector(x) => Vector(NegateVector(x))
    case Matrix(x) => Matrix(NegateMatrix(x))
    case Cube(x) => Cube(NegateCube(x))
  }

  // Commutativity of the sum.

  lemma ZipVectorAddCommutes(x: seq<real>, y: seq<real>)
    requires |x| == |y|
    ensures ZipVector(Add, x, y) == ZipVector(Add, y, x)
  {
  }

  lemma {:induction false} ZipMatrixAddCommutes(x: seq<seq<real>>, y: seq<seq<real>>)
    requires SameMatrixShape(x, y)
    ensures ZipMatrix(Add, x, y) == ZipMatrix(Add, y, x)
  {
    if x != [] {
      ZipVectorAddCommutes(x[0], y[0]);
      ZipMatrixAddCommutes(x[1..], y[1..]);
    }
  }

  lemma {:induction false} ZipCubeAddCommutes(x: seq<seq<seq<real>>>, y: seq<seq<seq<real>>>)
    requires SameCubeShape(x, y)
    ensures ZipCube(Add, x, y) == ZipCube(Add, y, x)
  {
    if x != [] {
      ZipMatrixAddCommutes(x[0], y[0]);
      ZipCubeAddCommutes(x[1..], y[1..]);
    }
  }

  /** The sum is commutative, failures included: swapping the operands
      neither changes a result nor the error reported. */
  lemma SumCommutes(a: Tensor, b: Tensor)
    requires WellFormed(a) && WellFormed(b)
    ensures Sum(a, b) == Sum(b, a)
  {
    if SameTag(a, b) && SameShape(a, b) {
      match a
      case Vector(x) => ZipVectorAddCommutes(x, b.v);
      case Matrix(x) => ZipMatrixAddCommutes(x, b.m);
      case Cube(x) => ZipCubeAddCommutes(x, b.c);
    }
  }

  // Subtraction is the sum with the negated right operand.

  lemma ZipVectorSubIsAddNegated(x: seq<real>, y: seq<real>)
    requires |x| == |y|
    ensures ZipVector(Sub, x, y) == ZipVector(Add, x, NegateVector(y))
  {
  }

  lemma {:induction false} ZipMatrixSubIsAddNegated(x: seq<seq<real>>, y: seq<seq<real>>)
    requires SameMatrixShape(x, y)
    ensures ZipMatrix(Sub, x, y) == ZipMatrix(Add, x, NegateMatrix(y))
  {
    if x != [] {
      ZipVectorSubIsAddNegated(x[0], y[0]);
      ZipMatrixSubIsAddNegated(x[1..], y[1..]);
    }
  }

  lemma {:induction false} ZipCubeSubIsAddNegated(x: seq<seq<seq<real>>>, y: seq<seq<seq<real>>>)
    requires SameCubeShape(x, y)
    ensures ZipCube(Sub, x, y) == ZipCube(Add, x, NegateCube(y))
  {
    if x != [] {
      ZipMatrixSubIsAddNegated(x[0], y[0]);
      ZipCubeSubIsAddNegated(x[1..], y[1..]);
    }
  }

  /** Negation keeps a tensor well-formed and is invisible to the size
      checks. */
  lemma NegateKeepsShape(t: Tensor)
    requires WellFormed(t)
    ensures WellFormed(Negate(t))
    ensures Is2DArray(Negate(t)) == Is2DArray(t) && Is3DArray(Negate(t)) == Is3DArray(t)
  {
    SameShapeKeepsWellFormed(t, Negate(t));
  }

  /** `subtract(a, b) == sum(a, -b)`, failures included. */
  lemma SubtractIsSumOfNegation(a: Tensor, b: Tensor)
    requires WellFormed(a) && WellFormed(b)
    ensures WellFormed(Negate(b))
    ensures Subtract(a, b) == Sum(a, Negate(b))
  {
    NegateKeepsShape(b);
    var nb := Negate(b);
    if SameTag(a, b) {
      FirstSizesDecideShape(a, b);
      FirstSizesDecideShape(a, nb);
      assert SameShape(a, b) <==> SameShape(a, nb) by {
        match a
        case Vector(_) =>
        case Matrix(x) =>
        case Cube(x) =>
          if SameShape(a, nb) {
            forall i | 0 <= i < |x| ensures SameMatrixShape(x[i], b.c[i]) {
              assert SameMatrixShape(x[i], nb.c[i]) && SameMatrixShape(nb.c[i], b.c[i]);
            }
          }
      }
      if SameShape(a, b) {
        match a
        case Vector(x) => ZipVectorSubIsAddNegated(x, b.v);
        case Matrix(x) => ZipMatrixSubIsAddNegated(x, b.m);
        case Cube(x) => ZipCubeSubIsAddNegated(x, b.c);
      }
    }
  }
}

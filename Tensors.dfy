/** The values the calculator works on: vectors, matrices and cubes of
    numbers, the failures its operations report, and the shape predicates
    shared by every operation. */
module Tensors {

  /** A value of the calculator, tagged with its rank. */
  datatype Tensor =
    | Vector(v: seq<real>)
    | Matrix(m: seq<seq<real>>)
    | Cube(c: seq<seq<seq<real>>>)

  /** The failures a calculation can end in, one kind per distinguishable
      cause: the engine's thrown messages (the sum and the difference share
      theirs), the runtime type error of reading a missing first row, the
      dispatcher's own refusal of the inverse, and the operands the model
      refuses where the source would compute with arrays. */
  datatype Error =
    | SizeMismatch(rank: nat)      // sizes read at the given rank differ
    | UnsupportedOperands          // operands of different ranks, or of a rank the operation does not take
    | VectorLengthMismatch         // elementwise product of vectors of different lengths
    | IncompatibleDimensions       // left column count differs from right row count
    | MissingFirstRow              // the first row of an empty matrix is read
    | NotInvertible                // determinant exactly zero
    | OnlyTwoByTwo                 // inversion of anything but a 2x2 matrix
    | InverseNeedsTwoDimensions    // inversion selected while the working dimension is not 2

  datatype Result<T> = Ok(value: T) | Err(error: Error)

  /** Every row has the length of the first one. */
  predicate Rectangular(m: seq<seq<real>>) {
    forall i :: 0 <= i < |m| ==> |m[i]| == |m[0]|
  }

  /** A matrix with exactly `rows` rows of exactly `cols` entries. */
  predicate HasSize(m: seq<seq<real>>, rows: nat, cols: nat) {
    |m| == rows && forall i :: 0 <= i < |m| ==> |m[i]| == cols
  }

  /** Every layer has the row count of the first layer, and every row the
      length of the first row of the first layer. */
  predicate Boxed(c: seq<seq<seq<real>>>) {
    forall i :: 0 <= i < |c| ==>
      |c[i]| == |c[0]| && forall j :: 0 <= j < |c[i]| ==> |c[i][j]| == |c[0][0]|
  }

  /** A 3x3x3 cube, the only cube shape the cube product accepts. */
  predicate IsCube3(c: seq<seq<seq<real>>>) {
    |c| == 3 && forall i :: 0 <= i < 3 ==> HasSize(c[i], 3, 3)
  }

  /** A cube holding every entry the cube product reads: at least three
      layers, at least three rows in each of the first three layers, and
      at least three entries in each of their first three rows. */
  predicate Covers3(c: seq<seq<seq<real>>>) {
    |c| >= 3 && forall i :: 0 <= i < 3 ==>
      |c[i]| >= 3 && forall j :: 0 <= j < 3 ==> |c[i][j]| >= 3
  }

  /** The internal consistency the engine takes for granted of each operand. */
  predicate WellFormed(t: Tensor) {
    match t
    case Vector(_) => true
    case Matrix(m) => Rectangular(m)
    case Cube(c) => Boxed(c)
  }

  predicate SameTag(a: Tensor, b: Tensor) {
    (a.Vector? && b.Vector?) || (a.Matrix? && b.Matrix?) || (a.Cube? && b.Cube?)
  }

  predicate SameMatrixShape(x: seq<seq<real>>, y: seq<seq<real>>) {
    |x| == |y| && forall i :: 0 <= i < |x| ==> |x[i]| == |y[i]|
  }

  predicate SameCubeShape(x: seq<seq<seq<real>>>, y: seq<seq<seq<real>>>) {
    |x| == |y| && forall i :: 0 <= i < |x| ==> SameMatrixShape(x[i], y[i])
  }

  /** Same rank and the same length along every index, everywhere. */
  predicate SameShape(a: Tensor, b: Tensor) {
    match (a, b)
    case (Vector(x), Vector(y)) => |x| == |y|
    case (Matrix(x), Matrix(y)) => SameMatrixShape(x, y)
    case (Cube(x), Cube(y)) => SameCubeShape(x, y)
    case _ => false
  }

  /** The length of the outermost array. */
  function Outer(t: Tensor): nat {
    match t
    case Vector(v) => |v|
    case Matrix(m) => |m|
    case Cube(c) => |c|
  }

  /** The rank the tag declares. */
  function TagRank(t: Tensor): nat {
    match t
    case Vector(_) => 1
    case Matrix(_) => 2
    case Cube(_) => 3
  }

  /** `is2DArray`: the first element is itself an array. A vector's first
      element is a number (or missing); an empty matrix or cube has none. */
  function Is2DArray(t: Tensor): (b: bool)
    ensures b ==> TagRank(t) >= 2
  {
    match t
    case Vector(_) => false
    case Matrix(m) => |m| > 0
    case Cube(c) => |c| > 0
  }

  /** `is3DArray`: the first element of the first element is an array too. */
  function Is3DArray(t: Tensor): (b: bool)
    ensures b ==> Is2DArray(t) && t.Cube?
  {
    t.Cube? && |t.c| > 0 && |t.c[0]| > 0
  }

  /** The length of the first element, read only where `is2DArray` holds. */
  function FirstInner(t: Tensor): nat
    requires Is2DArray(t)
  {
    match t
    case Matrix(m) => |m[0]|
    case Cube(c) => |c[0]|
  }

  /** The rank the source's structural test sees. */
  function SniffedRank(t: Tensor): (r: nat)
    ensures 1 <= r <= TagRank(t)
  {
    if Is3DArray(t) then 3 else if Is2DArray(t) then 2 else 1
  }

  /** Structural sniffing recovers the tag exactly when the tensor is not
      empty at any level the sniff looks at; an empty matrix or cube is
      seen as something of lower rank. */
  lemma SniffedRankAgreesWithTag(t: Tensor)
    ensures SniffedRank(t) == TagRank(t) <==>
      match t
      case Vector(_) => true
      case Matrix(m) => |m| > 0
      case Cube(c) => |c| > 0 && |c[0]| > 0
  {
  }
}

# Tensor calculator engine, modelled in Dafny

This project models the arithmetic core of a small matrix calculator
written as a React component (`src/calculator.tsx`). The calculator works
on three kinds of operands: vectors, matrices and cubes of numbers. It
offers four operations:

- elementwise sum (`sumMatrices`) and difference (`subtractMatrices`);
- multiplication, which depends on the working dimension: an entrywise
  vector product (`multiplyVectors`), the ordinary matrix product
  (`multiplyMatrices`), and a 3x3x3 cube product taken independently in
  each depth slice (`multiply3DMatrices`);
- the closed-form inverse of a 2x2 matrix (`inverseMatrix`).

The component also contains a few pure decisions, which are modelled too:

- the zero operands it builds for a dimension (`createEmptyMatrix`);
- the rule that the inverse is only kept at dimension 2
  (`handleOperationChange`);
- the dispatch from operation and dimension to an engine function
  (`handleCalculate`).

Modules:

- `Tensors` (Tensors.dfy): the tagged value `Vector | Matrix | Cube` over
  `real`, the error kinds, and the shape predicates. It also models the
  source's rank sniffing (`is2DArray`, `is3DArray`), which looks only at
  first elements.
- `Elementwise` (Elementwise.dfy): the sum and the difference as one
  function, `Combine`, which takes the entrywise operation as a parameter.
  It checks sizes exactly as the source does, from first elements only.
  Lemmas show that, for rectangular operands of one rank, these checks
  decide full shape equality. They also show that the sum commutes and
  that the difference is the sum with the negated right operand, failures
  included.
- `Products` (Products.dfy): the three multiplications and the inverse.
  The two loop-based products are methods. Each fills a zero-initialised
  `array2`/`array3` with nested `for` loops. Each is proved equal to a
  specification function (`CheckedProduct`, `CubeProduct`). The inverse
  is proved to be a two-sided inverse under the matrix product. The cube
  product is proved to be the matrix product of each depth slice.
- `Calculator` (Calculator.dfy): `createEmptyMatrix`,
  `handleOperationChange` and `handleCalculate` as pure functions. A
  lemma covers operands of the shape the form builds (three numbers, 2x2,
  3x3x3): sum, difference and product always succeed on them, and the
  inverse fails only for a singular matrix or away from dimension 2.
- `Examples` (Examples.dfy): worked cases for each operation and for the
  main failure kinds.

Scalars are `real`. The source uses only `+`, `-`, `*`, `/` and the exact
test `det === 0`, so the inverse round trip holds exactly here.

Some of the source's behaviour is less regular than its function names
suggest, and the model keeps it:

- The cube size check compares only the layer count, the first layer's
  row count and the first row's length. `FirstSizesDecideShape` shows
  that this is enough for well-formed operands.
- The product of two vectors is shown as a one-row matrix, because the
  dispatch wraps it in a list.
- Inverting a vector or a non-2x2 matrix reports "only 2x2 inversion is
  supported", not a separate unsupported-operands failure.
- The cube product reads only the leading 3x3x3 entries of each operand,
  so larger cubes are accepted and cut down to those entries.
- A product at dimension 1 or 2 whose operands have the wrong rank still
  fails with the engine's own first check where that check fails: a
  length mismatch at dimension 1; at dimension 2 an empty left operand
  (reading its missing first row) or a left operand whose first element
  has no matching length, which includes every non-empty vector.

## Model

| member | source | states |
|---|---|---|
| `Tensors.Is2DArray` | src/calculator.tsx:7 | only a matrix or a cube can be seen as two-dimensional; a vector never is |
| `Tensors.Is3DArray` | src/calculator.tsx:10 | only a cube can be seen as three-dimensional, and whatever is seen as three-dimensional is also seen as two-dimensional |
| `Tensors.SniffedRank` | src/calculator.tsx:7-10 | the rank seen by structural sniffing is between 1 and the declared rank |
| `Tensors.SniffedRankAgreesWithTag` | src/calculator.tsx:7-10 | sniffing recovers the declared rank iff the tensor is non-empty at each level sniffed: always for a vector, for a matrix iff it has a row, for a cube iff it has a layer and its first layer has a row |
| `Elementwise.ZipVector` | src/calculator.tsx:37 | same length as the operands, entry k is `x[k] ± y[k]` |
| `Elementwise.ZipMatrix` | src/calculator.tsx:30-32 | same shape as the operands, entry (i,j) is `x[i][j] ± y[i][j]` |
| `Elementwise.ZipCube` | src/calculator.tsx:20-24 | same shape as the operands, entry (i,j,k) is `x[i][j][k] ± y[i][j][k]` |
| `Elementwise.Zip` | src/calculator.tsx:20-37 | for any rank, the result has the operands' shape and combines them entry by entry |
| `Elementwise.FirstSizesDecideShape` | src/calculator.tsx:14-36 | for rectangular operands of one rank, the first-element size checks pass iff the shapes agree everywhere |
| `Elementwise.Combine` | src/calculator.tsx:13-72 | sum/difference (`Sum` and `Subtract` are its two instances, lines 13 and 44): mixed ranks give an unsupported error; same rank succeeds iff shapes agree, else a size error naming the checked rank; success has the left operand's shape, is well-formed, and combines entries pointwise. The first-element size checks of lines 14-17, 26-27 and 34 are `SizesAgree` |
| `Elementwise.SameShapeKeepsWellFormed` | src/calculator.tsx:20-37 | a result shaped like a rectangular operand is rectangular |
| `Elementwise.NegateMatrix` | src/calculator.tsx:61-63 | the negation used to relate difference and sum: same shape, entry (i,j) is `-x[i][j]` |
| `Elementwise.NegateCube` | src/calculator.tsx:51-55 | the negation used to relate difference and sum: same shape, entry (i,j,k) is `-x[i][j][k]` |
| `Elementwise.ZipVectorAddCommutes` | src/calculator.tsx:37 | the vector sum is commutative |
| `Elementwise.ZipMatrixAddCommutes` | src/calculator.tsx:30-32 | the matrix sum is commutative |
| `Elementwise.ZipCubeAddCommutes` | src/calculator.tsx:20-24 | the cube sum is commutative |
| `Elementwise.SumCommutes` | src/calculator.tsx:13-41 | `sum(a,b) == sum(b,a)` for all operands, errors included |
| `Elementwise.ZipVectorSubIsAddNegated` | src/calculator.tsx:68 | vector difference equals the sum with the negated right operand |
| `Elementwise.ZipMatrixSubIsAddNegated` | src/calculator.tsx:61-63 | matrix difference equals the sum with the negated right operand |
| `Elementwise.ZipCubeSubIsAddNegated` | src/calculator.tsx:51-55 | cube difference equals the sum with the negated right operand |
| `Elementwise.NegateKeepsShape` | src/calculator.tsx:44-72 | negation keeps an operand rectangular and invisible to the size checks |
| `Elementwise.SubtractIsSumOfNegation` | src/calculator.tsx:44-72 | `subtract(a,b) == sum(a, -b)` for all operands, errors included |
| `Products.Hadamard` | src/calculator.tsx:79 | same length, entry k is `x[k] * y[k]` |
| `Products.MultiplyVectors` | src/calculator.tsx:75-80 | fails with a length error iff lengths differ; otherwise an entrywise product of the same length (not a dot product) |
| `Products.HadamardCommutes` | src/calculator.tsx:79 | the entrywise product is commutative |
| `Products.MultiplyVectorsCommutes` | src/calculator.tsx:75-80 | `multiplyVectors(x,y) == multiplyVectors(y,x)`, errors included |
| `Products.Product` | src/calculator.tsx:88-98 | the matrix product has `|a|` rows of `|b[0]|` columns |
| `Products.CheckedProduct` | src/calculator.tsx:83-101 | succeeds iff both operands are non-empty and `a[0].length == b.length`; an empty left operand, a column/row disagreement, and an empty right operand after the column check give their own errors; success is `Product(a, b)`, with `|a|` x `|b[0]|` entries |
| `Products.MultiplyMatrices` | src/calculator.tsx:83-101 | the triple loop into a zero-filled result computes exactly `CheckedProduct`: entry (i,j) is `Σ_{k<|b|} a[i][k]*b[k][j]` |
| `Products.InverseFormula` | src/calculator.tsx:110-114 | the adjugate-over-determinant closed form is a 2x2 matrix |
| `Products.Cell2` | src/calculator.tsx:95 | an entry of a 2x2 by 2x2 product written out as two products |
| `Products.AdjugateIdentities` | src/calculator.tsx:106-114 | the scalar identities that make the adjugate over the determinant an inverse |
| `Products.ProductIsIdentity2` | src/calculator.tsx:92-98 | a 2x2 product whose written-out entries are those of the identity is the identity |
| `Products.InverseFormulaIsInverse` | src/calculator.tsx:104-117 | for a non-zero determinant, `m * inv(m) == I` and `inv(m) * m == I` exactly |
| `Products.Inverse` | src/calculator.tsx:104-117 | non-2x2 input gives "only 2x2"; a 2x2 input fails iff its determinant (`Det`, line 106) is exactly 0 ("not invertible"); a result is a two-sided inverse |
| `Products.CubeProduct` | src/calculator.tsx:120-138 | the cube product of two cubes holding at least their leading 3x3x3 entries is 3x3x3; entry (i,j,k) is `SliceSum`, the sum over `l` that lines 130-131 accumulate |
| `Products.Multiply3DMatrices` | src/calculator.tsx:120-138 | on operands holding every entry read, the four nested loops into a zero-filled 3x3x3 result compute exactly `CubeProduct`: entry (i,j,k) is `Σ_{l<3} a[i][l][k]*b[l][j][k]` |
| `Products.SliceSumIsDot` | src/calculator.tsx:129-133 | the inner sum over `l` is the dot product of a row and a column of depth slice k |
| `Products.CubeProductIsSlicewise` | src/calculator.tsx:127-135 | depth slice k of the cube product is the matrix product of slice k of each operand; depth is never contracted |
| `Calculator.CreateEmpty` | src/calculator.tsx:156-165 | all zeros and well-formed; three numbers, a 2x2 matrix or a 3x3x3 cube for dimensions 1, 2, 3; an empty array otherwise |
| `Calculator.ChangeOperation` | src/calculator.tsx:189-198 | the inverse is kept iff it was chosen at dimension 2; chosen elsewhere it falls back to sum; any other choice is kept; the second operand is reset to zeros exactly when a non-inverse operation is chosen |
| `Calculator.ChangeOperationKeepsForm` | src/calculator.tsx:189-198 | choosing an operation keeps the second operand in the form's shape |
| `Calculator.Calculate` | src/calculator.tsx:200-228 | no result iff multiply at a dimension other than 1-3; sum/difference succeed iff shapes agree and then combine the operands entry by entry, and otherwise fail as unsupported for mixed ranks or with the size error naming the checked rank; at dimension 1 the product succeeds iff both are vectors of one length (the one-row entrywise product) or both are empty (`[[]]`), a length mismatch failing whatever the ranks; at dimension 2 it succeeds iff both are matrices the checked product accepts and is their matrix product, an empty left operand, a first-row/right-length disagreement, or then an empty right operand failing whatever the ranks, and operands whose right first element is empty giving a row of nothing per left element whatever the ranks; at dimension 3 it succeeds iff both are cubes holding the entries read and is their cube product; the inverse fails away from dimension 2, at dimension 2 succeeds iff the operand is a 2x2 matrix of non-zero determinant (non-2x2 gives "only 2x2", a zero determinant "not invertible") and is then a two-sided inverse; results are well-formed |
| `Calculator.FormOperandsAreAccepted` | src/calculator.tsx:200-228 | on operands of the form's shape, sum, difference and product always succeed with the dimension's shape, and the inverse at dimension 2 fails iff the determinant is 0 |
| `Examples.SumOfVectors` | src/calculator.tsx:37 | `[1,2,3] + [4,5,6] == [5,7,9]` |
| `Examples.SumOfUnequalVectorsFails` | src/calculator.tsx:34-36 | `[1,2,3] + [1,2]` fails with a rank-1 size error |
| `Examples.ProductOfMatrices` | src/calculator.tsx:83-101 | `[[1,2],[3,4]] * [[5,6],[7,8]] == [[19,22],[43,50]]` |
| `Examples.ProductOfIncompatibleMatricesFails` | src/calculator.tsx:84-86 | a 2x3 times a 2x2 fails with incompatible dimensions |
| `Examples.InverseOfMatrix` | src/calculator.tsx:104-117 | `inverse([[1,2],[3,4]]) == [[-2,1],[1.5,-0.5]]` |
| `Examples.InverseOfSingularMatrixFails` | src/calculator.tsx:105-108 | `inverse([[1,2],[2,4]])` fails as not invertible |
| `Examples.ProductOfVectorsIsEntrywise` | src/calculator.tsx:208-210 | multiplying `[1,2,3]` by `[4,5,6]` at dimension 1 shows `[[4,10,18]]` |
| `Examples.VectorTimesMatrixFailsFirstCheck` | src/calculator.tsx:84-86 | at dimension 2, a vector `[1,2]` on the left fails with incompatible dimensions, its first element having no length |
| `Examples.EmptyOperandsMultiplyToEmptyRow` | src/calculator.tsx:76-79 | at dimension 1 two empty operands, whatever their tags, give the one-row `[[]]` |
| `Examples.MatrixTimesColumnlessCube` | src/calculator.tsx:88-98 | at dimension 2, `[[1]]` times the cube `[[]]` passes line 84 and gives `[[]]`: one row, no columns, nothing multiplied |

## Left out

- Elementwise.Combine: operands of different declared ranks are refused
  with an unsupported-operands error before any size check. This is a
  deliberate deviation. The source sniffs ranks and would, for example,
  put a cube and a matrix through its matrix branch and add arrays to
  numbers. The engine's own final `else` is the error the model uses.
  Two empty operands of different tags are both `[]` in the source,
  which sums them to `[]`; the model refuses them as well.
- Calculator.Calculate: a multiplication whose operands pass the
  engine's first check but do not carry the rank the dimension calls for
  is refused as unsupported operands. At dimension 1 (equal non-zero
  lengths, not both vectors) the source multiplies arrays, which it
  converts to numbers: an empty array to 0 (so `[[]]` times `[[]]` shows
  `[[0]]`), a one-entry array to its entry, a longer one to `NaN`. At
  dimension 2, a non-empty vector on the right gives rows holding a
  single 0 in the source (`Array(undefined).fill(0)` has one entry and
  the loops do not run). A cube on either side makes it multiply arrays
  when the right operand's first element is non-empty; when that element
  is empty, nothing is multiplied and the model, like the source,
  returns a row of nothing per left element (`WithoutColumns`). At
  dimension 3 a cube missing some of its leading 3x3x3 entries, or an
  operand that is not a cube, makes the source index a missing entry
  (a runtime type error) or multiply `undefined` (`NaN`). Inverting a
  cube reports "only 2x2" even when its first two sizes are 2, where the
  source would do arithmetic on arrays. The operands the form builds
  never reach these cases (`FormOperandsAreAccepted`).
- Ragged operands (rows of different lengths, layers of different sizes)
  are excluded by the `WellFormed` precondition. The source sums and
  subtracts two operands ragged the same way correctly, since its `map`
  follows each row of the left operand (for example
  `[[1],[2,3]] + [[1],[2,3]]`). It gives `NaN` where a later row of the
  right operand is shorter than the matching row of the left, and it
  ignores extra entries of a longer one. Where a later layer of the
  right cube has fewer rows than the matching layer of the left, line 22
  indexes a missing row, which is a runtime type error.
- The runtime type error thrown when `multiplyMatrices` reads the first
  row of an empty operand is modelled as the error kind `MissingFirstRow`.
  The component catches it like any other failure.
- Error messages are modelled as error kinds, not strings. The sum and
  difference messages that differ only in the operation's name share one
  kind.
- Floating point: `NaN` from unparsable input, rounding in `/`, and `-0`
  are not modelled; scalars are exact reals.
- The dispatch (`Calculator.Calculate`) uses the specification functions
  `CheckedProduct` and `CubeProduct`. The methods `MultiplyMatrices` and
  `Multiply3DMatrices` are proved to return exactly these values.
- React state and rendering are not modelled. This covers the `useState`
  hooks, `handleDimensionChange` (which resets both operands with
  `createEmptyMatrix` and clears the result), `handleMatrixChange` (cell
  edits through `parseFloat` on a JSON clone), the `alert` of failure
  messages, and the JSX (lines 141-154, 167-187, 230-448).
- The component's initial operands are empty arrays at dimension 1, not
  the output of `createEmptyMatrix(1)`. `FormOperandsAreAccepted` covers
  operands of the form's shape only.

/** Worked cases of the calculator's operations, one per operation and
    failure kind. */
module Examples {
  import opened Tensors
  import Elementwise
  import Products
  import Calculator

  lemma SumOfVectors()
    ensures Elementwise.Sum(Vector([1.0, 2.0, 3.0]), Vector([4.0, 5.0, 6.0])) == Ok(Vector([5.0, 7.0, 9.0]))
  {
    var r := Elementwise.Sum(Vector([1.0, 2.0, 3.0]), Vector([4.0, 5.0, 6.0]));
    assert r.Ok? && r.value.v == [5.0, 7.0, 9.0];
  }

  lemma SumOfUnequalVectorsFails()
    ensures Elementwise.Sum(Vector([1.0, 2.0, 3.0]), Vector([1.0, 2.0])) == Err(SizeMismatch(1))
  {
  }

  lemma ProductOfMatrices()
    ensures Products.CheckedProduct([[1.0, 2.0], [3.0, 4.0]], [[5.0, 6.0], [7.0, 8.0]])
         == Ok([[19.0, 22.0], [43.0, 50.0]])
  {
    var a, b := [[1.0, 2.0], [3.0, 4.0]], [[5.0, 6.0], [7.0, 8.0]];
    var p := Products.Product(a, b);
    Products.Cell2(a, b, 0, 0);
    Products.Cell2(a, b, 0, 1);
    Products.Cell2(a, b, 1, 0);
    Products.Cell2(a, b, 1, 1);
    assert p[0] == [19.0, 22.0] && p[1] == [43.0, 50.0];
    assert p == [[19.0, 22.0], [43.0, 50.0]];
  }

  lemma ProductOfIncompatibleMatricesFails()
    ensures Products.CheckedProduct([[1.0, 2.0, 3.0], [4.0, 5.0, 6.0]], [[1.0, 2.0], [3.0, 4.0]])
         == Err(IncompatibleDimensions)
  {
  }

  lemma InverseOfMatrix()
    ensures Products.Inverse([[1.0, 2.0], [3.0, 4.0]]) == Ok([[-2.0, 1.0], [1.5, -0.5]])
  {
  }

  lemma InverseOfSingularMatrixFails()
    ensures Products.Inverse([[1.0, 2.0], [2.0, 4.0]]) == Err(NotInvertible)
  {
  }

  lemma ProductOfVectorsIsEntrywise()
    ensures Calculator.Calculate(Calculator.Multiply, 1, Vector([1.0, 2.0, 3.0]), Vector([4.0, 5.0, 6.0]))
         == Calculator.Computed(Matrix([[4.0, 10.0, 18.0]]))
  {
    var r := Products.MultiplyVectors([1.0, 2.0, 3.0], [4.0, 5.0, 6.0]);
    assert r.Ok? && r.value == [4.0, 10.0, 18.0];
  }

  lemma VectorTimesMatrixFailsFirstCheck()
    ensures Calculator.Calculate(Calculator.Multiply, 2, Vector([1.0, 2.0]), Matrix([[1.0], [2.0]]))
         == Calculator.Failed(IncompatibleDimensions)
  {
  }

  lemma EmptyOperandsMultiplyToEmptyRow()
    ensures Calculator.Calculate(Calculator.Multiply, 1, Matrix([]), Matrix([]))
         == Calculator.Computed(Matrix([[]]))
  {
  }

  lemma MatrixTimesColumnlessCube()
    ensures Calculator.Calculate(Calculator.Multiply, 2, Matrix([[1.0]]), Cube([[]]))
         == Calculator.Computed(Matrix([[]]))
  {
  }
}

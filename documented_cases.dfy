/**
 * The cases in the package's tests for each operation, stated on the
 * model's specification functions (the methods' contracts carry them over to
 * the methods).
 */
module DocumentedCases {
  import opened Types
  import opened Sorting
  import opened Generators
  import opened Predicates
  import opened Totals
  import opened RoundTrips

  lemma ArithmeticGeneratorCases()
    ensures ArithmeticSequence(4.0, 0, 1.0) == []
    ensures ArithmeticSequence(5.0, 5, 0.0) == [5.0, 5.0, 5.0, 5.0, 5.0]
    ensures ArithmeticSequence(1.0, 10, 2.0) == [1.0, 3.0, 5.0, 7.0, 9.0, 11.0, 13.0, 15.0, 17.0, 19.0]
  {
  }

  lemma GeometricGeneratorCases()
    ensures RejectsDegenerate(0.0, 5, 6.0) && RejectsDegenerate(5.0, 5, 0.0)
    ensures !RejectsDegenerate(1.0, 0, 2.0) && GeometricSequence(1.0, 0, 2.0) == []
    ensures GeometricSequence(1.0, 11, 2.0)
      == [1.0, 2.0, 4.0, 8.0, 16.0, 32.0, 64.0, 128.0, 256.0, 512.0, 1024.0]
  {
    var g := GeometricSequence(1.0, 11, 2.0);
    assert g[10] == 1.0 * Pow(2.0, 10);
  }

  lemma HarmonicGeneratorCases()
    ensures RejectsDegenerate(0.0, 2, 7.0) && RejectsDegenerate(3.0, 4, 0.0)
    ensures !RejectsDegenerate(1.0, 0, 2.0) && HarmonicDefined(1.0, 0, 2.0) && HarmonicSequence(1.0, 0, 2.0) == []
    ensures HarmonicDefined(1.0, 5, 1.0)
    ensures HarmonicSequence(1.0, 5, 1.0) == [1.0, 1.0 / 2.0, 1.0 / 3.0, 1.0 / 4.0, 1.0 / 5.0]
  {
  }

  lemma ArithmeticCases()
    ensures ArithmeticClassification([]) == RangeError
    ensures ArithmeticClassification([1.0, 3.0, 5.0, 7.0, 10.0]) == Ok(NotMatched)
    ensures ArithmeticClassification([1.0, 3.0, 5.0, 7.0, 9.0]) == Ok(Matched(2.0))
  {
    var s := [1.0, 3.0, 5.0, 7.0, 10.0];
    assert s[4] - s[3] != s[1] - s[0];
  }

  lemma GeometricCases()
    ensures GeometricClassification([]) == RangeError
    ensures GeometricClassification([1.0, 3.0, 9.0, 27.0, 81.0, 243.0]) == Ok(Matched(3.0))
    ensures GeometricClassification([1.0, 3.0, 9.0, 27.0, 96.0]) == Ok(NotMatched)
  {
    var s := [1.0, 3.0, 9.0, 27.0, 96.0];
    assert GeometricMismatchAt(s, 4);
  }

  lemma HarmonicEmptyCase()
    ensures HarmonicClassification([], DefaultEpsilon) == RangeError
  {
  }

  lemma HarmonicMatchedCase()
    ensures NonZero([1.0, 1.0 / 2.0, 1.0 / 3.0, 1.0 / 4.0, 1.0 / 5.0, 1.0 / 6.0])
    ensures HarmonicClassification([1.0, 1.0 / 2.0, 1.0 / 3.0, 1.0 / 4.0, 1.0 / 5.0, 1.0 / 6.0], DefaultEpsilon)
      == Ok(Matched(1.0))
  {
    var s := [1.0, 1.0 / 2.0, 1.0 / 3.0, 1.0 / 4.0, 1.0 / 5.0, 1.0 / 6.0];
    assert HarmonicDefined(1.0, 6, 1.0);
    var h := HarmonicSequence(1.0, 6, 1.0);
    forall i | 0 <= i < 6
      ensures h[i] == s[i]
    {
      assert HarmonicDenominator(1.0, i, 1.0) == (i + 1) as real;
    }
    assert h == s;
    HarmonicRoundTrip(1.0, 6, 1.0, DefaultEpsilon);
  }

  lemma UnitFractionReciprocals()
    ensures NonZero([1.0, 1.0 / 2.0, 1.0 / 3.0, 1.0 / 4.0, 1.0 / 7.0])
    ensures Reciprocals([1.0, 1.0 / 2.0, 1.0 / 3.0, 1.0 / 4.0, 1.0 / 7.0]) == [1.0, 2.0, 3.0, 4.0, 7.0]
  {
    var t := [1.0, 1.0 / 2.0, 1.0 / 3.0, 1.0 / 4.0, 1.0 / 7.0];
    var r := Reciprocals(t);
    assert r[0] == 1.0 && r[1] == 2.0 && r[2] == 3.0 && r[3] == 4.0 && r[4] == 7.0;
  }

  lemma HarmonicNotMatchedCase()
    ensures NonZero([1.0, 1.0 / 2.0, 1.0 / 3.0, 1.0 / 4.0, 1.0 / 7.0])
    ensures HarmonicClassification([1.0, 1.0 / 2.0, 1.0 / 3.0, 1.0 / 4.0, 1.0 / 7.0], DefaultEpsilon)
      == Ok(NotMatched)
  {
    UnitFractionReciprocals();
    var r := [1.0, 2.0, 3.0, 4.0, 7.0];
    SortedPermutationOfSorted(r);
    assert !IsApproxEqual(r[4] - r[3], r[1] - r[0], DefaultEpsilon);
  }

  lemma SumCases()
    ensures GetSumFromArray([1, 2, 3, 4, 5], n => 2 * n) == 30
    ensures GetSumFromArray([1, 2, 3, 4, 5]) == 15
    ensures GetSumFromArray([]) == EmptySum
    ensures InclusiveRange(1, 5) == [1, 2, 3, 4, 5]
  {
    assert InclusiveRange(1, 5) == [1, 2, 3, 4, 5];
    SumOfFirstIntegers(5);
    SumFromArrayScale([1, 2, 3, 4, 5], 2, Identity, n => 2 * n);
  }

  lemma ProductCases()
    ensures GetProductFromArray([1, 2, 3, 4, 5], n => 2 * n) == 3840
    ensures GetProductFromArray([1, 2, 3, 4, 5]) == 120
    ensures GetProductFromArray([]) == EmptyProduct
  {
    ProductFromArrayScale([1, 2, 3, 4, 5], 2, Identity, n => 2 * n);
    assert [1, 2, 3, 4, 5][..4] == [1, 2, 3, 4];
    assert [1, 2, 3, 4][..3] == [1, 2, 3];
    assert [1, 2, 3][..2] == [1, 2];
    assert [1, 2][..1] == [1];
    assert [1][..0] == [];
  }

  /** The range forms of the sum and product tests agree with the array forms. */
  method BoundsCases() returns (sum: Result<int>, doubledSum: Result<int>, product: Result<int>, doubledProduct: Result<int>)
    ensures sum == Ok(15) && doubledSum == Ok(30)
    ensures product == Ok(120) && doubledProduct == Ok(3840)
  {
    SumCases();
    ProductCases();
    sum := GetSumFromBounds(1, 5);
    doubledSum := GetSumFromBounds(1, 5, n => 2 * n);
    product := GetProductFromBounds(1, 5);
    doubledProduct := GetProductFromBounds(1, 5, n => 2 * n);
  }
}

# Progressions and totals, modelled in Dafny

A model of the `ts-scale` library: a small collection of functions that
generate numeric progressions (arithmetic, geometric, harmonic), recognise
them, and compute sums and products. Three components are modelled, one
Dafny module each:

- **Generators** (`src/generators.ts`, module `Generators`). Each builds a
  list of `length` terms in a loop that appends one term per step, except
  the arithmetic generator's `Array(length).fill` shortcut for a zero step. The
  geometric and harmonic generators throw a `RangeError` for a zero start or
  zero scale only when `length > 0`; the `length == 0` check comes first and
  returns `[]`.
- **Predicates** (`src/predicates.ts`, module `Predicates`). Each throws for
  fewer than two terms. Each takes a candidate parameter from the first two
  terms and scans from index 2, returning at the first mismatch. The harmonic
  predicate first takes reciprocals and sorts them ascending, then compares
  differences with a strict tolerance.
- **Aggregators** (`src/totals.ts`, module `Totals`). Sum and product over an
  inclusive integer range (a loop) or over an array (a `reduce` fold). The
  range forms throw for `lower > upper`, and return the empty sum or empty
  product for equal bounds.

Supporting modules:

- `Types` holds the result shapes. A thrown `RangeError` is
  `Result.RangeError`. The `[boolean, number]` predicate result is
  `Matched(p)` for `[true, p]` and `NotMatched` for `[false, NaN]`.
- `Sorting` stands in for `Array.prototype.sort` with an ascending
  comparator. It has an in-place insertion sort on an `array`. Its
  specification is the unique sorted permutation.
- `RoundTrips` relates generators and predicates. For arithmetic and geometric progressions it goes both ways: a generated progression is recognised with the parameter it was generated from, and a recognised sequence equals the sequence of its first term and parameter. The arithmetic generator always returns that sequence. The geometric generator returns it whenever the ratio is non-zero, which always holds for three or more terms; a two-term `[x, 0]` is recognised with ratio 0, which the generator rejects. For harmonic progressions it goes one way only: a generated progression is recognised with parameter `|scale|`. There is no exact converse, because a positive tolerance also accepts reciprocals that are only close to evenly spaced.
- `DocumentedCases` restates the cases in the package's tests on the model.

Numbers are exact. Progression terms are `real`, because division appears.
Totals are `int`, with `int -> int` mapping functions.

The imperative source code stays imperative in the model:

- generators and predicates are methods with loops;
- the reciprocal buffer is an `array` sorted in place;
- the range aggregators are loops.

Each method is proved against a specification function. The `reduce` folds
are recursive functions.

Where the library's comments and its code disagree, the model follows the
code:

- The comment example for `newGeometricProgression(1, 9, 3)` lists powers of
  5. The code gives powers of 3.
- The error message says start and scale "must be greater than 0". The code
  rejects only zero, so negative values are accepted.
- `getSumFromBounds` and `getProductFromBounds` are documented with inclusive
  bounds. With equal bounds the code still returns the empty sum (0) or the
  empty product (1), not `lambda(lower)`. The package's tests expect this.
- `isGeometricProgression([x, 0])` with non-zero `x` returns `[true, 0]`: the scan from index 2 never runs. `newGeometricProgression` rejects a zero scale, so no generator call produces this recognised progression.
- The comment on `isHarmonicProgression` speaks of harmonic means of
  neighbours. The code sorts the reciprocals first, so the order of the
  input does not matter.

## Model

| member | source | states |
|---|---|---|
| `Generators.NewArithmeticProgression` | src/generators.ts:20-28 | Returns exactly `length` terms, and term `i` is `start + step*i`. Length 0 gives `[]`. The `step == 0` fill shortcut gives the same terms as the general loop. |
| `Generators.NewGeometricProgression` | src/generators.ts:51-61 | Fails exactly when `length > 0` and the start or scale is zero, so length 0 gives `[]` even for zero arguments. Otherwise it returns `length` terms, and term `i` is `start * scale^i`. |
| `Generators.NewHarmonicProgression` | src/generators.ts:83-92 | Fails under the same condition as the geometric generator. Otherwise it returns `length` terms, and term `i` is `1/(start + i*scale)`. It requires that no denominator is zero when the call does not fail. |
| `Generators.ArithmeticConstantDifference` | src/generators.ts:24-27 | Consecutive generated arithmetic terms differ by exactly `step`. |
| `Generators.GeometricConstantRatio` | src/generators.ts:55-58 | With non-zero start and scale, no generated geometric term is zero. Each term is the previous one times `scale`, so the quotient is `scale`. |
| `Generators.HarmonicReciprocal` | src/generators.ts:87-90 | Each generated harmonic term is non-zero, and its reciprocal is `start + i*scale`. |
| `Generators.PowNonZero` | src/generators.ts:57 | `scale ** i` is non-zero for a non-zero scale. |
| `Sorting.SortInPlace` | src/predicates.ts:96 | Leaves the array sorted ascending and holding the same elements. |
| `Sorting.SortedPermutation` | src/predicates.ts:96 | The specification of the sort: a sorted sequence with the same elements as its input. |
| `Sorting.SortedUnique` | src/predicates.ts:96 | Two sorted sequences with the same elements are equal, so any correct sort gives the same result. |
| `Sorting.SortedPermutationOfSorted` | src/predicates.ts:96 | Sorting an already sorted sequence changes nothing. |
| `Predicates.IsApproxEqual` | src/predicates.ts:3-5 | True exactly when `a` lies strictly between `b - epsilon` and `b + epsilon`. It is never true for `epsilon <= 0`. |
| `Predicates.IsArithmeticProgression` | src/predicates.ts:29-40 | Fails exactly for fewer than two terms. Returns `Matched(s[1]-s[0])` exactly when every difference from index 2 on equals `s[1]-s[0]`, and `NotMatched` otherwise. Two terms always match. |
| `Predicates.IsGeometricProgression` | src/predicates.ts:60-71 | Fails exactly for fewer than two terms, and requires `s[0] != 0`. Returns `NotMatched` if any term from index 2 on is zero. Otherwise returns `Matched(s[1]/s[0])` exactly when every ratio from index 2 on equals `s[1]/s[0]`. Two terms always match. |
| `Predicates.IsHarmonicProgression` | src/predicates.ts:87-105 | Fails exactly for fewer than two terms. Its result depends only on the sorted reciprocals `r`. It returns `Matched(r[1]-r[0])` exactly when every difference `r[i]-r[i-1]` from index 2 on is strictly within `epsilon` of `r[1]-r[0]`. |
| `Predicates.ReciprocalsAppend` | src/predicates.ts:92-94 | Taking reciprocals term by term commutes with concatenation. |
| `Predicates.ReciprocalsRemoveAt` | src/predicates.ts:92-94 | Removing one term removes exactly its reciprocal. |
| `Predicates.ReciprocalsPermutation` | src/predicates.ts:91-94 | Permuting the input permutes its reciprocals. |
| `Predicates.HarmonicPermutationInvariant` | src/predicates.ts:91-96 | Two inputs with the same elements in any order classify identically. |
| `Predicates.HarmonicParameterNonNegative` | src/predicates.ts:96-97 | A harmonic match reports a parameter `>= 0`, because the reciprocals are sorted ascending. |
| `Predicates.HarmonicNonPositiveEpsilon` | src/predicates.ts:98-102 | The tolerance is strict. With `epsilon <= 0`, no input of three or more terms matches. |
| `Predicates.TwoTermsAlwaysMatch` | src/predicates.ts:33 | The scan starts at index 2, so every two-term input matches. The arithmetic parameter is `s[1]-s[0]` for any two terms. The geometric one is `s[1]/s[0]` whenever `s[0]` is non-zero. The harmonic one is the absolute difference of the two reciprocals whenever both terms are non-zero. |
| `RoundTrips.ArithmeticRoundTrip` | src/predicates.ts:29-40 | For two or more terms, the generated arithmetic progression is recognised as `Matched(step)`. |
| `RoundTrips.ArithmeticTermAt` | src/predicates.ts:33-37 | If every difference equals the first one, then term `i` is `s[0] + (s[1]-s[0])*i`. |
| `RoundTrips.ArithmeticMatchIsGenerated` | src/predicates.ts:29-40 | A sequence recognised as `Matched(d)` is exactly the arithmetic progression generated from `s[0]` and `d`. |
| `RoundTrips.GeometricRoundTrip` | src/predicates.ts:60-71 | For non-zero start and scale and two or more terms, the generated geometric progression is recognised as `Matched(scale)`. |
| `RoundTrips.GeometricTermAt` | src/predicates.ts:64-68 | If every ratio passes the scan, then term `i` is `s[0] * (s[1]/s[0])^i`. |
| `RoundTrips.GeometricMatchIsGenerated` | src/predicates.ts:60-71 | A sequence recognised as `Matched(q)` equals `GeometricSequence(s[0], |s|, q)`, and with three or more terms `q` is non-zero, so the generator returns that sequence. A two-term `[x, 0]` is recognised with ratio 0, which the generator rejects. |
| `RoundTrips.HarmonicReciprocalsAreArithmetic` | src/generators.ts:87-90 | The reciprocals of a generated harmonic progression are the arithmetic progression with the same start and step. |
| `RoundTrips.IncreasingArithmeticSorted` | src/predicates.ts:96 | An arithmetic progression with a positive step is already sorted ascending. |
| `RoundTrips.ReversalPermutation` | src/predicates.ts:96 | A sequence and its reversal have the same elements. For a negative step, this is how the sort reverses the reciprocals. |
| `RoundTrips.HarmonicSortedReciprocals` | src/predicates.ts:91-96 | Sorted, the reciprocals of a generated harmonic progression step by `|scale|`. They start at `start` when the scale is positive, and at the last reciprocal when it is negative. |
| `RoundTrips.HarmonicRoundTrip` | src/predicates.ts:87-105 | For two or more terms, a non-zero scale and `epsilon > 0`, the generated harmonic progression is recognised as `Matched(|scale|)`. |
| `Totals.InclusiveRangeExtend` | src/totals.ts:28 | Raising the upper bound by one appends that bound to the range. |
| `Totals.GetSumFromBounds` | src/totals.ts:19-33 | Fails exactly when `lower > upper`. Equal bounds give `EmptySum` (0), not `lambda(lower)`. Otherwise the loop visits `lower, lower+1, …, upper`, and its result equals the array fold over those values, both bounds included. |
| `Totals.GetSumFromArray` | src/totals.ts:47-52 | A left fold of `sum + lambda(n)` starting from `EmptySum`, so the last element is added last. No summands give `EmptySum`, and one summand gives its mapped value. `SumFromArrayConcat` is its partner law. |
| `Totals.SumFromArrayAppendOne` | src/totals.ts:51 | One more summand adds its mapped value to the fold: the `sum + lambda(n)` step. |
| `Totals.SumFromArrayConcat` | src/totals.ts:47-52 | The fold over two arrays laid end to end is the sum of the two folds. |
| `Totals.SumFromArrayScale` | src/totals.ts:47-52 | A mapping equal to `c * lambda(n)` at every point multiplies the sum by `c`. `DocumentedCases.SumCases` uses it to get the `2n` sum 30 from the plain sum 15. |
| `Totals.SumOfFirstIntegers` | src/totals.ts:47-52 | With the identity mapping, twice the fold over `1..n` is `n(n+1)`, so `1..5` gives 15 (used by `DocumentedCases.SumCases`). |
| `Totals.GetProductFromBounds` | src/totals.ts:69-82 | Fails exactly when `lower > upper`. Equal bounds give `EmptyProduct` (1). Otherwise the loop's result equals the array fold over `[lower, …, upper]`, both bounds included. |
| `Totals.GetProductFromArray` | src/totals.ts:96-101 | A left fold of `product * lambda(n)` starting from `EmptyProduct`, so the last element is multiplied last. No factors give `EmptyProduct`, and one factor gives its mapped value. `ProductFromArrayConcat` is its partner law. |
| `Totals.ProductFromArrayAppendOne` | src/totals.ts:100 | One more factor multiplies the fold by its mapped value: the `product * lambda(n)` step. |
| `Totals.ProductFromArrayConcat` | src/totals.ts:96-101 | The fold over two arrays laid end to end is the product of the two folds. |
| `Totals.ProductFromArrayScale` | src/totals.ts:96-101 | A mapping equal to `c * lambda(n)` at every point multiplies the product by `c` to the power of the number of factors. `DocumentedCases.ProductCases` uses it for the `2n` product. |
| `DocumentedCases.ArithmeticGeneratorCases` | tests/newArithmeticProgression.spec.ts:4-14 | Length 0 gives `[]`. `(5,5,0)` gives five 5s. `(1,10,2)` gives `1,3,…,19`. |
| `DocumentedCases.GeometricGeneratorCases` | tests/newGeoemtricProgression.spec.ts:4-18 | `(0,5,6)` and `(5,5,0)` are rejected. `(1,0,2)` gives `[]`. `(1,11,2)` gives the powers of two up to 1024. |
| `DocumentedCases.HarmonicGeneratorCases` | tests/newHarmonicProgression.spec.ts:4-18 | `(0,2,7)` and `(3,4,0)` are rejected. `(1,0,2)` gives `[]`. `(1,5,1)` gives `1, 1/2, …, 1/5`. |
| `DocumentedCases.ArithmeticCases` | tests/isArithmeticProgression.spec.ts:4-6 | `[]` fails. `[1,3,5,7,10]` is `NotMatched`. `[1,3,5,7,9]` is `Matched(2)`. |
| `DocumentedCases.GeometricCases` | tests/isGeometricProgression.spec.ts:4-6 | `[]` fails. `[1,3,9,27,81,243]` is `Matched(3)`. `[1,3,9,27,96]` is `NotMatched`. |
| `DocumentedCases.HarmonicEmptyCase` | tests/isHarmonicProgression.spec.ts:4 | `[]` fails. |
| `DocumentedCases.HarmonicMatchedCase` | tests/isHarmonicProgression.spec.ts:5 | `[1, 1/2, …, 1/6]` is `Matched(1)` with the default tolerance. |
| `DocumentedCases.UnitFractionReciprocals` | tests/isHarmonicProgression.spec.ts:6 | The reciprocals of `[1, 1/2, 1/3, 1/4, 1/7]` are `[1, 2, 3, 4, 7]`. |
| `DocumentedCases.HarmonicNotMatchedCase` | tests/isHarmonicProgression.spec.ts:6 | `[1, 1/2, 1/3, 1/4, 1/7]` is `NotMatched` with the default tolerance. |
| `DocumentedCases.SumCases` | tests/totals.spec.ts:4-14 | The array sum of `[1..5]` is 15, and 30 with `2n`. The empty array gives 0. The bounds `(1,5)` range over `[1..5]`. |
| `DocumentedCases.ProductCases` | tests/totals.spec.ts:38-48 | The array product of `[1..5]` is 120, and 3840 with `2n`. The empty array gives 1. |
| `DocumentedCases.BoundsCases` | tests/totals.spec.ts:17-58 | The bounds `(1,5)` give the sum 15 and, with `2n`, 30. They give the product 120 and, with `2n`, 3840. |

## Left out

- IEEE-754 doubles are not modelled. Arithmetic is exact over `real` and `int`. The `NaN` sentinel becomes `NotMatched`. There is no rounding, and `scale ** i` is the exact power `Pow`. The exact `!==` comparisons are exact equality.
- Infinity from division by zero is excluded by preconditions instead of modelled:
  - `IsGeometricProgression` requires `s[0] != 0` when it has two or more terms.
  - `IsHarmonicProgression` requires non-zero terms when it has two or more terms.
  - `NewHarmonicProgression` requires non-zero denominators `start + i*scale` when it does not fail.
- There is one exception in `isGeometricProgression`. A zero `s[1]` followed by a non-zero `s[2]` gives an infinite quotient, which never equals the first ratio. The model states that case directly as a mismatch.
- The purpose of the default tolerance `0.001` is not modelled: absorbing rounding error has no meaning over exact reals. The strict `<` comparison is modelled.
- The sort is modelled as an ascending insertion sort. The internals of `Array.prototype.sort`, and its comparator on `NaN` or infinite values, are not modelled.
- Some JavaScript numeric edge cases are not modelled: a negative or fractional `length`, fractional bounds stepped by `i++`, and mapping functions that return non-integers. `length` is a `nat`, bounds are `int`, and mappings are `int -> int`.
- Totals are unbounded integers. Loss of precision above 2^53 is not modelled.
- `src/index.ts` only re-exports. `src/types.ts` has only type aliases; its `ProgressionResult` shape is the `ProgressionResult` datatype.
- `src/consts.ts` is not part of this model. The identity values `EmptySum = 0` and `EmptyProduct = 1` follow the package's tests. The named ratio constants (music intervals, golden ratio) are plain literals with no behaviour.
- There is no converse for harmonic round trips. A sequence recognised as harmonic under a positive tolerance need not be exactly what `NewHarmonicProgression` generates.
- The test files are used only as the cases in `DocumentedCases`.

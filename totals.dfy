/**
 * Aggregators: sums and products over an inclusive integer range or over an
 * array, each element first passed through a caller-supplied mapping
 * (`lambda`, the identity when omitted).
 */
module Totals {
  import opened Types

  /** The sum of no summands. */
  const EmptySum: int := 0
  /** The product of no factors. */
  const EmptyProduct: int := 1

  function Identity(n: int): int
  {
    n
  }

  /** The integers `lower, lower + 1, ..., upper`; empty when `upper == lower - 1`. */
  function InclusiveRange(lower: int, upper: int): seq<int>
    requires lower <= upper + 1
  {
    seq(upper - lower + 1, k => lower + k)
  }

  lemma InclusiveRangeExtend(lower: int, upper: int)
    requires lower <= upper + 1
    ensures InclusiveRange(lower, upper + 1) == InclusiveRange(lower, upper) + [upper + 1]
  {
  }

  // ----------------------------------------------------------------------- sums

  /** `summands.reduce((sum, n) => sum + lambda(n), EmptySum)`: a left fold. */
  function GetSumFromArray(summands: seq<int>, lambda: int -> int := Identity): (sum: int)
    ensures summands == [] ==> sum == EmptySum
    ensures |summands| == 1 ==> sum == lambda(summands[0])
  {
    if summands == [] then EmptySum
    else GetSumFromArray(summands[..|summands| - 1], lambda) + lambda(summands[|summands| - 1])
  }

  lemma SumFromArrayAppendOne(summands: seq<int>, x: int, lambda: int -> int)
    ensures GetSumFromArray(summands + [x], lambda) == GetSumFromArray(summands, lambda) + lambda(x)
  {
    assert (summands + [x])[..|summands|] == summands;
  }

  /** The sum over two arrays laid end to end is the sum of the two sums. */
  lemma {:induction false} SumFromArrayConcat(a: seq<int>, b: seq<int>, lambda: int -> int)
    ensures GetSumFromArray(a + b, lambda) == GetSumFromArray(a, lambda) + GetSumFromArray(b, lambda)
  {
    if b == [] {
      assert a + b == a;
    } else {
      var n := |b| - 1;
      assert a + b == (a + b[..n]) + [b[n]];
      assert b == b[..n] + [b[n]];
      SumFromArrayConcat(a, b[..n], lambda);
      SumFromArrayAppendOne(a + b[..n], b[n], lambda);
      SumFromArrayAppendOne(b[..n], b[n], lambda);
    }
  }

  /** Scaling every mapped summand by `c` scales the sum by `c`. */
  lemma {:induction false} SumFromArrayScale(summands: seq<int>, c: int, lambda: int -> int, scaled: int -> int)
    requires forall n :: scaled(n) == c * lambda(n)
    ensures GetSumFromArray(summands, scaled) == c * GetSumFromArray(summands, lambda)
  {
    if summands != [] {
      SumFromArrayScale(summands[..|summands| - 1], c, lambda, scaled);
    }
  }

  /** With the identity mapping, twice the sum of `1..n` is `n(n+1)`. */
  lemma {:induction false} SumOfFirstIntegers(n: nat)
    ensures 2 * GetSumFromArray(InclusiveRange(1, n)) == n * (n + 1)
  {
    if n > 0 {
      SumOfFirstIntegers(n - 1);
      InclusiveRangeExtend(1, n - 1);
      SumFromArrayAppendOne(InclusiveRange(1, n - 1), n, Identity);
      assert (n - 1) * n + 2 * n == n * (n + 1);
    }
  }

  /**
   * Sums `lambda(i)` for `i` from `lowerBound` to `upperBound` inclusive,
   * except that equal bounds give the empty sum.
   */
  method GetSumFromBounds(lowerBound: int, upperBound: int, lambda: int -> int := Identity) returns (r: Result<int>)
    ensures r == RangeError <==> lowerBound > upperBound
    ensures lowerBound == upperBound ==> r == Ok(EmptySum)
    ensures lowerBound < upperBound ==> r == Ok(GetSumFromArray(InclusiveRange(lowerBound, upperBound), lambda))
  {
    if lowerBound > upperBound { return RangeError; }
    if lowerBound == upperBound { return Ok(EmptySum); }

    var sum := EmptySum;
    for i := lowerBound to upperBound + 1
      invariant sum == GetSumFromArray(InclusiveRange(lowerBound, i - 1), lambda)
    {
      InclusiveRangeExtend(lowerBound, i - 1);
      SumFromArrayAppendOne(InclusiveRange(lowerBound, i - 1), i, lambda);
      sum := sum + lambda(i);
    }
    return Ok(sum);
  }

  // ------------------------------------------------------------------- products

  /** `factors.reduce((product, n) => product * lambda(n), EmptyProduct)`: a left fold. */
  function GetProductFromArray(factors: seq<int>, lambda: int -> int := Identity): (product: int)
    ensures factors == [] ==> product == EmptyProduct
    ensures |factors| == 1 ==> product == lambda(factors[0])
  {
    if factors == [] then EmptyProduct
    else GetProductFromArray(factors[..|factors| - 1], lambda) * lambda(factors[|factors| - 1])
  }

  lemma ProductFromArrayAppendOne(factors: seq<int>, x: int, lambda: int -> int)
    ensures GetProductFromArray(factors + [x], lambda) == GetProductFromArray(factors, lambda) * lambda(x)
  {
    assert (factors + [x])[..|factors|] == factors;
  }

  /** The product over two arrays laid end to end is the product of the two products. */
  lemma {:induction false} ProductFromArrayConcat(a: seq<int>, b: seq<int>, lambda: int -> int)
    ensures GetProductFromArray(a + b, lambda) == GetProductFromArray(a, lambda) * GetProductFromArray(b, lambda)
  {
    if b == [] {
      assert a + b == a;
    } else {
      var n := |b| - 1;
      assert a + b == (a + b[..n]) + [b[n]];
      assert b == b[..n] + [b[n]];
      ProductFromArrayConcat(a, b[..n], lambda);
      ProductFromArrayAppendOne(a + b[..n], b[n], lambda);
      ProductFromArrayAppendOne(b[..n], b[n], lambda);
      var pa, pb, x := GetProductFromArray(a, lambda), GetProductFromArray(b[..n], lambda), lambda(b[n]);
      assert (pa * pb) * x == pa * (pb * x);
    }
  }

  /** `c` to the power `n` over integers, unfolded like the real power in `Generators`. */
  function IntPow(c: int, n: nat): int
  {
    if n == 0 then 1 else c * IntPow(c, n - 1)
  }

  /** Scaling every mapped factor by `c` scales the product by `c` to the number of factors. */
  lemma {:induction false} ProductFromArrayScale(factors: seq<int>, c: int, lambda: int -> int, scaled: int -> int)
    requires forall n :: scaled(n) == c * lambda(n)
    ensures GetProductFromArray(factors, scaled) == IntPow(c, |factors|) * GetProductFromArray(factors, lambda)
  {
    if factors != [] {
      var n := |factors| - 1;
      ProductFromArrayScale(factors[..n], c, lambda, scaled);
      var p, x := GetProductFromArray(factors[..n], lambda), lambda(factors[n]);
      assert (IntPow(c, n) * p) * (c * x) == (c * IntPow(c, n)) * (p * x);
    }
  }

  /**
   * Multiplies `lambda(i)` for `i` from `lowerBound` to `upperBound` inclusive,
   * except that equal bounds give the empty product.
   */
  method GetProductFromBounds(lowerBound: int, upperBound: int, lambda: int -> int := Identity) returns (r: Result<int>)
    ensures r == RangeError <==> lowerBound > upperBound
    ensures lowerBound == upperBound ==> r == Ok(EmptyProduct)
    ensures lowerBound < upperBound ==> r == Ok(GetProductFromArray(InclusiveRange(lowerBound, upperBound), lambda))
  {
    if lowerBound > upperBound { return RangeError; }
    if lowerBound == upperBound { return Ok(EmptyProduct); }

    var product := EmptyProduct;
    for i := lowerBound to upperBound + 1
      invariant product == GetProductFromArray(InclusiveRange(lowerBound, i - 1), lambda)
    {
      InclusiveRangeExtend(lowerBound, i - 1);
      ProductFromArrayAppendOne(InclusiveRange(lowerBound, i - 1), i, lambda);
      product := product * lambda(i);
    }
    return Ok(product);
  }
}

/**
 * Generators and predicates as inverses. For arithmetic and geometric
 * progressions this holds both ways: a generated progression is recognised
 * with the parameter it was generated from, and a recognised sequence is the
 * sequence of its first term and parameter. The arithmetic generator always
 * returns that sequence; the geometric one does whenever the ratio is
 * non-zero, which holds for three or more terms, while a two-term `[x, 0]` is
 * recognised with ratio 0, which the generator rejects. For harmonic progressions
 * it holds one way only: a generated progression is recognised with parameter
 * `|scale|`. A positive tolerance also accepts reciprocals that are only close
 * to evenly spaced, so no exact converse exists. Arithmetic here is exact.
 */
module RoundTrips {
  import opened Types
  import opened Sorting
  import opened Generators
  import opened Predicates

  // ---------------------------------------------------------------- arithmetic

  lemma {:induction false} ArithmeticRoundTrip(start: real, length: nat, step: real)
    requires length >= 2
    ensures ArithmeticClassification(ArithmeticSequence(start, length, step)) == Ok(Matched(step))
  {
    var s := ArithmeticSequence(start, length, step);
    ArithmeticConstantDifference(start, length, step, 1);
    forall i | 2 <= i < length
      ensures s[i] - s[i - 1] == s[1] - s[0]
    {
      ArithmeticConstantDifference(start, length, step, i);
    }
  }

  lemma {:induction false} ArithmeticTermAt(s: seq<real>, i: nat)
    requires |s| >= 2 && ConstantDifference(s)
    requires i < |s|
    ensures s[i] == s[0] + (s[1] - s[0]) * (i as real)
  {
    if i >= 2 {
      ArithmeticTermAt(s, i - 1);
      assert s[i] - s[i - 1] == s[1] - s[0];
    }
  }

  /** A sequence recognised with difference `d` is the progression generated from its first term and `d`. */
  lemma ArithmeticMatchIsGenerated(s: seq<real>, d: real)
    requires ArithmeticClassification(s) == Ok(Matched(d))
    ensures s == ArithmeticSequence(s[0], |s|, d)
  {
    var a := ArithmeticSequence(s[0], |s|, d);
    forall i | 0 <= i < |s|
      ensures s[i] == a[i]
    {
      ArithmeticTermAt(s, i);
    }
  }

  // ----------------------------------------------------------------- geometric

  lemma GeometricRoundTrip(start: real, length: nat, scale: real)
    requires start != 0.0 && scale != 0.0
    requires length >= 2
    ensures GeometricClassification(GeometricSequence(start, length, scale)) == Ok(Matched(scale))
  {
    var s := GeometricSequence(start, length, scale);
    GeometricConstantRatio(start, length, scale, 1);
    forall i | 2 <= i < length
      ensures !GeometricMismatchAt(s, i)
    {
      GeometricConstantRatio(start, length, scale, i);
    }
  }

  lemma {:induction false} GeometricTermAt(s: seq<real>, i: nat)
    requires |s| >= 2 && s[0] != 0.0 && ConstantRatio(s)
    requires i < |s|
    ensures s[i] == s[0] * Pow(s[1] / s[0], i)
  {
    var q := s[1] / s[0];
    if i == 1 {
      assert s[1] == s[0] * q;
    } else if i >= 2 {
      GeometricTermAt(s, i - 1);
      assert !GeometricMismatchAt(s, i);
      assert s[i] == s[i - 1] * q;
    }
  }

  /**
   * A sequence recognised with ratio `q` is the geometric sequence of its first
   * term and `q`. With three or more terms `q` is non-zero, so the generator
   * returns that sequence; a two-term `[x, 0]` is recognised with ratio 0,
   * which the generator rejects.
   */
  lemma GeometricMatchIsGenerated(s: seq<real>, q: real)
    requires |s| >= 2 ==> s[0] != 0.0
    requires GeometricClassification(s) == Ok(Matched(q))
    ensures s == GeometricSequence(s[0], |s|, q)
    ensures |s| >= 3 ==> q != 0.0
  {
    if |s| >= 3 {
      assert !GeometricMismatchAt(s, 2);
    }
    var g := GeometricSequence(s[0], |s|, q);
    forall i | 0 <= i < |s|
      ensures s[i] == g[i]
    {
      GeometricTermAt(s, i);
    }
  }

  // ------------------------------------------------------------------ harmonic

  /** The reciprocals of a harmonic progression are the arithmetic progression with the same start and step. */
  lemma HarmonicReciprocalsAreArithmetic(start: real, length: nat, scale: real)
    requires HarmonicDefined(start, length, scale)
    ensures NonZero(HarmonicSequence(start, length, scale))
    ensures Reciprocals(HarmonicSequence(start, length, scale)) == ArithmeticSequence(start, length, scale)
  {
    var s := HarmonicSequence(start, length, scale);
    forall i | 0 <= i < length
      ensures s[i] != 0.0
    {
      HarmonicReciprocal(start, length, scale, i);
    }
    var ap := ArithmeticSequence(start, length, scale);
    forall i | 0 <= i < length
      ensures Reciprocals(s)[i] == ap[i]
    {
      HarmonicReciprocal(start, length, scale, i);
    }
  }

  /** An increasing arithmetic progression is already sorted. */
  lemma IncreasingArithmeticSorted(start: real, length: nat, step: real)
    requires step > 0.0
    ensures Sorted(ArithmeticSequence(start, length, step))
  {
    var s := ArithmeticSequence(start, length, step);
    forall i, j | 0 <= i < j < length
      ensures s[i] <= s[j]
    {
      assert s[j] - s[i] == step * ((j - i) as real);
    }
  }

  /** Two sequences that are each other's reversal hold the same elements. */
  lemma {:induction false} ReversalPermutation(a: seq<real>, b: seq<real>)
    requires |a| == |b|
    requires forall k :: 0 <= k < |a| ==> a[k] == b[|b| - 1 - k]
    ensures multiset(a) == multiset(b)
  {
    if a != [] {
      var n := |a| - 1;
      assert a == [a[0]] + a[1..];
      assert b == b[..n] + [b[n]];
      ReversalPermutation(a[1..], b[..n]);
    }
  }

  /** Sorted ascending, the reciprocals of a harmonic progression step by `Abs(scale)`. */
  lemma HarmonicSortedReciprocals(start: real, length: nat, scale: real)
    requires HarmonicDefined(start, length, scale)
    requires scale != 0.0
    ensures NonZero(HarmonicSequence(start, length, scale))
    ensures SortedPermutation(Reciprocals(HarmonicSequence(start, length, scale)))
      == ArithmeticSequence(if scale > 0.0 then start else start + scale * ((length - 1) as real), length, Abs(scale))
  {
    HarmonicReciprocalsAreArithmetic(start, length, scale);
    var ap := ArithmeticSequence(start, length, scale);
    if scale > 0.0 {
      IncreasingArithmeticSorted(start, length, scale);
      SortedPermutationOfSorted(ap);
    } else {
      var last := start + scale * ((length - 1) as real);
      var sorted := ArithmeticSequence(last, length, -scale);
      IncreasingArithmeticSorted(last, length, -scale);
      ReversalPermutation(sorted, ap);
      SortedUnique(SortedPermutation(ap), sorted);
    }
  }

  /** A generated harmonic progression is recognised with the step of its reciprocals, whichever its sign. */
  lemma HarmonicRoundTrip(start: real, length: nat, scale: real, epsilon: real)
    requires HarmonicDefined(start, length, scale)
    requires length >= 2 && scale != 0.0 && epsilon > 0.0
    ensures NonZero(HarmonicSequence(start, length, scale))
    ensures HarmonicClassification(HarmonicSequence(start, length, scale), epsilon) == Ok(Matched(Abs(scale)))
  {
    HarmonicSortedReciprocals(start, length, scale);
    var sorted := SortedPermutation(Reciprocals(HarmonicSequence(start, length, scale)));
    ArithmeticConstantDifference(sorted[0], length, Abs(scale), 1);
    forall i | 2 <= i < length
      ensures IsApproxEqual(sorted[i] - sorted[i - 1], sorted[1] - sorted[0], epsilon)
    {
      ArithmeticConstantDifference(sorted[0], length, Abs(scale), i);
    }
  }
}

/**
 * Progression predicates: each classifies a sequence of at least two numbers,
 * computing a candidate parameter from the first two terms and scanning the
 * rest from index 2, stopping at the first mismatch.
 */
module Predicates {
  import opened Types
  import opened Sorting

  /** The tolerance `isHarmonicProgression` uses when its caller gives none. */
  const DefaultEpsilon: real := 0.001

  function Abs(x: real): real
  {
    if x < 0.0 then -x else x
  }

  /** `a` lies strictly within `epsilon` of `b`. */
  function IsApproxEqual(a: real, b: real, epsilon: real := DefaultEpsilon): (r: bool)
    ensures r <==> b - epsilon < a < b + epsilon
    ensures epsilon <= 0.0 ==> !r
  {
    Abs(a - b) < epsilon
  }

  // ---------------------------------------------------------------- arithmetic

  /** Every difference from index 2 on equals the first one. */
  ghost predicate ConstantDifference(s: seq<real>)
    requires |s| >= 2
  {
    forall i :: 2 <= i < |s| ==> s[i] - s[i - 1] == s[1] - s[0]
  }

  /** What `isArithmeticProgression` returns for `s`. */
  ghost function ArithmeticClassification(s: seq<real>): Result<ProgressionResult>
  {
    if |s| < 2 then RangeError
    else if ConstantDifference(s) then Ok(Matched(s[1] - s[0]))
    else Ok(NotMatched)
  }

  method IsArithmeticProgression(sequence: seq<real>) returns (r: Result<ProgressionResult>)
    ensures r == ArithmeticClassification(sequence)
    ensures r == RangeError <==> |sequence| < 2
    ensures |sequence| == 2 ==> r == Ok(Matched(sequence[1] - sequence[0]))
  {
    if |sequence| < 2 { return RangeError; }

    var consecutiveDiff := sequence[1] - sequence[0];
    for i := 2 to |sequence|
      invariant forall k :: 2 <= k < i ==> sequence[k] - sequence[k - 1] == consecutiveDiff
    {
      if sequence[i] - sequence[i - 1] != consecutiveDiff {
        return Ok(NotMatched);
      }
    }
    return Ok(Matched(consecutiveDiff));
  }

  // ----------------------------------------------------------------- geometric

  /**
   * The scan at index `i` rejects: a zero term, or a ratio that differs from
   * `s[1] / s[0]`. A zero `s[i - 1]` can only be `s[1]` (later terms were
   * already checked); the library then divides by zero and gets an infinite
   * ratio, which never equals the finite first ratio.
   */
  ghost predicate GeometricMismatchAt(s: seq<real>, i: int)
    requires 2 <= i < |s| && s[0] != 0.0
  {
    s[i] == 0.0 || s[i - 1] == 0.0 || s[i] / s[i - 1] != s[1] / s[0]
  }

  ghost predicate ConstantRatio(s: seq<real>)
    requires |s| >= 2 && s[0] != 0.0
  {
    forall i :: 2 <= i < |s| ==> !GeometricMismatchAt(s, i)
  }

  /** What `isGeometricProgression` returns for `s`. */
  ghost function GeometricClassification(s: seq<real>): Result<ProgressionResult>
    requires |s| >= 2 ==> s[0] != 0.0
  {
    if |s| < 2 then RangeError
    else if ConstantRatio(s) then Ok(Matched(s[1] / s[0]))
    else Ok(NotMatched)
  }

  method IsGeometricProgression(sequence: seq<real>) returns (r: Result<ProgressionResult>)
    requires |sequence| >= 2 ==> sequence[0] != 0.0
    ensures r == GeometricClassification(sequence)
    ensures r == RangeError <==> |sequence| < 2
    ensures (exists i :: 2 <= i < |sequence| && sequence[i] == 0.0) ==> r == Ok(NotMatched)
    ensures |sequence| == 2 ==> r == Ok(Matched(sequence[1] / sequence[0]))
  {
    if |sequence| < 2 { return RangeError; }

    var consecutiveQuotient := sequence[1] / sequence[0];
    for i := 2 to |sequence|
      invariant forall k :: 2 <= k < i ==> !GeometricMismatchAt(sequence, k)
    {
      if sequence[i] == 0.0 || sequence[i - 1] == 0.0 || sequence[i] / sequence[i - 1] != consecutiveQuotient {
        assert GeometricMismatchAt(sequence, i);
        return Ok(NotMatched);
      }
    }
    forall i | 2 <= i < |sequence|
      ensures sequence[i] != 0.0
    {
      assert !GeometricMismatchAt(sequence, i);
    }
    return Ok(Matched(consecutiveQuotient));
  }

  // ------------------------------------------------------------------ harmonic

  /** No term is zero, so every reciprocal is finite. */
  ghost predicate NonZero(s: seq<real>)
  {
    0.0 !in s
  }

  function Reciprocals(s: seq<real>): seq<real>
    requires NonZero(s)
  {
    seq(|s|, i requires 0 <= i < |s| => 1.0 / s[i])
  }

  /** Every difference from index 2 on lies within `epsilon` of the first one. */
  ghost predicate ApproxConstantDifference(r: seq<real>, epsilon: real)
    requires |r| >= 2
  {
    forall i :: 2 <= i < |r| ==> IsApproxEqual(r[i] - r[i - 1], r[1] - r[0], epsilon)
  }

  /** What `isHarmonicProgression` returns for `s`: it looks only at the reciprocals, sorted ascending. */
  ghost function HarmonicClassification(s: seq<real>, epsilon: real): Result<ProgressionResult>
    requires |s| >= 2 ==> NonZero(s)
  {
    if |s| < 2 then RangeError
    else
      var r := SortedPermutation(Reciprocals(s));
      if ApproxConstantDifference(r, epsilon) then Ok(Matched(r[1] - r[0]))
      else Ok(NotMatched)
  }

  method IsHarmonicProgression(sequence: seq<real>, epsilon: real := DefaultEpsilon) returns (r: Result<ProgressionResult>)
    requires |sequence| >= 2 ==> NonZero(sequence)
    ensures r == HarmonicClassification(sequence, epsilon)
    ensures r == RangeError <==> |sequence| < 2
  {
    var length := |sequence|;
    if length < 2 { return RangeError; }

    var reciprocals := new real[length];
    for i := 0 to length
      invariant forall k :: 0 <= k < i ==> reciprocals[k] == 1.0 / sequence[k]
    {
      reciprocals[i] := 1.0 / sequence[i];
    }
    assert reciprocals[..] == Reciprocals(sequence);

    SortInPlace(reciprocals);
    ghost var sorted := SortedPermutation(Reciprocals(sequence));
    SortedUnique(reciprocals[..], sorted);
    assert forall k :: 0 <= k < length ==> reciprocals[k] == sorted[k];

    var consecutiveDiff := reciprocals[1] - reciprocals[0];
    for i := 2 to length
      invariant forall k :: 2 <= k < i ==> IsApproxEqual(sorted[k] - sorted[k - 1], sorted[1] - sorted[0], epsilon)
    {
      if !IsApproxEqual(reciprocals[i] - reciprocals[i - 1], consecutiveDiff, epsilon) {
        return Ok(NotMatched);
      }
    }
    return Ok(Matched(consecutiveDiff));
  }

  lemma ReciprocalsAppend(a: seq<real>, b: seq<real>)
    requires NonZero(a) && NonZero(b)
    ensures NonZero(a + b)
    ensures Reciprocals(a + b) == Reciprocals(a) + Reciprocals(b)
  {
  }

  /** Taking out the term at `k` takes out its reciprocal. */
  lemma ReciprocalsRemoveAt(t: seq<real>, k: int)
    requires NonZero(t) && 0 <= k < |t|
    ensures NonZero(t[..k] + t[k + 1..])
    ensures multiset(Reciprocals(t)) == multiset(Reciprocals(t[..k] + t[k + 1..])) + multiset{1.0 / t[k]}
  {
    var before, after := t[..k], t[k + 1..];
    assert t == before + [t[k]] + after;
    ReciprocalsAppend(before, [t[k]]);
    ReciprocalsAppend(before + [t[k]], after);
    ReciprocalsAppend(before, after);
    assert Reciprocals(t) == Reciprocals(before) + [1.0 / t[k]] + Reciprocals(after);
  }

  /** Permuting the terms permutes their reciprocals. */
  lemma {:induction false} ReciprocalsPermutation(s: seq<real>, t: seq<real>)
    requires NonZero(s) && NonZero(t)
    requires multiset(s) == multiset(t)
    ensures multiset(Reciprocals(s)) == multiset(Reciprocals(t))
  {
    if s == [] {
      assert |t| == |multiset(t)| == 0;
    } else {
      var n := |s| - 1;
      assert s[n] in multiset(t);
      var k :| 0 <= k < |t| && t[k] == s[n];
      ReciprocalsRemoveAt(s, n);
      ReciprocalsRemoveAt(t, k);
      assert s[..n] + s[n + 1..] == s[..n];
      assert t == t[..k] + [t[k]] + t[k + 1..];
      assert s == s[..n] + [s[n]];
      assert multiset(s[..n]) == multiset(s) - multiset{s[n]};
      assert multiset(t[..k] + t[k + 1..]) == multiset(t) - multiset{t[k]};
      ReciprocalsPermutation(s[..n], t[..k] + t[k + 1..]);
    }
  }

  /** The harmonic classification ignores the order of the terms. */
  lemma HarmonicPermutationInvariant(s: seq<real>, t: seq<real>, epsilon: real)
    requires NonZero(s) && NonZero(t)
    requires multiset(s) == multiset(t)
    ensures HarmonicClassification(s, epsilon) == HarmonicClassification(t, epsilon)
  {
    assert |s| == |multiset(s)| == |multiset(t)| == |t|;
    ReciprocalsPermutation(s, t);
    SortedUnique(SortedPermutation(Reciprocals(s)), SortedPermutation(Reciprocals(t)));
  }

  /** The common difference found for a harmonic progression is never negative. */
  lemma HarmonicParameterNonNegative(s: seq<real>, epsilon: real)
    requires |s| >= 2 && NonZero(s)
    requires HarmonicClassification(s, epsilon).Ok?
    requires HarmonicClassification(s, epsilon).value.Matched?
    ensures HarmonicClassification(s, epsilon).value.parameter >= 0.0
  {
  }

  /** The tolerance is strict: with `epsilon <= 0` no sequence of three or more terms matches. */
  lemma HarmonicNonPositiveEpsilon(s: seq<real>, epsilon: real)
    requires |s| >= 3 && NonZero(s)
    requires epsilon <= 0.0
    ensures HarmonicClassification(s, epsilon) == Ok(NotMatched)
  {
    var r := SortedPermutation(Reciprocals(s));
    assert !IsApproxEqual(r[2] - r[1], r[1] - r[0], epsilon);
  }

  /** Two terms always match, with the parameter taken from those two terms. */
  lemma TwoTermsAlwaysMatch(s: seq<real>, epsilon: real)
    requires |s| == 2
    ensures ArithmeticClassification(s) == Ok(Matched(s[1] - s[0]))
    ensures s[0] != 0.0 ==> GeometricClassification(s) == Ok(Matched(s[1] / s[0]))
    ensures NonZero(s) ==> HarmonicClassification(s, epsilon).Ok?
    ensures NonZero(s) ==>
      HarmonicClassification(s, epsilon).value == Matched(Abs(1.0 / s[1] - 1.0 / s[0]))
  {
    if NonZero(s) {
      var r := Reciprocals(s);
      if r[0] <= r[1] {
        SortedPermutationOfSorted(r);
      } else {
        SortedPermutationOfSorted([r[1], r[0]]);
        assert r == [r[0], r[1]];
        assert multiset([r[1], r[0]]) == multiset(r);
        SortedUnique(SortedPermutation(r), [r[1], r[0]]);
      }
    }
  }
}

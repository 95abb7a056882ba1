/**
 * Progression generators: each builds `length` terms from a rule,
 * growing a list one term at a time.
 */
module Generators {
  import opened Types

  /** `x` to the power `n`, the value of `x ** n` for a natural exponent. */
  function Pow(x: real, n: nat): real
  {
    if n == 0 then 1.0 else x * Pow(x, n - 1)
  }

  lemma {:induction false} PowNonZero(x: real, n: nat)
    requires x != 0.0
    ensures Pow(x, n) != 0.0
  {
    if n > 0 {
      PowNonZero(x, n - 1);
    }
  }

  /** The arithmetic progression `start, start + step, start + 2*step, ...` of `length` terms. */
  function ArithmeticSequence(start: real, length: nat, step: real): seq<real>
  {
    seq(length, i => start + step * (i as real))
  }

  /** The geometric progression `start, start*scale, start*scale^2, ...` of `length` terms. */
  function GeometricSequence(start: real, length: nat, scale: real): seq<real>
  {
    seq(length, i requires 0 <= i => start * Pow(scale, i))
  }

  /**
   * No term of the harmonic progression divides by zero. Only needed when
   * the generator does not reject its arguments first.
   */
  ghost predicate HarmonicDefined(start: real, length: nat, scale: real)
  {
    forall i :: 0 <= i < length ==> HarmonicDenominator(start, i, scale) != 0.0
  }

  /** The reciprocal of the harmonic term at index `i`. */
  function HarmonicDenominator(start: real, i: int, scale: real): real
  {
    start + (i as real) * scale
  }

  /** The harmonic progression `1/start, 1/(start + scale), 1/(start + 2*scale), ...`. */
  function HarmonicSequence(start: real, length: nat, scale: real): seq<real>
    requires HarmonicDefined(start, length, scale)
  {
    seq(length, i requires 0 <= i < length => 1.0 / HarmonicDenominator(start, i, scale))
  }

  /** The generators reject a zero start or scale, but only for a non-empty request. */
  predicate RejectsDegenerate(start: real, length: nat, scale: real)
  {
    length > 0 && (start == 0.0 || scale == 0.0)
  }

  method NewArithmeticProgression(startNumber: real, length: nat, step: real) returns (progression: seq<real>)
    ensures |progression| == length
    ensures forall i :: 0 <= i < length ==> progression[i] == startNumber + step * (i as real)
    ensures progression == ArithmeticSequence(startNumber, length, step)
  {
    if length == 0 { return []; }
    if step == 0.0 { return seq(length, _ => startNumber); }

    progression := [];
    var i := 0;
    while i < length
      invariant 0 <= i <= length
      invariant progression == ArithmeticSequence(startNumber, i, step)
    {
      progression := progression + [startNumber + step * (i as real)];
      i := i + 1;
    }
  }

  method NewGeometricProgression(startNumber: real, length: nat, scale: real) returns (r: Result<seq<real>>)
    ensures r.RangeError? <==> RejectsDegenerate(startNumber, length, scale)
    ensures r.Ok? ==> |r.value| == length
    ensures r.Ok? ==> forall i :: 0 <= i < length ==> r.value[i] == startNumber * Pow(scale, i)
    ensures r.Ok? ==> r.value == GeometricSequence(startNumber, length, scale)
  {
    if length == 0 { return Ok([]); }
    if startNumber == 0.0 || scale == 0.0 { return RangeError; }

    var progression: seq<real> := [];
    var i := 0;
    while i < length
      invariant 0 <= i <= length
      invariant progression == GeometricSequence(startNumber, i, scale)
    {
      ghost var next := GeometricSequence(startNumber, i + 1, scale);
      assert next[i] == startNumber * Pow(scale, i);
      assert next[..i] == GeometricSequence(startNumber, i, scale);
      progression := progression + [startNumber * Pow(scale, i)];
      i := i + 1;
    }
    return Ok(progression);
  }

  method NewHarmonicProgression(startNumber: real, length: nat, scale: real) returns (r: Result<seq<real>>)
    requires !RejectsDegenerate(startNumber, length, scale) ==> HarmonicDefined(startNumber, length, scale)
    ensures r.RangeError? <==> RejectsDegenerate(startNumber, length, scale)
    ensures r.Ok? ==> |r.value| == length
    ensures r.Ok? ==> forall i :: 0 <= i < length ==> r.value[i] == 1.0 / HarmonicDenominator(startNumber, i, scale)
    ensures r.Ok? ==> r.value == HarmonicSequence(startNumber, length, scale)
  {
    if length == 0 { return Ok([]); }
    if startNumber == 0.0 || scale == 0.0 { return RangeError; }

    var progression: seq<real> := [];
    var i := 0;
    while i < length
      invariant 0 <= i <= length
      invariant progression == HarmonicSequence(startNumber, i, scale)
    {
      progression := progression + [1.0 / HarmonicDenominator(startNumber, i, scale)];
      i := i + 1;
    }
    return Ok(progression);
  }

  /** Consecutive terms of an arithmetic progression differ by `step`. */
  lemma ArithmeticConstantDifference(start: real, length: nat, step: real, i: nat)
    requires 0 < i < length
    ensures var s := ArithmeticSequence(start, length, step); s[i] - s[i - 1] == step
  {
  }

  /** Each term of a geometric progression with non-zero start and scale is the previous one times `scale`, and none is zero. */
  lemma GeometricConstantRatio(start: real, length: nat, scale: real, i: nat)
    requires start != 0.0 && scale != 0.0
    requires 0 < i < length
    ensures var s := GeometricSequence(start, length, scale);
      s[i - 1] != 0.0 && s[i] != 0.0 && s[i] == s[i - 1] * scale && s[i] / s[i - 1] == scale
  {
    var s := GeometricSequence(start, length, scale);
    PowNonZero(scale, i - 1);
    PowNonZero(scale, i);
    assert s[i] == start * (scale * Pow(scale, i - 1));
    assert s[i] == s[i - 1] * scale;
  }

  /** The reciprocal of term `i` of a harmonic progression is `start + i*scale`. */
  lemma HarmonicReciprocal(start: real, length: nat, scale: real, i: nat)
    requires HarmonicDefined(start, length, scale)
    requires i < length
    ensures var s := HarmonicSequence(start, length, scale); s[i] != 0.0 && 1.0 / s[i] == start + (i as real) * scale
  {
    var d := HarmonicDenominator(start, i, scale);
    assert d != 0.0;
    var s := HarmonicSequence(start, length, scale);
    assert s[i] == 1.0 / d;
    assert s[i] * d == 1.0;
  }
}

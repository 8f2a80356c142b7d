/**
 * The integer helpers and the term loop of the Taylor-series sine approximation of
 * hw1/sineApprox402.cpp. C++ `double` values are exact reals here, C++ `int` values are
 * int32, and a reference out-parameter that is written only on success is an input
 * (its value before the call) together with an output (its value after the call).
 */
module SineApprox {
  import opened MachineInt

  const MinNumTerm: int32 := 1
  const MaxNumTerm: int32 := 5
  const MinValFctrl: int32 := 0
  const MaxValFctrl: int32 := 12

  /** base multiplied by itself exponent times, starting from 1. */
  function Power(base: real, exponent: nat): (r: real)
    decreases exponent
  {
    if exponent == 0 then 1.0 else Power(base, exponent - 1) * base
  }

  /** n!, with 0! = 1; it is positive and at least n. */
  function Factorial(n: nat): (r: nat)
    ensures 1 <= r && n <= r
    ensures n == 0 ==> r == 1
    decreases n
  {
    if n == 0 then 1 else n * Factorial(n - 1)
  }

  /** The factorial never decreases. */
  lemma {:induction false} FactorialMonotone(m: nat, n: nat)
    requires m <= n
    ensures Factorial(m) <= Factorial(n)
    decreases n - m
  {
    if m < n {
      FactorialMonotone(m, n - 1);
      ScaledUp(n, Factorial(n - 1));
    }
  }

  /** Multiplying by a positive whole number never makes a natural number smaller. */
  lemma {:induction false} ScaledUp(k: nat, f: nat)
    requires 1 <= k
    ensures f <= k * f
    decreases k
  {
    if k > 1 {
      ScaledUp(k - 1, f);
      assert k * f == (k - 1) * f + f;
    }
  }

  /**
   * Every factorial computeFactorial accepts fits a 32-bit signed int, and 12 is the
   * largest argument for which that holds.
   */
  lemma FactorialFitsInt32(n: nat)
    requires n <= MaxValFctrl as int
    ensures Factorial(n) <= Factorial(12) == 479001600 <= Int32Max
    ensures Factorial(MaxValFctrl as int + 1) > Int32Max
  {
    FactorialMonotone(n, 12);
    assert Factorial(13) == 13 * Factorial(12);
  }

  /** Powers of a base multiply by adding exponents. */
  lemma {:induction false} PowerAdd(base: real, m: nat, n: nat)
    ensures Power(base, m + n) == Power(base, m) * Power(base, n)
    decreases n
  {
    if n > 0 {
      PowerAdd(base, m, n - 1);
      assert Power(base, m + n) == Power(base, m + n - 1) * base;
    }
  }

  /** The sign factor of the series: (-1)^i is 1 for even i and -1 for odd i. */
  lemma {:induction false} SignAlternates(i: nat)
    ensures Power(-1.0, i) == if i % 2 == 0 then 1.0 else -1.0
    decreases i
  {
    if i > 0 {
      SignAlternates(i - 1);
    }
  }

  /** A positive power of zero is zero. */
  lemma {:induction false} PowerOfZero(exponent: nat)
    requires exponent >= 1
    ensures Power(0.0, exponent) == 0.0
  {
    assert Power(0.0, exponent) == Power(0.0, exponent - 1) * 0.0;
  }

  /** A series term from its sign factor, its angle power and its factorial. */
  function TermValue(sign: real, anglePower: real, fctrl: nat): (r: real)
    requires fctrl >= 1
  {
    sign * anglePower / fctrl as real
  }

  /** Term i of the series: sign exponent i, angle exponent and factorial argument 2i+1. */
  function SineTerm(x: real, i: nat): (r: real) {
    TermValue(Power(-1.0, i), Power(x, 2 * i + 1), Factorial(2 * i + 1))
  }

  /** The sum of the first n terms, added in order from term 0. */
  function SineSeries(x: real, n: nat): (r: real)
    decreases n
  {
    if n == 0 then 0.0 else SineSeries(x, n - 1) + SineTerm(x, n - 1)
  }

  lemma ZeroNumerator(sign: real, f: nat)
    requires f >= 1
    ensures TermValue(sign, 0.0, f) == 0.0
  {
  }

  /** Every partial sum vanishes at angle zero. */
  lemma {:induction false} SineSeriesAtZero(n: nat)
    ensures SineSeries(0.0, n) == 0.0
    decreases n
  {
    if n > 0 {
      SineSeriesAtZero(n - 1);
      var e := 2 * (n - 1) + 1;
      PowerOfZero(e);
      ZeroNumerator(Power(-1.0, n - 1), Factorial(e));
    }
  }

  /** The first term is the angle itself: one term approximates sin x by x. */
  lemma OneTermIsTheAngle(x: real)
    ensures SineSeries(x, 1) == x
  {
    assert Power(-1.0, 0) == 1.0;
    assert Power(x, 1) == Power(x, 0) * x == x;
    assert Factorial(1) == 1;
  }

  /**
   * toThePower: refuses a negative exponent and leaves the output as it was; otherwise
   * the output becomes base^exponent, built by exactly exponent multiplications.
   */
  method ToThePower(baseVal: real, exponentVal: int32, outResult: real)
    returns (doSuccess: bool, result: real, ghost multiplications: nat)
    ensures doSuccess <==> exponentVal >= 0
    ensures doSuccess ==> result == Power(baseVal, exponentVal as nat)
    ensures doSuccess ==> multiplications == exponentVal as nat
    ensures !doSuccess ==> result == outResult
  {
    var minVal: int32 := 0;
    doSuccess := true;
    result := outResult;
    multiplications := 0;
    if exponentVal < minVal {
      doSuccess := false;
    } else if exponentVal == minVal {
      result := 1.0;
    } else {
      result := 1.0;
      var i: int32 := 0;
      while i < exponentVal
        invariant 0 <= i <= exponentVal
        invariant result == Power(baseVal, i as nat)
        invariant multiplications == i as nat
      {
        result := result * baseVal;
        multiplications := multiplications + 1;
        i := i + 1;
      }
    }
  }

  /**
   * computeFactorial: refuses an argument outside [0, 12] and leaves the output as it
   * was; otherwise the output becomes inVal!, every partial product fitting an int32.
   */
  method ComputeFactorial(inVal: int32, outFactorial: int32) returns (doSuccess: bool, result: int32)
    ensures doSuccess <==> MinValFctrl <= inVal <= MaxValFctrl
    ensures doSuccess ==> result as int == Factorial(inVal as nat)
    ensures !doSuccess ==> result == outFactorial
  {
    doSuccess := true;
    result := outFactorial;
    if inVal < MinValFctrl || inVal > MaxValFctrl {
      doSuccess := false;
    } else {
      result := 1;
      var i: int32 := 1;
      while i <= inVal
        invariant 1 <= i <= inVal + 1
        invariant result as int == Factorial(i as nat - 1)
      {
        FactorialFitsInt32(i as nat);
        result := result * i;
        i := i + 1;
      }
    }
  }

  /**
   * The term-count check and term loop of approximateSine, for an angle already brought
   * into [-pi, pi]: refuses a term count outside [1, 5] and leaves the output as it was;
   * otherwise every helper call succeeds and the output becomes the sum of the first
   * numTerms terms.
   */
  method ApproximateSine(angleStdRad: real, numTerms: int32, outSineVal: real)
    returns (doSuccess: bool, sineVal: real)
    ensures doSuccess <==> MinNumTerm <= numTerms <= MaxNumTerm
    ensures doSuccess ==> sineVal == SineSeries(angleStdRad, numTerms as nat)
    ensures !doSuccess ==> sineVal == outSineVal
  {
    doSuccess := true;
    var sumTermVal := 0.0;
    var negBaseVal := -1.0;
    if numTerms < MinNumTerm || numTerms > MaxNumTerm {
      doSuccess := false;
    } else {
      var coefNegPow, coefAnglePow: real := 0.0, 0.0;
      var coefFctrl: int32 := 0;
      var i: int32 := 0;
      while i < numTerms
        invariant 0 <= i <= numTerms
        invariant doSuccess
        invariant sumTermVal == SineSeries(angleStdRad, i as nat)
      {
        var negExpVal := i;
        var angleExpVal := 2 * i + 1;
        var inValFctrl := 2 * i + 1;
        var doNegPow, doAnglePow, doFctrl;
        ghost var negMultiplications, angleMultiplications;
        doNegPow, coefNegPow, negMultiplications := ToThePower(negBaseVal, negExpVal, coefNegPow);
        doAnglePow, coefAnglePow, angleMultiplications := ToThePower(angleStdRad, angleExpVal, coefAnglePow);
        doFctrl, coefFctrl := ComputeFactorial(inValFctrl, coefFctrl);
        if doNegPow && doAnglePow && doFctrl {
          sumTermVal := sumTermVal + TermValue(coefNegPow, coefAnglePow, coefFctrl as nat);
        } else {
          // The exponents are at least 0 and the factorial argument is at most 9.
          assert false;
          doSuccess := false;
          i := numTerms;
        }
        i := i + 1;
      }
    }
    sineVal := outSineVal;
    if doSuccess {
      sineVal := sumTermVal;
    }
  }
}

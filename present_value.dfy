/**
 * The discounting primitive both calculators inline: a generator sum of
 * `cf / (1 + r) ** t` over `enumerate(cash_flows, first)`. The two calculators
 * differ in `first` (1 for FMIP and for `calculate_npv`, 0 for the NPV inside
 * `calculate_lroma`); here that origin is an explicit argument. Arithmetic is
 * over exact reals.
 */
module PresentValue {
  import opened Results

  /** `x ** n` for an int exponent; as in Python, `0 ** 0 == 1`. */
  function Pow(x: real, n: nat): real
  {
    if n == 0 then 1.0 else x * Pow(x, n - 1)
  }

  /** A power is zero only for a zero base and a positive exponent. */
  lemma {:induction false} PowZero(x: real, n: nat)
    ensures Pow(x, n) == 0.0 <==> x == 0.0 && n >= 1
  {
    if n > 0 {
      PowZero(x, n - 1);
    }
  }

  lemma {:induction false} PowPositive(x: real, n: nat)
    requires x > 0.0
    ensures Pow(x, n) > 0.0
  {
    if n > 0 {
      PowPositive(x, n - 1);
    }
  }

  lemma {:induction false} PowOne(n: nat)
    ensures Pow(1.0, n) == 1.0
  {
    if n > 0 {
      PowOne(n - 1);
    }
  }

  /**
   * The sum over i of cfs[i] / growth^(first + i), where growth is 1 + rate.
   * The sum fails with a division by zero as soon as one term's divisor is 0,
   * which happens exactly when growth is 0 and some term sits at a period >= 1.
   */
  function Discounted(cfs: seq<real>, growth: real, first: nat): (r: Result<real>)
    ensures r.Err? ==> r.error == DivisionByZero
    ensures r.Err? <==> growth == 0.0 && cfs != [] && (first >= 1 || |cfs| >= 2)
    decreases |cfs|
  {
    if cfs == [] then Ok(0.0)
    else
      PowZero(growth, first);
      if Pow(growth, first) == 0.0 then Err(DivisionByZero)
      else match Discounted(cfs[1..], growth, first + 1)
        case Err(e) => Err(e)
        case Ok(rest) => Ok(cfs[0] / Pow(growth, first) + rest)
  }

  /** The undiscounted total of a cash-flow list. */
  function Sum(cfs: seq<real>): real
  {
    if cfs == [] then 0.0 else cfs[0] + Sum(cfs[1..])
  }

  /** Every element multiplied by k (`[x * k for x in cfs]`). */
  function Scale(cfs: seq<real>, k: real): (r: seq<real>)
    ensures |r| == |cfs|
    ensures forall i :: 0 <= i < |cfs| ==> r[i] == cfs[i] * k
  {
    if cfs == [] then [] else [cfs[0] * k] + Scale(cfs[1..], k)
  }

  /** `[c] * n` for a count n >= 0. */
  function Repeat(c: real, n: nat): (r: seq<real>)
    ensures |r| == n
    ensures forall i :: 0 <= i < n ==> r[i] == c
  {
    if n == 0 then [] else [c] + Repeat(c, n - 1)
  }

  /** Σ_{t=first}^{first+n-1} 1 / growth^t: the present value of one unit per period. */
  function Annuity(growth: real, first: nat, n: nat): real
    requires growth != 0.0
    decreases n
  {
    if n == 0 then 0.0
    else
      PowZero(growth, first);
      1.0 / Pow(growth, first) + Annuity(growth, first + 1, n - 1)
  }

  /** One step of the sum, for a nonzero growth factor. */
  lemma DiscountedUnfold(cfs: seq<real>, growth: real, first: nat)
    requires growth != 0.0 && cfs != []
    ensures Pow(growth, first) != 0.0
    ensures Discounted(cfs, growth, first).Ok?
    ensures Discounted(cfs, growth, first).value == cfs[0] / Pow(growth, first) + Discounted(cfs[1..], growth, first + 1).value
  {
    PowZero(growth, first);
  }

  /** A single flow at period 0 is its own present value, whatever the growth factor. */
  lemma DiscountedSingle(cfs: seq<real>, growth: real)
    ensures |cfs| == 1 ==> Discounted(cfs, growth, 0).Ok? && Discounted(cfs, growth, 0).value == cfs[0]
  {
    if |cfs| == 1 {
      assert cfs[1..] == [];
      assert Pow(growth, 0) == 1.0;
    }
  }

  /** One step of the sum whenever the first divisor is nonzero and the rest succeeds. */
  lemma DiscountedStep(cfs: seq<real>, growth: real, first: nat)
    requires cfs != [] && Pow(growth, first) != 0.0 && Discounted(cfs[1..], growth, first + 1).Ok?
    ensures Discounted(cfs, growth, first).Ok?
    ensures Discounted(cfs, growth, first).value == cfs[0] / Pow(growth, first) + Discounted(cfs[1..], growth, first + 1).value
  {
  }

  /** One step of the linearity argument, on values: a scaled head over a scaled tail. */
  lemma ScaleDivide(k: real, p: real, x: real, rest: real, whole: real, xk: real, restk: real, scaled: real)
    requires p != 0.0 && whole == x / p + rest
    requires xk == x * k
    requires restk == k * rest
    requires scaled == xk / p + restk
    ensures scaled == k * whole
  {
  }

  lemma AnnuityStep(c: real, p: real, whole: real, rest: real)
    requires p != 0.0 && whole == 1.0 / p + rest
    ensures c / p + c * rest == c * whole
  {
  }

  lemma DivideTwice(a: real, p: real, g: real)
    requires p != 0.0 && g != 0.0
    ensures a / (g * p) == (a / p) / g
  {
  }

  lemma DivideSum(a: real, b: real, g: real)
    requires g != 0.0
    ensures a / g + b / g == (a + b) / g
  {
  }

  /** At a zero rate (growth 1) discounting changes nothing, whatever the origin. */
  lemma {:induction false} DiscountedAtZeroRate(cfs: seq<real>, first: nat)
    ensures Discounted(cfs, 1.0, first) == Ok(Sum(cfs))
  {
    if cfs != [] {
      PowOne(first);
      DiscountedAtZeroRate(cfs[1..], first + 1);
    }
  }

  /** Scaling a non-empty list scales its head and leaves a scaled tail. */
  lemma ScaleCons(cfs: seq<real>, k: real)
    requires cfs != []
    ensures Scale(cfs, k)[0] == cfs[0] * k
    ensures Scale(cfs, k)[1..] == Scale(cfs[1..], k)
  {
    var tail := Scale(cfs[1..], k);
    assert Scale(cfs, k) == [cfs[0] * k] + tail;
    assert ([cfs[0] * k] + tail)[1..] == tail;
  }

  /** The linearity step: a scaled tail that discounts to k times the tail gives k times the whole. */
  lemma DiscountedScaleStep(cfs: seq<real>, k: real, growth: real, first: nat, rest: real, scaledRest: real)
    returns (whole: real)
    requires cfs != [] && Pow(growth, first) != 0.0
    requires Discounted(cfs[1..], growth, first + 1).Ok? && Discounted(cfs[1..], growth, first + 1).value == rest
    requires Discounted(Scale(cfs[1..], k), growth, first + 1).Ok?
    requires Discounted(Scale(cfs[1..], k), growth, first + 1).value == scaledRest
    requires scaledRest == k * rest
    ensures Discounted(cfs, growth, first).Ok? && Discounted(cfs, growth, first).value == whole
    ensures Discounted(Scale(cfs, k), growth, first).Ok?
    ensures Discounted(Scale(cfs, k), growth, first).value == k * whole
  {
    var p := Pow(growth, first);
    ScaleCons(cfs, k);
    assert Discounted(Scale(cfs, k)[1..], growth, first + 1) == Discounted(Scale(cfs[1..], k), growth, first + 1);
    DiscountedStep(Scale(cfs, k), growth, first);
    DiscountedStep(cfs, growth, first);
    whole := Discounted(cfs, growth, first).value;
    ScaleDivide(k, p, cfs[0], rest, whole, Scale(cfs, k)[0], scaledRest, Discounted(Scale(cfs, k), growth, first).value);
  }

  /** Discounting is linear: scaling every flow by k scales the present value by k. */
  lemma {:induction false} DiscountedScale(cfs: seq<real>, k: real, growth: real, first: nat)
    ensures Discounted(Scale(cfs, k), growth, first).Ok? == Discounted(cfs, growth, first).Ok?
    ensures Discounted(cfs, growth, first).Ok? ==>
      Discounted(Scale(cfs, k), growth, first).value == k * Discounted(cfs, growth, first).value
    decreases |cfs|
  {
    if cfs != [] && Pow(growth, first) != 0.0 && Discounted(cfs[1..], growth, first + 1).Ok? {
      DiscountedScale(cfs[1..], k, growth, first + 1);
      var whole := DiscountedScaleStep(cfs, k, growth, first, Discounted(cfs[1..], growth, first + 1).value,
        Discounted(Scale(cfs[1..], k), growth, first + 1).value);
    }
  }

  /** Moving the origin one period later divides the present value by growth. */
  lemma {:induction false} DiscountedShift(cfs: seq<real>, growth: real, first: nat)
    requires growth != 0.0
    ensures Discounted(cfs, growth, first + 1).Ok? && Discounted(cfs, growth, first).Ok?
    ensures Discounted(cfs, growth, first + 1).value == Discounted(cfs, growth, first).value / growth
    decreases |cfs|
  {
    if cfs != [] {
      DiscountedShift(cfs[1..], growth, first + 1);
      PowZero(growth, first);
      PowZero(growth, first + 1);
      var p := Pow(growth, first);
      var rest := Discounted(cfs[1..], growth, first + 1).value;
      assert Pow(growth, first + 1) == growth * p;
      DivideTwice(cfs[0], p, growth);
      DivideSum(cfs[0] / p, rest, growth);
    }
  }

  /**
   * Concatenation: the flows of b are discounted from where a stops. This is the
   * term-by-term reading of the sum (flow i sits at period first + i).
   */
  lemma {:induction false} DiscountedAppend(a: seq<real>, b: seq<real>, growth: real, first: nat)
    requires growth != 0.0
    ensures Discounted(a + b, growth, first).Ok?
    ensures Discounted(a + b, growth, first).value ==
      Discounted(a, growth, first).value + Discounted(b, growth, first + |a|).value
    decreases |a|
  {
    if a == [] {
      assert a + b == b;
    } else {
      assert (a + b)[1..] == a[1..] + b;
      DiscountedAppend(a[1..], b, growth, first + 1);
    }
  }

  /** A constant flow c over n periods is worth c times the annuity factor. */
  lemma {:induction false} DiscountedConstant(c: real, n: nat, growth: real, first: nat)
    requires growth != 0.0
    ensures Discounted(Repeat(c, n), growth, first).Ok?
    ensures Discounted(Repeat(c, n), growth, first).value == c * Annuity(growth, first, n)
    decreases n
  {
    if n > 0 {
      var m: nat, next: nat := n - 1, first + 1;
      assert Repeat(c, n)[1..] == Repeat(c, m);
      DiscountedConstant(c, m, growth, next);
      DiscountedUnfold(Repeat(c, n), growth, first);
      AnnuityStep(c, Pow(growth, first), Annuity(growth, first, n), Annuity(growth, next, m));
    }
  }

  /** For a rate above -100% the annuity factor of one or more periods is positive. */
  lemma {:induction false} AnnuityPositive(growth: real, first: nat, n: nat)
    requires growth > 0.0
    ensures n >= 1 ==> Annuity(growth, first, n) > 0.0
    ensures Annuity(growth, first, n) >= 0.0
    decreases n
  {
    if n > 0 {
      PowPositive(growth, first);
      AnnuityPositive(growth, first + 1, n - 1);
    }
  }
}

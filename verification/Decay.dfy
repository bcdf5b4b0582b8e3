/** Drift-aware temporal decay of Beta parameters toward their prior. */
module Decay {
  import opened CapDraws
  import opened Quantiles
  import opened Expectation

  const STRENGTH_MIN := 0.1
  const STRENGTH_MAX := 20.0
  const ERROR_WINDOW := 10

  datatype Beta = Beta(alpha: real, beta: real)

  function Power(rho: real, k: nat): real {
    if k == 0 then 1.0 else Times(rho, Power(rho, k - 1))
  }

  function Toward(x0: real, x: real, factor: real): real {
    x0 + Times(factor, x - x0)
  }

  function ClipStrength(x: real): (r: real)
    ensures STRENGTH_MIN <= r <= STRENGTH_MAX
  {
    var capped := if x <= STRENGTH_MAX then x else STRENGTH_MAX;
    if capped >= STRENGTH_MIN then capped else STRENGTH_MIN
  }

  /** One parameter after `dt` time units in one go. */
  function DecayFor(rho: real, x: real, x0: real, dt: nat): real {
    ClipStrength(Toward(x0, x, Power(rho, dt)))
  }

  function DecayParams(rho: real, posterior: Beta, prior: Beta, dt: nat): Beta {
    Beta(DecayFor(rho, posterior.alpha, prior.alpha, dt), DecayFor(rho, posterior.beta, prior.beta, dt))
  }

  /** One parameter after k separate unit decays. */
  function UnitDecays(rho: real, x: real, x0: real, k: nat): real {
    if k == 0 then x else DecayFor(rho, UnitDecays(rho, x, x0, k - 1), x0, 1)
  }

  predicate InStrength(x: real) {
    0.1 <= x <= 20.0
  }

  lemma {:induction false} PowerBounds(rho: real, k: nat)
    requires 0.0 < rho < 1.0
    ensures 0.0 < Power(rho, k) <= 1.0
    ensures k > 0 ==> Power(rho, k) < 1.0
  {
    if k > 0 {
      PowerBounds(rho, k - 1);
      ProductBelow(rho, Power(rho, k - 1));
    }
  }

  lemma ProductBelow(x: real, y: real)
    requires 0.0 < x < 1.0 && 0.0 < y <= 1.0
    ensures 0.0 < Times(x, y) < 1.0
  {
    assert x * y > 0.0;
    assert (1.0 - x) * y > 0.0;
    assert (1.0 - x) * y == y - x * y;
  }

  lemma TowardOne(x0: real, x: real, rho: real)
    ensures Toward(x0, x, Power(rho, 1)) == Toward(x0, x, rho)
    ensures Toward(x0, x, Power(rho, 0)) == x
  {
    assert Power(rho, 1) == Times(rho, Power(rho, 0));
  }

  lemma TowardTwice(x0: real, x: real, a: real, b: real)
    ensures Toward(x0, Toward(x0, x, b), a) == Toward(x0, x, Times(a, b))
  {
    assert a * (b * (x - x0)) == (a * b) * (x - x0);
  }

  lemma TimesDifference(factor: real, a: real, b: real)
    ensures Times(factor, a) - Times(factor, b) == Times(factor, a - b)
    ensures Times(factor, -a) == -Times(factor, a)
  {
    assert factor * (a - b) == factor * a - factor * b;
    assert factor * (-a) == -(factor * a);
  }

  lemma TimesWithin(factor: real, d: real)
    requires 0.0 <= factor <= 1.0 && d >= 0.0
    ensures 0.0 <= Times(factor, d) <= d
    ensures 0.0 < factor < 1.0 && d > 0.0 ==> 0.0 < Times(factor, d) < d
  {
    NonNegativeProduct(factor, d);
    NonNegativeProduct(1.0 - factor, d);
    assert (1.0 - factor) * d == d - factor * d;
  }

  /** Decay moves between the posterior and the prior. */
  lemma TowardBetween(x0: real, x: real, factor: real)
    requires 0.0 <= factor <= 1.0
    ensures x <= x0 ==> x <= Toward(x0, x, factor) <= x0
    ensures x0 <= x ==> x0 <= Toward(x0, x, factor) <= x
  {
    hide Times;
    if x >= x0 {
      TimesWithin(factor, x - x0);
    }
    if x <= x0 {
      TimesWithin(factor, x0 - x);
      TimesDifference(factor, x0 - x, 0.0);
      assert -(x0 - x) == x - x0;
    }
  }

  /** Clipping before one more decay changes nothing when the posterior started in range. */
  lemma ClipBetween(rho: real, x: real, x0: real, factor: real)
    requires 0.0 < rho < 1.0 && InStrength(x) && 0.0 <= factor <= 1.0
    ensures var z := Toward(x0, x, factor);
            ClipStrength(Toward(x0, ClipStrength(z), rho)) == ClipStrength(Toward(x0, z, rho))
  {
    hide Times, Toward;
    var z := Toward(x0, x, factor);
    TowardBetween(x0, x, factor);
    TowardBetween(x0, z, rho);
    TowardBetween(x0, ClipStrength(z), rho);
  }

  /** While the posterior lies in range, k unit decays are one decay over k units, for any prior. */
  lemma {:induction false} UnitDecaysInRange(rho: real, x: real, x0: real, k: nat)
    requires 0.0 < rho < 1.0 && InStrength(x)
    ensures UnitDecays(rho, x, x0, k) == DecayFor(rho, x, x0, k)
    ensures InStrength(x0) ==> UnitDecays(rho, x, x0, k) == Toward(x0, x, Power(rho, k))
  {
    hide Times, Toward;
    PowerBounds(rho, k);
    TowardBetween(x0, x, Power(rho, k));
    if k == 0 {
      TowardOne(x0, x, rho);
    } else {
      var factor := Power(rho, k - 1);
      PowerBounds(rho, k - 1);
      UnitDecaysInRange(rho, x, x0, k - 1);
      ClipBetween(rho, x, x0, factor);
      TowardOne(x0, ClipStrength(Toward(x0, x, factor)), rho);
      TowardTwice(x0, x, rho, factor);
    }
  }

  /** Unit decays after the first continue from its clipped value. */
  lemma {:induction false} UnitDecaysShift(rho: real, x: real, x0: real, k: nat)
    ensures UnitDecays(rho, x, x0, k + 1) == UnitDecays(rho, DecayFor(rho, x, x0, 1), x0, k)
  {
    if k > 0 {
      UnitDecaysShift(rho, x, x0, k - 1);
    }
  }

  lemma {:induction false} PowerShift(rho: real, k: nat)
    ensures Power(rho, k + 1) == Times(Power(rho, k), rho)
  {
    assert Power(rho, k + 1) == rho * Power(rho, k);
  }

  /** A partial pull keeps order strictly and moves strictly toward the prior. */
  lemma TowardStrict(x0: real, x: real, y: real, factor: real)
    requires 0.0 < factor < 1.0 && x < y
    ensures Toward(x0, x, factor) < Toward(x0, y, factor)
    ensures x0 < y ==> x0 < Toward(x0, y, factor) < y
    ensures x < x0 ==> x < Toward(x0, x, factor) < x0
  {
    hide Times;
    TimesWithin(factor, y - x);
    TimesDifference(factor, y - x0, x - x0);
    assert (y - x0) - (x - x0) == y - x;
    if x0 < y { TimesWithin(factor, y - x0); }
    if x < x0 {
      TimesWithin(factor, x0 - x);
      TimesDifference(factor, x0 - x, 0.0);
      assert -(x0 - x) == x - x0;
    }
  }

  /**
   When the first unit decay is not clipped, or is clipped no further than the prior, or so early that
   the decay reaches the opposite end of the range anyhow.
   */
  predicate FirstStepHarmless(rho: real, x: real, x0: real, k: nat) {
    var first, last := Toward(x0, x, rho), Toward(x0, x, Power(rho, k));
    || InStrength(first)
    || (first > 20.0 && (x0 >= 20.0 || last <= 0.1))
    || (first < 0.1 && (x0 <= 0.1 || last >= 20.0))
  }

  /**
   Exactly when k >= 2 unit decays give what one decay over k units gives, for any posterior and
   any prior.
   */
  lemma UnitDecaysComposeIff(rho: real, x: real, x0: real, k: nat)
    requires 0.0 < rho < 1.0 && k >= 2
    ensures UnitDecays(rho, x, x0, k) == DecayFor(rho, x, x0, k) <==> FirstStepHarmless(rho, x, x0, k)
  {
    hide Times, Toward, Power;
    var first, factor := Toward(x0, x, rho), Power(rho, k - 1);
    var clipped := ClipStrength(first);
    TowardOne(x0, x, rho);
    UnitDecaysShift(rho, x, x0, k - 1);
    UnitDecaysInRange(rho, clipped, x0, k - 1);
    PowerBounds(rho, k - 1);
    PowerShift(rho, k - 1);
    TowardTwice(x0, x, factor, rho);
    assert Toward(x0, x, Power(rho, k)) == Toward(x0, first, factor);
    TowardBetween(x0, first, factor);
    TowardBetween(x0, clipped, factor);
    if first > STRENGTH_MAX {
      TowardStrict(x0, STRENGTH_MAX, first, factor);
      if x0 < STRENGTH_MAX { TowardStrict(x0, x0, STRENGTH_MAX, factor); }
    } else if first < STRENGTH_MIN {
      TowardStrict(x0, first, STRENGTH_MIN, factor);
      if x0 > STRENGTH_MIN { TowardStrict(x0, STRENGTH_MIN, x0, factor); }
    }
  }

  // ------------------------------------------------------------------ the adaptive rate

  function Window(errors: seq<real>, e: real): seq<real> {
    var grown := errors + [e];
    if |grown| > ERROR_WINDOW then grown[1..] else grown
  }

  /** The rate after an error report, from the window that already holds it. */
  function AdaptedRho(rho: real, low: real, high: real, window: seq<real>): real {
    if |window| < 3 then rho else
      var average := Sum(window) / |window| as real;
      if average > 0.3 then Max(low, rho - 0.03)
      else if average < 0.1 then (if rho + 0.01 <= high then rho + 0.01 else high)
      else rho
  }

  class TemporalDecay {
    var rho: real
    const rhoMin: real
    const rhoMax: real
    var recentErrors: seq<real>

    /** The rate never leaves its band and the window never exceeds ten reports. */
    predicate Valid()
      reads this
    {
      rhoMin <= rho <= rhoMax && |recentErrors| <= ERROR_WINDOW
    }

    constructor (rho: real, rhoMin: real, rhoMax: real)
      ensures rhoMin <= rhoMax ==> Valid()
      ensures recentErrors == []
      ensures this.rhoMin == rhoMin && this.rhoMax == rhoMax
      ensures this.rho == Max(rhoMin, if rho <= rhoMax then rho else rhoMax)
    {
      this.rho := Max(rhoMin, if rho <= rhoMax then rho else rhoMax);
      this.rhoMin, this.rhoMax, recentErrors := rhoMin, rhoMax, [];
    }

    method Adapt(error: real)
      modifies this
      ensures old(Valid()) ==> Valid()
      ensures recentErrors == Window(old(recentErrors), error)
      ensures rho == AdaptedRho(old(rho), rhoMin, rhoMax, recentErrors)
    {
      recentErrors := recentErrors + [error];
      if |recentErrors| > ERROR_WINDOW {
        recentErrors := recentErrors[1..];
      }
      if |recentErrors| >= 3 {
        var average := Sum(recentErrors) / |recentErrors| as real;
        if average > 0.3 {
          rho := Max(rhoMin, rho - 0.03);
        } else if average < 0.1 {
          rho := if rho + 0.01 <= rhoMax then rho + 0.01 else rhoMax;
        }
      }
    }
  }

  // ------------------------------------------------------------------ runs of error reports

  datatype Rate = Rate(rho: real, window: seq<real>)

  /** The rate and the window after a run of error reports on a fresh object. */
  function Adapted(rho: real, low: real, high: real, errors: seq<real>): Rate {
    if errors == [] then Rate(rho, []) else
      var before := Adapted(rho, low, high, errors[..|errors| - 1]);
      var window := Window(before.window, errors[|errors| - 1]);
      Rate(AdaptedRho(before.rho, low, high, window), window)
  }

  /** The window holds the last ten reports. */
  lemma {:induction false} WindowIsRecent(rho: real, low: real, high: real, errors: seq<real>)
    ensures Adapted(rho, low, high, errors).window == if |errors| <= 10 then errors else errors[|errors| - 10..]
  {
    if errors != [] {
      var init, last := errors[..|errors| - 1], errors[|errors| - 1];
      assert errors == init + [last];
      WindowIsRecent(rho, low, high, init);
    }
  }

  lemma {:induction false} SumAbove(s: seq<real>, v: real)
    requires forall i | 0 <= i < |s| :: s[i] > v
    ensures Sum(s) >= |s| as real * v && (s != [] ==> Sum(s) > |s| as real * v)
  {
    if s != [] {
      SumAbove(s[1..], v);
      assert |s| as real * v == (|s| - 1) as real * v + v;
    }
  }

  lemma {:induction false} SumBelow(s: seq<real>, v: real)
    requires forall i | 0 <= i < |s| :: s[i] < v
    ensures Sum(s) <= |s| as real * v && (s != [] ==> Sum(s) < |s| as real * v)
  {
    if s != [] {
      SumBelow(s[1..], v);
      assert |s| as real * v == (|s| - 1) as real * v + v;
    }
  }

  lemma MeanAbove(x: real, n: real, v: real)
    requires n > 0.0
    ensures x > n * v ==> x / n > v
    ensures x < n * v ==> x / n < v
  {
    var q := x / n;
    DivideBack(x, n);
    CompareScaled(q, v, n);
    CompareScaled(v, q, n);
  }

  lemma LargeWindow(rho: real, low: real, high: real, w: seq<real>)
    requires forall i | 0 <= i < |w| :: w[i] > 0.3
    ensures AdaptedRho(rho, low, high, w) == if |w| < 3 then rho else Max(low, rho - 0.03)
  {
    hide Sum;
    SumAbove(w, 0.3);
    if w != [] { MeanAbove(Sum(w), |w| as real, 0.3); }
  }

  lemma SmallWindow(rho: real, low: real, high: real, w: seq<real>)
    requires forall i | 0 <= i < |w| :: w[i] < 0.1
    ensures AdaptedRho(rho, low, high, w)
         == if |w| < 3 then rho else if rho + 0.01 <= high then rho + 0.01 else high
  {
    hide Sum;
    SumBelow(w, 0.1);
    if w != [] {
      MeanAbove(Sum(w), |w| as real, 0.1);
      assert Sum(w) / |w| as real < 0.1;
    }
  }

  /** Reports that are all large lower the rate by 0.03 from the third on, down to its floor. */
  lemma {:induction false} LargeErrorsLowerRate(rho: real, low: real, high: real, errors: seq<real>)
    requires low <= rho && forall i | 0 <= i < |errors| :: errors[i] > 0.3
    ensures Adapted(rho, low, high, errors).rho
         == if |errors| < 3 then rho else Max(low, rho - 0.03 * (|errors| - 2) as real)
  {
    if errors != [] {
      WindowIsRecent(rho, low, high, errors);
      hide AdaptedRho, Window;
      var before := Adapted(rho, low, high, errors[..|errors| - 1]);
      LargeErrorsLowerRate(rho, low, high, errors[..|errors| - 1]);
      LargeWindow(before.rho, low, high, Adapted(rho, low, high, errors).window);
    }
  }

  /** Reports that are all small raise it by 0.01 from the third on, up to its ceiling. */
  lemma {:induction false} SmallErrorsRaiseRate(rho: real, low: real, high: real, errors: seq<real>)
    requires rho <= high && forall i | 0 <= i < |errors| :: errors[i] < 0.1
    ensures Adapted(rho, low, high, errors).rho
         == if |errors| < 3 then rho
            else if rho + 0.01 * (|errors| - 2) as real <= high then rho + 0.01 * (|errors| - 2) as real else high
  {
    if errors != [] {
      WindowIsRecent(rho, low, high, errors);
      hide AdaptedRho, Window;
      var before := Adapted(rho, low, high, errors[..|errors| - 1]);
      SmallErrorsRaiseRate(rho, low, high, errors[..|errors| - 1]);
      SmallWindow(before.rho, low, high, Adapted(rho, low, high, errors).window);
    }
  }
}

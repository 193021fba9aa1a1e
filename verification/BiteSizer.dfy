/** The adaptive bite size: a moving average of the observed rate, clamped to the configured limits. */
module BiteSizer {
  import opened Domain

  const MIN_BITE := 1

  /** Python's `round`: to the nearest integer, a half to the even one. */
  function Round(x: real): int {
    var floor := x.Floor;
    var rest := x - floor as real;
    if rest < 0.5 || (rest == 0.5 && floor % 2 == 0) then floor else floor + 1
  }

  /** No integer is nearer, and `m` is even if another one is as near. */
  predicate IsNearestEven(x: real, m: int) {
    && -0.5 <= m as real - x <= 0.5
    && (m as real - x == 0.5 || m as real - x == -0.5 ==> m % 2 == 0)
  }

  /** Rounding gives the nearest integer, the even one of two, and that is only one. */
  lemma RoundIsNearestEven(x: real, m: int)
    ensures IsNearestEven(x, m) <==> m == Round(x)
  {
    if IsNearestEven(x, m) {
      assert m == x.Floor || m == x.Floor + 1;
    }
  }

  lemma RoundIsMonotone(x: real, y: real)
    requires x <= y
    ensures Round(x) <= Round(y)
  {
    assert x.Floor <= y.Floor;
  }

  /** The bounds the batch settings enforce. */
  datatype Settings = Settings(targetSeconds: real, maxMentions: int) {
    predicate Valid() {
      targetSeconds > 0.0 && maxMentions > 0
    }
  }

  /** At least one request, at most the maximum. */
  function Clamp(wanted: int, maxMentions: int): int {
    var capped := if maxMentions < wanted then maxMentions else wanted;
    if capped > MIN_BITE then capped else MIN_BITE
  }

  /** How many requests fit the target duration at this rate. */
  function Wanted(rate: real, targetSeconds: real): int {
    Round(rate * targetSeconds)
  }

  function Limit(settings: Settings, rate: Option<real>): int {
    match rate
    case None => settings.maxMentions
    case Some(r) => Clamp(Wanted(r, settings.targetSeconds), settings.maxMentions)
  }

  /**
   * The limit is the integer nearest to rate times target duration, a half to the even one, if that is between one
   * and the maximum, and else the bound it lies beyond; it is the maximum as long as nothing was observed.
   */
  lemma LimitIsNearest(settings: Settings, rate: real, m: int)
    requires settings.Valid() && IsNearestEven(rate * settings.targetSeconds, m)
    ensures Limit(settings, Some(rate))
            == if m < 1 then 1 else if m > settings.maxMentions then settings.maxMentions else m
    ensures Limit(settings, None) == settings.maxMentions
  {
    hide Round, IsNearestEven;
    RoundIsNearestEven(rate * settings.targetSeconds, m);
    assert Wanted(rate, settings.targetSeconds) == m;
  }

  /** The new rate counts 0.3, the average so far 0.7. */
  function Smooth(rate: Option<real>, observed: real): real {
    match rate
    case None => observed
    case Some(r) => 0.3 * observed + 0.7 * r
  }

  /** The average after a sequence of observed rates. */
  function Average(rates: seq<real>): Option<real> {
    if rates == [] then None else Some(Smooth(Average(rates[..|rates| - 1]), rates[|rates| - 1]))
  }

  class Sizer {
    const settings: Settings
    var rate: Option<real>
    /** The rates observed so far, bites without measurable time left out. */
    ghost var observed: seq<real>

    constructor (settings: Settings)
      ensures this.settings == settings && observed == [] && Averages()
    {
      this.settings, rate, observed := settings, None, [];
    }

    ghost predicate Averages()
      reads this
    {
      rate == Average(observed)
    }

    method CurrentLimit() returns (limit: int)
      ensures limit == Limit(settings, rate)
    {
      match rate {
        case None =>
          limit := settings.maxMentions;
        case Some(r) =>
          var wanted := Wanted(r, settings.targetSeconds);
          limit := if settings.maxMentions < wanted then settings.maxMentions else wanted;
          if limit < MIN_BITE {
            limit := MIN_BITE;
          }
      }
    }

    method Observe(mentions: nat, seconds: real)
      requires Averages()
      modifies this
      ensures Averages()
      ensures observed == old(observed) + (if seconds > 0.0 then [mentions as real / seconds] else [])
    {
      if seconds <= 0.0 {
        assert observed + [] == observed;
        return;
      }
      var current := mentions as real / seconds;
      rate := Some(if rate == None then current else 0.3 * current + 0.7 * rate.value);
      observed := observed + [current];
      assert observed[..|observed| - 1] == old(observed);
    }
  }

  function Power(base: real, n: nat): real {
    if n == 0 then 1.0 else base * Power(base, n - 1)
  }

  /** The weighted sum of the rates: each new one counts 0.3, and every earlier weight shrinks by 0.7. */
  function WeightedSum(rates: seq<real>, n: nat): real
    requires 1 <= n <= |rates|
  {
    if n == 1 then Power(0.7, |rates| - 1) * rates[0]
    else WeightedSum(rates, n - 1) + 0.3 * Power(0.7, |rates| - n) * rates[n - 1]
  }

  lemma {:induction false} WeightsShrink(rates: seq<real>, x: real, n: nat)
    requires 1 <= n <= |rates|
    ensures WeightedSum(rates + [x], n) == 0.7 * WeightedSum(rates, n)
  {
    var more := rates + [x];
    if n == 1 {
      assert Power(0.7, |more| - 1) == 0.7 * Power(0.7, |rates| - 1);
    } else {
      WeightsShrink(rates, x, n - 1);
      var p, r := Power(0.7, |rates| - n), rates[n - 1];
      assert Power(0.7, |more| - n) == 0.7 * p && more[n - 1] == r;
      assert 0.3 * (0.7 * p) * r == 0.7 * (0.3 * p * r);
    }
  }

  /** The moving average is the weighted sum 0.7^(n-1) r1 + 0.3 * 0.7^(n-2) r2 + ... + 0.3 rn. */
  lemma {:induction false} AverageIsWeightedSum(rates: seq<real>)
    requires rates != []
    ensures Average(rates) == Some(WeightedSum(rates, |rates|))
  {
    var n, init, last := |rates|, rates[..|rates| - 1], rates[|rates| - 1];
    assert rates == init + [last] && Power(0.7, 0) == 1.0;
    if n > 1 {
      AverageIsWeightedSum(init);
      WeightsShrink(init, last, n - 1);
      assert WeightedSum(rates, n) == WeightedSum(rates, n - 1) + 0.3 * Power(0.7, n - n) * last;
      assert 0.3 * Power(0.7, n - n) * last == 0.3 * last;
    }
  }

  /** It stays between any bounds of the observed rates. */
  lemma {:induction false} AverageStaysInRange(rates: seq<real>, low: real, high: real)
    requires rates != [] && forall i | 0 <= i < |rates| :: low <= rates[i] <= high
    ensures low <= Average(rates).value <= high
  {
    if |rates| > 1 {
      AverageStaysInRange(rates[..|rates| - 1], low, high);
    }
  }

  lemma AverageSnoc(rates: seq<real>, observed: real)
    requires rates != []
    ensures Average(rates) != None && Average(rates + [observed]) == Some(0.3 * observed + 0.7 * Average(rates).value)
  {
    assert (rates + [observed])[..|rates|] == rates;
  }

  lemma ErrorStep(average: real, rate: real, factor: real, error: real)
    requires average - rate == factor * error
    ensures 0.3 * rate + 0.7 * average - rate == (0.7 * factor) * error
  {
    assert (0.7 * factor) * error == 0.7 * (factor * error);
  }

  /** At a constant rate the error shrinks to exactly 0.7 of itself with every bite. */
  lemma {:induction false} ErrorShrinks(rates: seq<real>, rate: real, k: nat)
    requires rates != []
    ensures Average(rates) != None && Average(rates + seq(k, i => rate)) != None
    ensures Average(rates + seq(k, i => rate)).value - rate == Power(0.7, k) * (Average(rates).value - rate)
  {
    hide Average;
    AverageSnoc(rates, rate);
    if k == 0 {
      assert rates + seq(0, i => rate) == rates;
    } else {
      hide Power;
      var before := rates + seq(k - 1, i => rate);
      ErrorShrinks(rates, rate, k - 1);
      AverageSnoc(before, rate);
      assert rates + seq(k, i => rate) == before + [rate];
      ErrorStep(Average(before).value, rate, Power(0.7, k - 1), Average(rates).value - rate);
      assert Power(0.7, k) == 0.7 * Power(0.7, k - 1) by { PowerStep(0.7, k); }
    }
  }

  lemma PowerStep(base: real, k: nat)
    requires k > 0
    ensures Power(base, k) == base * Power(base, k - 1)
  {
  }

  lemma FasterWantsMore(slow: real, fast: real, targetSeconds: real)
    requires slow <= fast && targetSeconds > 0.0
    ensures Wanted(slow, targetSeconds) <= Wanted(fast, targetSeconds)
  {
    hide Round;
    var less, more := slow * targetSeconds, fast * targetSeconds;
    assert more - less == (fast - slow) * targetSeconds;
    assert (fast - slow) * targetSeconds >= 0.0;
    RoundIsMonotone(less, more);
  }

  /** The limit is always at least one and at most the configured maximum, and a faster rate never lowers it. */
  lemma LimitIsClampedAndMonotone(settings: Settings, slow: real, fast: real)
    requires settings.Valid() && slow <= fast
    ensures 1 <= Limit(settings, Some(slow)) <= Limit(settings, Some(fast)) <= Limit(settings, None)
    ensures Limit(settings, None) == settings.maxMentions
  {
    hide Wanted;
    FasterWantsMore(slow, fast, settings.targetSeconds);
  }
}

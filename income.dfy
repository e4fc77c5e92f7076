/**
  estimatedIncome: from the hours of the month to the income left after
  converting the gross amount, deducting the fixed monthly taxes and applying
  the tax rate.

  The three configuration values are read from the environment and parsed at
  the point of use; each is an Option here, None standing for a value that is
  missing or does not parse. The currency conversion is a call into a remote
  service whose result is used even when the lookup failed, so it is an
  arbitrary function `convert`. The calls the estimate makes are recorded in
  the order it makes them.
*/
module Income {
  import opened Wrappers

  /** Which configuration value could not be parsed. */
  datatype ConfigError = HourlyRateInvalid | FixedTaxesInvalid | TaxRateInvalid

  /** HOURLY_RATE, ESTIMATED_MONTHLY_FIXED_TAXES and ESTIMATED_TAX_RATE as parsed. */
  datatype Env = Env(hourlyRate: Option<real>, fixedTaxes: Option<real>, taxRate: Option<real>)

  /** An environment read (with its parse) or a call to the currency converter. */
  datatype Call = ParseHourlyRate | Convert(amount: real) | ParseFixedTaxes | ParseTaxRate

  /** What one estimate returns, with the calls it made to get there. */
  datatype Estimate = Estimate(result: Result<real, ConfigError>, calls: seq<Call>)

  /** math.Max(0, taxable * taxRate): the tax owed, never a rebate. */
  function IncomeTax(taxable: real, taxRate: real): (tax: real)
    ensures tax >= 0.0 && tax >= taxable * taxRate
    ensures tax == 0.0 || tax == taxable * taxRate
  {
    if 0.0 >= taxable * taxRate then 0.0 else taxable * taxRate
  }

  /** The income left once the fixed taxes and the income tax are paid. */
  function AfterTaxes(gross: real, fixedTaxes: real, taxRate: real): (net: real)
    ensures net <= gross - fixedTaxes
    ensures (gross - fixedTaxes) * taxRate <= 0.0 ==> net == gross - fixedTaxes
    ensures (gross - fixedTaxes) * taxRate > 0.0 ==>
              net == (gross - fixedTaxes) - (gross - fixedTaxes) * taxRate
  {
    var taxable := gross - fixedTaxes;
    taxable - IncomeTax(taxable, taxRate)
  }

  /** A rate between 0 and 1 never lets more taxable income leave less after tax. */
  lemma AfterTaxesMonotone(gross1: real, gross2: real, fixedTaxes: real, taxRate: real)
    requires gross1 <= gross2
    requires 0.0 <= taxRate <= 1.0
    ensures AfterTaxes(gross1, fixedTaxes, taxRate) <= AfterTaxes(gross2, fixedTaxes, taxRate)
  {
    var t1, t2 := gross1 - fixedTaxes, gross2 - fixedTaxes;
    var net1, net2 := AfterTaxes(gross1, fixedTaxes, taxRate), AfterTaxes(gross2, fixedTaxes, taxRate);
    if t2 < 0.0 {
      NonPositiveProduct(t2, taxRate);
      NonPositiveProduct(t1, taxRate);
    } else if t1 < 0.0 {
      NonPositiveProduct(t1, taxRate);
      NonNegativeProduct(t2, 1.0 - taxRate);
      assert net2 == t2 * (1.0 - taxRate) || net2 == t2;
    } else {
      NonNegativeProduct(t1, taxRate);
      NonNegativeProduct(t2, taxRate);
      NonNegativeProduct(t2 - t1, 1.0 - taxRate);
      assert net1 == t1 * (1.0 - taxRate) && net2 == t2 * (1.0 - taxRate);
    }
  }

  lemma NonNegativeProduct(a: real, b: real)
    requires a >= 0.0 && b >= 0.0
    ensures a * b >= 0.0
  {
  }

  lemma NonPositiveProduct(a: real, b: real)
    requires a <= 0.0 && b >= 0.0
    ensures a * b <= 0.0
  {
  }

  /** convertToUsdFromPLN applied to the hours worked times the hourly rate. */
  function MonthlyGross(totalTime: real, hourlyRate: real, convert: real -> real): real
  {
    convert(totalTime * hourlyRate)
  }

  /** estimatedIncome(totalTime): zero hours short-circuit; otherwise parse, convert, tax. */
  function EstimatedIncome(totalTime: real, env: Env, convert: real -> real): (e: Estimate)
    ensures totalTime == 0.0 <==> e.calls == []
    ensures totalTime == 0.0 ==> e.result == Ok(0.0)
    ensures totalTime != 0.0 ==> e.calls[0] == ParseHourlyRate
    ensures forall i :: 0 <= i < |e.calls| && e.calls[i].Convert? ==>
              i == 1 && env.hourlyRate.Some? && e.calls[i].amount == totalTime * env.hourlyRate.value
    ensures totalTime != 0.0 && env.hourlyRate.Some? ==>
              |e.calls| >= 2 && e.calls[1] == Convert(totalTime * env.hourlyRate.value)
    ensures e.result.Err? <==>
              totalTime != 0.0 && (env.hourlyRate.None? || env.fixedTaxes.None? || env.taxRate.None?)
    ensures e.result.Ok? && totalTime != 0.0 ==>
              e.result.value <= MonthlyGross(totalTime, env.hourlyRate.value, convert) - env.fixedTaxes.value
    ensures e.result.Ok? && totalTime != 0.0 ==>
              e.result.value == AfterTaxes(MonthlyGross(totalTime, env.hourlyRate.value, convert),
                                           env.fixedTaxes.value, env.taxRate.value)
  {
    if totalTime == 0.0 then Estimate(Ok(0.0), [])
    else if env.hourlyRate.None? then Estimate(Err(HourlyRateInvalid), [ParseHourlyRate])
    else
      var soFar := [ParseHourlyRate, Convert(totalTime * env.hourlyRate.value), ParseFixedTaxes];
      if env.fixedTaxes.None? then Estimate(Err(FixedTaxesInvalid), soFar)
      else if env.taxRate.None? then Estimate(Err(TaxRateInvalid), soFar + [ParseTaxRate])
      else Estimate(Ok(AfterTaxes(MonthlyGross(totalTime, env.hourlyRate.value, convert), env.fixedTaxes.value, env.taxRate.value)), soFar + [ParseTaxRate])
  }

  /** Zero hours: the result depends on neither the environment nor the converter. */
  lemma ZeroHoursIgnoresConfiguration(env1: Env, env2: Env, convert1: real -> real, convert2: real -> real)
    ensures EstimatedIncome(0.0, env1, convert1) == EstimatedIncome(0.0, env2, convert2)
  {
  }

  /** The configuration values are checked in the order HOURLY_RATE, fixed taxes, tax rate. */
  lemma ConfigErrorPrecedence(totalTime: real, env: Env, convert: real -> real)
    requires totalTime != 0.0
    ensures env.hourlyRate.None? ==> EstimatedIncome(totalTime, env, convert).result == Err(HourlyRateInvalid)
    ensures env.hourlyRate.Some? && env.fixedTaxes.None? ==>
              EstimatedIncome(totalTime, env, convert).result == Err(FixedTaxesInvalid)
    ensures env.hourlyRate.Some? && env.fixedTaxes.Some? && env.taxRate.None? ==>
              EstimatedIncome(totalTime, env, convert).result == Err(TaxRateInvalid)
  {
  }

  /** An invalid hourly rate is reported before any conversion is attempted. */
  lemma NoConversionWithoutHourlyRate(totalTime: real, env: Env, convert: real -> real)
    requires env.hourlyRate.None?
    ensures forall c :: c in EstimatedIncome(totalTime, env, convert).calls ==> !c.Convert?
  {
  }

  /** With nonzero hours, whether and how the estimate fails does not depend on the hours. */
  lemma ConfigErrorIndependentOfHours(t1: real, t2: real, env: Env, convert: real -> real)
    requires t1 != 0.0 && t2 != 0.0
    ensures EstimatedIncome(t1, env, convert).result.Err? <==> EstimatedIncome(t2, env, convert).result.Err?
    ensures EstimatedIncome(t1, env, convert).result.Err? ==>
              EstimatedIncome(t1, env, convert).result.error == EstimatedIncome(t2, env, convert).result.error
  {
  }

  /**
    More hours never give less income when the rate is not negative, the tax
    rate lies between 0 and 1 and the conversion preserves order.
  */
  lemma EstimatedIncomeMonotone(t1: real, t2: real, env: Env, convert: real -> real)
    requires 0.0 < t1 <= t2
    requires env.hourlyRate.Some? && env.hourlyRate.value >= 0.0
    requires env.fixedTaxes.Some? && env.taxRate.Some? && 0.0 <= env.taxRate.value <= 1.0
    requires forall a, b :: a <= b ==> convert(a) <= convert(b)
    ensures EstimatedIncome(t1, env, convert).result.Ok?
    ensures EstimatedIncome(t2, env, convert).result.Ok?
    ensures EstimatedIncome(t1, env, convert).result.value <= EstimatedIncome(t2, env, convert).result.value
  {
    var rate := env.hourlyRate.value;
    assert t1 * rate <= t2 * rate;
    AfterTaxesMonotone(MonthlyGross(t1, rate, convert), MonthlyGross(t2, rate, convert),
                       env.fixedTaxes.value, env.taxRate.value);
  }

  /**
    The zero-hours short cut makes the estimate jump at zero: no hours report
    0, while a quarter hour reports nearly all the fixed taxes as a loss.
  */
  lemma ZeroHoursDropsToLoss(convert: real -> real)
    requires forall amount :: convert(amount) == amount
    ensures EstimatedIncome(0.0, Env(Some(50.0), Some(1000.0), Some(0.2)), convert).result == Ok(0.0)
    ensures EstimatedIncome(0.25, Env(Some(50.0), Some(1000.0), Some(0.2)), convert).result == Ok(-987.5)
  {
  }

  /**
    When the conversion yields 0 (the converter's result is used even when
    its lookup reported an error), the estimate silently reports the fixed
    taxes as a loss.
  */
  lemma FailedLookupReportsLoss(totalTime: real, env: Env, convert: real -> real)
    requires totalTime != 0.0
    requires env.hourlyRate.Some? && env.fixedTaxes.Some? && env.taxRate.Some?
    requires MonthlyGross(totalTime, env.hourlyRate.value, convert) == 0.0
    requires env.fixedTaxes.value >= 0.0 && env.taxRate.value >= 0.0
    ensures EstimatedIncome(totalTime, env, convert).result == Ok(-env.fixedTaxes.value)
  {
    NonPositiveProduct(-env.fixedTaxes.value, env.taxRate.value);
  }

  /** 100 hours at 50 an hour, 1000 of fixed taxes, a 20% rate and no currency change leave 3200. */
  lemma WorkedExample(convert: real -> real)
    requires forall amount :: convert(amount) == amount
    ensures EstimatedIncome(100.0, Env(Some(50.0), Some(1000.0), Some(0.2)), convert).result == Ok(3200.0)
  {
  }
}

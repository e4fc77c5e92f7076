# automated-harvest: the monthly hours and income calculation

`automated-harvest` is an AWS Lambda (`main.go`). Each time it runs, it
does the following:

1. It fetches the month's Harvest time entries.
2. It snaps every entry to the nearest quarter hour and sums the results.
3. It projects the working hours left in the month: 8 for every remaining
   Monday to Friday.
4. It estimates the income after taxes twice. The first estimate uses the
   hours logged. The second uses the hours logged plus the projected hours.
5. It publishes a summary through SNS.

This project models that calculation in Dafny and proves properties of it:

- `wrappers.dfy`: `Option` and `Result`.
- `aggregation.dfy` (module `Aggregation`): the quarter-hour rounding (Go's
  `math.Round`, which rounds halves away from zero) and the accumulation loop.
- `projection.dfy` (module `Projection`): the day-stepping loop that counts the
  remaining business hours. Days are integer day numbers. The weekday of day `d`
  is `(d + offset) % 7`, numbered as Go's `time.Weekday` numbers them
  (Sunday 0, Saturday 6).
- `income.dfy` (module `Income`): `estimatedIncome`.
  - The configuration values `HOURLY_RATE`, `ESTIMATED_MONTHLY_FIXED_TAXES`
    and `ESTIMATED_TAX_RATE` are `Option<real>`. `None` stands for a value that
    is missing or does not parse.
  - The currency converter is an arbitrary function `real -> real`. The source
    uses the converter's result even when the lookup failed, so no property
    may rely on the converter.
  - Each estimate also returns the environment reads and converter calls it
    made, in order. That trace is what states "zero hours reads nothing and
    converts nothing" and "the rate is parsed before the conversion".
- `handler.dfy` (module `Handler`): `HandleRequest` as a method. The outcomes of
  the remote calls (fetch, SNS session, publish) and the clock are inputs. The
  method is proved equal to a specification function `Invocation`, which also
  records the calls made in order, each income estimate as one step that
  carries the reads and the conversion it made.

Reals stand in for `float64`. Integer day numbers stand in for `time.Time`.

The model keeps three behaviours of the code as written:

- Negative hours are not rejected. They are rounded like any other value
  (half away from zero).
- A failed currency lookup is logged, not returned as an error, and the
  converter's result is used anyway. `Income.FailedLookupReportsLoss` states
  what the code reports when that result is 0.
- A function named `convertToUsdFromPLN` asks the service to convert from USD
  to PLN. Because the model leaves the conversion arbitrary, the direction
  does not matter here.

## Model

| member | source | states |
|---|---|---|
| `Aggregation.RoundHalfAway` | main.go:55 | the result is an integer within 1/2 of the input; an exact half goes to the integer farther from zero (Go's `math.Round`) |
| `Aggregation.RoundHalfAwayUnique` | main.go:55 | any integer with those three properties is the rounded value, so they define the rounding completely |
| `Aggregation.RoundHalfAwayOdd` | main.go:55 | rounding is symmetric: rounding `-x` gives minus the rounding of `x` |
| `Aggregation.RoundToQuarter` | main.go:55 | an entry's contribution is a whole number of quarter hours (`RoundDownTo`, main.go:33), lies within 0.125 of the raw hours, and a tie goes away from zero |
| `Aggregation.RoundToQuarterNearest` | main.go:55 | no multiple of 0.25 is closer to the raw hours than the contribution |
| `Aggregation.SumRounded` | main.go:52-56 | specification of the total: the entries, each rounded to the nearest quarter hour, added in order from 0 |
| `Aggregation.SumRoundedIsQuarterMultiple` | main.go:52-56 | the month's total is a whole number of quarter hours |
| `Aggregation.SumRoundedNearSum` | main.go:52-56 | the total differs from the raw sum of hours by at most 0.125 per entry |
| `Aggregation.SumRoundedNonNegative` | main.go:52-56 | entries that are not negative give a total that is not negative |
| `Aggregation.SumRoundedAppend` | main.go:53-55 | the total of a list split in two is the sum of the two parts' totals |
| `Aggregation.SumOfRoundedNotRoundedSum` | main.go:52-56 | two entries of 1.1 hours total 2.0 (each rounded), not the 2.25 of rounding their sum |
| `Aggregation.AggregateHours` | main.go:52-56 | the accumulation loop returns the sum of the individually rounded entries; no entries give exactly 0 |
| `Projection.Weekday` | main.go:64 | the weekday of a day number is one of Go's seven weekday numbers, Sunday 0 to Saturday 6 |
| `Projection.IsWeekend` | main.go:64 | the test that skips a day: its weekday is Sunday or Saturday |
| `Projection.RemainingHours` | main.go:57-68 | specification of the projection: 8 hours for every working day from the day after today through the last day of the month |
| `Projection.BusinessDays` | main.go:59-68 | the count of working days in a window is at most the number of days in it |
| `Projection.BusinessDaysCountsWorkDays` | main.go:59-68 | the count equals the number of days in the window that are neither Saturday nor Sunday |
| `Projection.HoursLeft` | main.go:57-68 | the loop ends (one day closer to the end of the month per step) with 8 hours per working day strictly after today up to and including the last day of the month; the result is not negative, and it is 0 when tomorrow is already past the end of the month |
| `Projection.BusinessDaysSplit` | main.go:59-68 | splitting the window at any day splits the count |
| `Projection.FullWeekHasFiveBusinessDays` | main.go:64-67 | any seven consecutive days hold exactly five working days |
| `Projection.FullWeeksHaveFiveBusinessDaysEach` | main.go:64-67 | `k` whole weeks hold `5k` working days |
| `Projection.WeekAheadIsFortyHours` | main.go:57-68 | when the month ends seven days after today (for example, from a Friday to the next Friday), 40 hours remain |
| `Projection.NextDayContribution` | main.go:64-67 | a Saturday or Sunday at the end of the window adds nothing; any other day adds 8 hours |
| `Projection.RemainingHoursBounds` | main.go:57-68 | the projection is a whole number of 8-hour days, is not negative, and is at most 8 hours per remaining day |
| `Income.IncomeTax` | main.go:142 | the tax is never negative, is at least `taxable * rate`, and is one of those two values |
| `Income.AfterTaxes` | main.go:141-144 | the net never exceeds the taxable income; it equals the taxable income when `taxable * rate <= 0` and is `taxable - taxable * rate` otherwise |
| `Income.AfterTaxesMonotone` | main.go:141-144 | for a tax rate between 0 and 1, more gross income never leaves less after tax |
| `Income.MonthlyGross` | main.go:127 | the gross: the converter applied to the hours times the hourly rate |
| `Income.EstimatedIncome` | main.go:117-147 | zero hours makes no reads and no conversion and returns 0; otherwise `HOURLY_RATE` is parsed first; when it parses, the second call is the conversion of hours times rate, and no other call converts; the estimate fails exactly when hours are nonzero and some value is missing; a success on nonzero hours is the after-tax value of the converted gross, which never exceeds the gross less the fixed taxes |
| `Income.ZeroHoursIgnoresConfiguration` | main.go:118-120 | with zero hours the estimate is the same for every environment and every converter |
| `Income.ConfigErrorPrecedence` | main.go:122-139 | with nonzero hours the values are checked in order: hourly rate, then fixed taxes, then tax rate; the first bad value names the error |
| `Income.NoConversionWithoutHourlyRate` | main.go:122-127 | a bad `HOURLY_RATE` is reported before any conversion call |
| `Income.ConfigErrorIndependentOfHours` | main.go:122-139 | for any two nonzero hour counts the estimate fails, or not, with the same error |
| `Income.EstimatedIncomeMonotone` | main.go:127-146 | with a complete configuration, a non-negative rate, a tax rate between 0 and 1 and an order-preserving conversion, more hours never give less income, for positive hours |
| `Income.ZeroHoursDropsToLoss` | main.go:118-146 | the zero-hours short cut makes the estimate jump at zero: with rate 50, fixed taxes 1000, tax rate 20% and an identity conversion, 0 hours give 0 while 0.25 hours give -987.5 |
| `Income.FailedLookupReportsLoss` | main.go:149-159 | when the conversion yields 0 (for example a zero result returned alongside a lookup error), the fixed taxes are not negative and the tax rate is not negative, the estimate reports minus the fixed taxes instead of an error |
| `Income.WorkedExample` | main.go:117-147 | 100 hours at 50 per hour, 1000 of fixed taxes, a 20% tax rate and an identity conversion give 3200 |
| `Handler.Invocation` | main.go:35-115 | specification of one invocation: fetch, create the session, estimate on the total, then on the total plus the projection, publish; each failure returns at once with the calls made so far |
| `Handler.HandleRequest` | main.go:35-115 | the handler computes the invocation's specification: fetch, aggregate, project, create the session, estimate the actual and potential income, publish; any successful total is a whole number of quarter hours |
| `Handler.PublishOnlyAfterEveryStage` | main.go:87-106 | the summary is published, as the last call, exactly when the fetch, the session and both estimates succeeded |
| `Handler.PublishAtMostOnce` | main.go:103-106 | no publish occurs anywhere but as the last call |
| `Handler.SucceedsIffPublished` | main.go:103-114 | the invocation succeeds exactly when the summary was published and the publish succeeded |
| `Handler.FirstFailureWins` | main.go:46-95 | a failed fetch, a failed session or a failed estimate decides the result, whatever the later stages would do |
| `Handler.OnlyPublishCanFailAfterActualEstimate` | main.go:87-95 | once the actual estimate succeeds on a nonzero total, the potential estimate cannot fail, so the result depends only on the publish |
| `Handler.NoHoursNoIncome` | main.go:87-90 | with a zero total, a successful invocation reports an after-tax income of 0 |

## Left out

- When and how often the Lambda is invoked is set outside `main.go` (main.go:25-27 only hands `HandleRequest` to the Lambda runtime), so no schedule is modelled.
- Harvest client creation, the environment reads of its credentials and the fetch `GetTimeEntriesBetween` (main.go:36-51) are network I/O. The fetched entries, or the fetch failure, are an input. Each entry is represented only by its `Hours` field.
- The AWS configuration, credential selection and session creation (main.go:70-84) are remote I/O. Their success or failure is an input.
- SNS `Publish` and the printing of the message id (main.go:102-112) are remote I/O. The publish is recorded as an effect, and its success or failure is an input.
- The locale-aware formatting of the message (main.go:97-100) uses an external library. The model returns the three reported numbers as a `Summary` instead of the formatted string.
- The forex HTTP call inside `convertToUsdFromPLN` (main.go:149-159) is a foreign library call. It is an arbitrary function, and its logged error (main.go:154-156) is not modelled.
- `os.Getenv` and `strconv.ParseFloat` (main.go:122-139) are not modelled. Each parse is an `Option<real>`, and decimal strings are not parsed.
- Logging through `fmt.Printf`, `fmt.Print` and `log.Println` (main.go:54, 100, 112, 155) is output only.
- `lambda.Start`, the context and the unused event (main.go:25-35) are runtime plumbing.
- IEEE-754 arithmetic is replaced by exact reals. Dividing by 0.25 and multiplying by 0.25 are exact in binary floating point, but the rounding error of the running sum, NaN and infinities are not modelled.
- The two income estimates share one deterministic converter. The source makes two separate remote calls (main.go:149-159), and when no hours remain they convert the same amount, yet the source could get two different answers (for example, the first lookup fails and the second succeeds). The model forces those two answers to be equal. No property here depends on it.
- Time zones, daylight-saving shifts of `Add(24 * time.Hour)`, and the clock moving between `now.EndOfMonth()` (main.go:42) and `time.Now()` (main.go:57) are not modelled. The current day and the last day of the month are given day numbers.

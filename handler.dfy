/**
  HandleRequest: fetch the month's time entries, aggregate them, project the
  hours still to work, estimate the actual and the potential income, publish
  the summary. Every failure ends the invocation with that failure.

  The outcomes of the remote calls (the time-entry fetch, the messaging
  session, the publish) are inputs; the clock is the current day, the last day
  of the month and the weekday offset of the day numbering. The calls made
  are recorded in order as effects.
*/
module Handler {
  import opened Wrappers
  import Aggregation
  import Projection
  import Income

  datatype Failure = FetchFailed | SessionFailed | IncomeFailed(cause: Income.ConfigError) | PublishFailed

  /** The three figures the published message reports. */
  datatype Summary = Summary(totalHours: real, afterTaxes: real, potentialIncome: real)

  /**
    A call to the outside world, in the order the handler makes it; an
    income estimate is one step carrying the reads and conversion it made.
  */
  datatype Effect = FetchTimeEntries | CreateSession | Estimating(calls: seq<Income.Call>) | Publish(summary: Summary)

  /** Everything the invocation reads from outside, apart from the currency converter. */
  datatype World = World(
    entries: Option<seq<real>>,  // None: the fetch failed
    now: int,
    endOfMonth: int,
    weekdayOffset: int,
    sessionOk: bool,
    env: Income.Env,
    publishOk: bool)

  datatype Outcome = Outcome(result: Result<Summary, Failure>, effects: seq<Effect>)

  /** The last effect is a publish of the summary. */
  predicate EndsWithPublish(effects: seq<Effect>)
  {
    |effects| > 0 && effects[|effects| - 1].Publish?
  }

  /** The invocation as a function of the world: the specification HandleRequest is proved against. */
  function Invocation(w: World, convert: real -> real): Outcome
  {
    if w.entries.None? then Outcome(Err(FetchFailed), [FetchTimeEntries])
    else if !w.sessionOk then Outcome(Err(SessionFailed), [FetchTimeEntries, CreateSession])
    else
      var totalTime := Aggregation.SumRounded(w.entries.value);
      var hoursLeft := Projection.RemainingHours(w.now, w.endOfMonth, w.weekdayOffset);
      var actual := Income.EstimatedIncome(totalTime, w.env, convert);
      var afterActual := [FetchTimeEntries, CreateSession] + [Estimating(actual.calls)];
      if actual.result.Err? then Outcome(Err(IncomeFailed(actual.result.error)), afterActual)
      else
        var potential := Income.EstimatedIncome(totalTime + hoursLeft, w.env, convert);
        var afterPotential := afterActual + [Estimating(potential.calls)];
        if potential.result.Err? then Outcome(Err(IncomeFailed(potential.result.error)), afterPotential)
        else
          var summary := Summary(totalTime, actual.result.value, potential.result.value);
          Outcome(if w.publishOk then Ok(summary) else Err(PublishFailed), afterPotential + [Publish(summary)])
  }

  method HandleRequest(w: World, convert: real -> real) returns (outcome: Outcome)
    ensures outcome == Invocation(w, convert)
    ensures outcome.result.Ok? ==> Aggregation.IsQuarterMultiple(outcome.result.value.totalHours)
  {
    var effects := [FetchTimeEntries];
    if w.entries.None? {
      return Outcome(Err(FetchFailed), effects);
    }
    var totalTime := Aggregation.AggregateHours(w.entries.value);
    var hoursLeft := Projection.HoursLeft(w.now, w.endOfMonth, w.weekdayOffset);
    effects := effects + [CreateSession];
    if !w.sessionOk {
      return Outcome(Err(SessionFailed), effects);
    }
    assert effects == [FetchTimeEntries, CreateSession];
    var afterTaxes := Income.EstimatedIncome(totalTime, w.env, convert);
    effects := effects + [Estimating(afterTaxes.calls)];
    ghost var spec := Invocation(w, convert);
    if afterTaxes.result.Err? {
      assert spec == Outcome(Err(IncomeFailed(afterTaxes.result.error)), effects);
      return Outcome(Err(IncomeFailed(afterTaxes.result.error)), effects);
    }
    var potentialIncome := Income.EstimatedIncome(totalTime + hoursLeft, w.env, convert);
    effects := effects + [Estimating(potentialIncome.calls)];
    if potentialIncome.result.Err? {
      assert spec == Outcome(Err(IncomeFailed(potentialIncome.result.error)), effects);
      return Outcome(Err(IncomeFailed(potentialIncome.result.error)), effects);
    }
    var summary := Summary(totalTime, afterTaxes.result.value, potentialIncome.result.value);
    assert spec.effects == effects + [Publish(summary)];
    effects := effects + [Publish(summary)];
    if !w.publishOk {
      assert spec == Outcome(Err(PublishFailed), effects);
      return Outcome(Err(PublishFailed), effects);
    }
    assert spec == Outcome(Ok(summary), effects);
    Aggregation.SumRoundedIsQuarterMultiple(w.entries.value);
    return Outcome(Ok(summary), effects);
  }

  /** Both estimates succeed for the fetched entries and the projection. */
  predicate EstimatesSucceed(w: World, convert: real -> real)
    requires w.entries.Some?
  {
    var totalTime := Aggregation.SumRounded(w.entries.value);
    var hoursLeft := Projection.RemainingHours(w.now, w.endOfMonth, w.weekdayOffset);
    Income.EstimatedIncome(totalTime, w.env, convert).result.Ok? &&
    Income.EstimatedIncome(totalTime + hoursLeft, w.env, convert).result.Ok?
  }

  /** A notification goes out only when every earlier stage succeeded, and then as the last call. */
  lemma PublishOnlyAfterEveryStage(w: World, convert: real -> real)
    ensures EndsWithPublish(Invocation(w, convert).effects) <==>
              w.entries.Some? && w.sessionOk && EstimatesSucceed(w, convert)
  {
  }

  /** At most one notification is published per invocation. */
  lemma PublishAtMostOnce(w: World, convert: real -> real)
    ensures forall i :: 0 <= i < |Invocation(w, convert).effects| - 1 ==> !Invocation(w, convert).effects[i].Publish?
  {
  }

  /** The invocation succeeds exactly when the summary is published and the publish succeeds. */
  lemma SucceedsIffPublished(w: World, convert: real -> real)
    ensures Invocation(w, convert).result.Ok? <==> EndsWithPublish(Invocation(w, convert).effects) && w.publishOk
  {
    PublishOnlyAfterEveryStage(w, convert);
  }

  /** The first failing stage decides the failure, whatever later stages would have done. */
  lemma FirstFailureWins(w: World, convert: real -> real)
    ensures w.entries.None? ==> Invocation(w, convert).result == Err(FetchFailed)
    ensures w.entries.Some? && !w.sessionOk ==> Invocation(w, convert).result == Err(SessionFailed)
    ensures w.entries.Some? && w.sessionOk && !EstimatesSucceed(w, convert) ==>
              Invocation(w, convert).result.Err? && Invocation(w, convert).result.error.IncomeFailed?
  {
  }

  /**
    Once the actual estimate has succeeded on logged hours, the potential
    estimate cannot fail, so only the publish can still fail the invocation.
  */
  lemma OnlyPublishCanFailAfterActualEstimate(w: World, convert: real -> real)
    requires w.entries.Some? && w.sessionOk
    requires Aggregation.SumRounded(w.entries.value) != 0.0
    requires Income.EstimatedIncome(Aggregation.SumRounded(w.entries.value), w.env, convert).result.Ok?
    ensures Invocation(w, convert).result.Ok? <==> w.publishOk
  {
    var totalTime := Aggregation.SumRounded(w.entries.value);
    var hoursLeft := Projection.RemainingHours(w.now, w.endOfMonth, w.weekdayOffset);
    if totalTime + hoursLeft != 0.0 {
      Income.ConfigErrorIndependentOfHours(totalTime, totalTime + hoursLeft, w.env, convert);
    }
  }

  /** With no hours logged yet, the reported after-tax income is zero. */
  lemma NoHoursNoIncome(w: World, convert: real -> real)
    requires w.entries.Some? && Aggregation.SumRounded(w.entries.value) == 0.0
    requires Invocation(w, convert).result.Ok?
    ensures Invocation(w, convert).result.value.afterTaxes == 0.0
  {
  }
}

/**
  The first loop of HandleRequest: every time entry fetched for the month is
  snapped to the nearest quarter hour and the snapped values are summed.
  Hours are exact reals here; each entry is represented by its Hours field.
*/
module Aggregation {

  /** The granularity every entry is snapped to: a quarter of an hour. */
  const RoundDownTo: real := 0.25

  function Abs(x: real): real { if x < 0.0 then -x else x }

  /**
    Go's math.Round on an exact value: the nearest integer, with halves
    rounded away from zero.
  */
  function RoundHalfAway(x: real): (n: int)
    ensures -0.5 <= x - n as real <= 0.5
    ensures x - n as real == 0.5 ==> x < 0.0
    ensures n as real - x == 0.5 ==> x > 0.0
  {
    if x >= 0.0 then (x + 0.5).Floor else -((0.5 - x).Floor)
  }

  /** The three properties above pin the rounded value down: there is no other choice. */
  lemma RoundHalfAwayUnique(x: real, m: int)
    requires -0.5 <= x - m as real <= 0.5
    requires x - m as real == 0.5 ==> x < 0.0
    requires m as real - x == 0.5 ==> x > 0.0
    ensures m == RoundHalfAway(x)
  {
  }

  /** Rounding is symmetric around zero. */
  lemma RoundHalfAwayOdd(x: real)
    ensures RoundHalfAway(-x) == -RoundHalfAway(x)
  {
  }

  /** A value is a whole number of quarter hours. */
  predicate IsQuarterMultiple(x: real)
  {
    (x / RoundDownTo).Floor as real == x / RoundDownTo
  }

  /** One entry's contribution: its hours snapped to the nearest multiple of RoundDownTo. */
  function RoundToQuarter(h: real): (r: real)
    ensures IsQuarterMultiple(r)
    ensures -RoundDownTo / 2.0 <= r - h <= RoundDownTo / 2.0
    ensures r - h == RoundDownTo / 2.0 ==> h > 0.0
    ensures h - r == RoundDownTo / 2.0 ==> h < 0.0
  {
    RoundHalfAway(h / RoundDownTo) as real * RoundDownTo
  }

  /** No whole number of quarter hours is closer to the raw hours than the snapped value. */
  lemma RoundToQuarterNearest(h: real, k: int)
    ensures Abs(h - RoundToQuarter(h)) <= Abs(h - k as real * RoundDownTo)
  {
    var n := RoundHalfAway(h / RoundDownTo);
    var q := h / RoundDownTo;
    assert RoundToQuarter(h) == n as real * RoundDownTo;
    assert Abs(h - n as real * RoundDownTo) == Abs(q - n as real) * RoundDownTo;
    assert Abs(h - k as real * RoundDownTo) == Abs(q - k as real) * RoundDownTo;
    if k != n {
      assert Abs(q - k as real) >= 0.5;
    }
  }

  /** Whole quarter hours stay whole under addition. */
  lemma QuarterMultipleAdd(a: real, b: real)
    requires IsQuarterMultiple(a) && IsQuarterMultiple(b)
    ensures IsQuarterMultiple(a + b)
  {
    var k := (a / RoundDownTo).Floor + (b / RoundDownTo).Floor;
    calc {
      (a + b) / RoundDownTo;
      a / RoundDownTo + b / RoundDownTo;
      k as real;
    }
    assert (k as real).Floor == k;
  }

  /** The raw, unrounded total of the entries. */
  function Sum(hs: seq<real>): real
  {
    if hs == [] then 0.0 else Sum(hs[..|hs| - 1]) + hs[|hs| - 1]
  }

  /** The total the handler reports: the sum of the individually rounded entries, in order. */
  function SumRounded(hs: seq<real>): real
  {
    if hs == [] then 0.0 else SumRounded(hs[..|hs| - 1]) + RoundToQuarter(hs[|hs| - 1])
  }

  /** The total is itself a whole number of quarter hours. */
  lemma {:induction false} SumRoundedIsQuarterMultiple(hs: seq<real>)
    ensures IsQuarterMultiple(SumRounded(hs))
  {
    if hs != [] {
      SumRoundedIsQuarterMultiple(hs[..|hs| - 1]);
      QuarterMultipleAdd(SumRounded(hs[..|hs| - 1]), RoundToQuarter(hs[|hs| - 1]));
    }
  }

  /** Each entry moves the total by at most an eighth of an hour away from the raw sum. */
  lemma {:induction false} SumRoundedNearSum(hs: seq<real>)
    ensures Abs(SumRounded(hs) - Sum(hs)) <= (RoundDownTo / 2.0) * |hs| as real
  {
    if hs != [] {
      SumRoundedNearSum(hs[..|hs| - 1]);
    }
  }

  /** Entries that are not negative give a total that is not negative. */
  lemma {:induction false} SumRoundedNonNegative(hs: seq<real>)
    requires forall i :: 0 <= i < |hs| ==> hs[i] >= 0.0
    ensures SumRounded(hs) >= 0.0
  {
    if hs != [] {
      SumRoundedNonNegative(hs[..|hs| - 1]);
    }
  }

  /** Summing a split list gives the sum of the two parts' totals. */
  lemma {:induction false} SumRoundedAppend(a: seq<real>, b: seq<real>)
    ensures SumRounded(a + b) == SumRounded(a) + SumRounded(b)
  {
    if b != [] {
      assert (a + b)[..|a + b| - 1] == a + b[..|b| - 1];
      SumRoundedAppend(a, b[..|b| - 1]);
    } else {
      assert a + b == a;
    }
  }

  /** Two entries of 1.1 hours are each snapped down to 1.0, giving 2.0, not the 2.25 of rounding 2.2. */
  lemma SumOfRoundedNotRoundedSum()
    ensures SumRounded([1.1, 1.1]) == 2.0
    ensures RoundToQuarter(Sum([1.1, 1.1])) == 2.25
  {
    assert [1.1, 1.1][..1] == [1.1];
    assert [1.1][..0] == [];
    assert RoundHalfAway(4.4) == 4;
    assert RoundHalfAway(8.8) == 9;
  }

  /** The accumulation loop over the fetched entries. */
  method AggregateHours(entries: seq<real>) returns (totalTime: real)
    ensures totalTime == SumRounded(entries)
    ensures entries == [] ==> totalTime == 0.0
  {
    totalTime := 0.0;
    for i := 0 to |entries|
      invariant totalTime == SumRounded(entries[..i])
    {
      assert entries[..i + 1][..i] == entries[..i];
      totalTime := totalTime + RoundToQuarter(entries[i]);
    }
    assert entries[..|entries|] == entries;
  }
}

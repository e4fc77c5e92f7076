/**
  The second loop of HandleRequest: starting from the current instant it steps
  one day at a time up to the end of the month and credits a working day of
  hours to every day that is not a Saturday or a Sunday.

  Days are integer day numbers. The instant "now" and the last instant of the
  month are identified with the day they fall on; the weekday of a day is
  (day + offset) % 7, numbered as Go's time.Weekday numbers them.
*/
module Projection {

  /** Hours credited to every remaining working day. */
  const WorkHoursPerDay: real := 8.0

  const Sunday: int := 0
  const Saturday: int := 6

  /** Weekday of a day number, for the calendar whose day 0 has weekday `offset % 7`. */
  function Weekday(day: int, offset: int): (w: int)
    ensures 0 <= w < 7
  {
    (day + offset) % 7
  }

  /** The next day's weekday follows this one's, Saturday wrapping round to Sunday. */
  lemma WeekdayNext(day: int, offset: int)
    ensures Weekday(day + 1, offset)
         == if Weekday(day, offset) == Saturday then Sunday else Weekday(day, offset) + 1
  {
  }

  predicate IsWeekend(day: int, offset: int)
  {
    Weekday(day, offset) == Sunday || Weekday(day, offset) == Saturday
  }

  /** Number of days from `first` through `last` (both included) that fall Monday to Friday. */
  function BusinessDays(first: int, last: int, offset: int): (n: nat)
    ensures n <= if last < first then 0 else last - first + 1
    decreases last - first
  {
    if last < first then 0
    else BusinessDays(first, last - 1, offset) + (if IsWeekend(last, offset) then 0 else 1)
  }

  /** The same days, as a set: the reference the recursive count is checked against. */
  ghost function WorkDays(first: int, last: int, offset: int): set<int>
  {
    set d | first <= d <= last && !IsWeekend(d, offset)
  }

  lemma {:induction false} BusinessDaysCountsWorkDays(first: int, last: int, offset: int)
    ensures BusinessDays(first, last, offset) == |WorkDays(first, last, offset)|
    decreases last - first
  {
    if last < first {
      assert WorkDays(first, last, offset) == {};
    } else {
      BusinessDaysCountsWorkDays(first, last - 1, offset);
      var before := WorkDays(first, last - 1, offset);
      if IsWeekend(last, offset) {
        assert WorkDays(first, last, offset) == before;
      } else {
        assert WorkDays(first, last, offset) == before + {last};
        assert last !in before;
      }
    }
  }

  /** The hours the handler projects for the rest of the month. */
  function RemainingHours(now: int, endOfMonth: int, offset: int): real
  {
    WorkHoursPerDay * BusinessDays(now + 1, endOfMonth, offset) as real
  }

  /** The day-stepping loop: stops once the day is past the end of the month, skips weekends. */
  method HoursLeft(now: int, endOfMonth: int, offset: int) returns (hoursLeft: real)
    ensures hoursLeft == RemainingHours(now, endOfMonth, offset)
    ensures hoursLeft >= 0.0
    ensures now >= endOfMonth ==> hoursLeft == 0.0
  {
    var currentDay := now;
    hoursLeft := 0.0;
    while true
      invariant now <= currentDay
      invariant currentDay == now || currentDay <= endOfMonth
      invariant hoursLeft == WorkHoursPerDay * BusinessDays(now + 1, currentDay, offset) as real
      decreases endOfMonth - currentDay
    {
      currentDay := currentDay + 1;
      if currentDay > endOfMonth {
        break;
      }
      if IsWeekend(currentDay, offset) {
        continue;
      }
      hoursLeft := hoursLeft + WorkHoursPerDay;
    }
  }

  /** Splitting the window at any day splits the count. */
  lemma {:induction false} BusinessDaysSplit(first: int, mid: int, last: int, offset: int)
    requires first - 1 <= mid <= last
    ensures BusinessDays(first, last, offset)
         == BusinessDays(first, mid, offset) + BusinessDays(mid + 1, last, offset)
    decreases last - mid
  {
    if mid < last {
      BusinessDaysSplit(first, mid, last - 1, offset);
    }
  }

  /** Any seven consecutive days hold exactly five working days. */
  lemma FullWeekHasFiveBusinessDays(first: int, offset: int)
    ensures BusinessDays(first, first + 6, offset) == 5
  {
    WeekdayNext(first, offset);
    WeekdayNext(first + 1, offset);
    WeekdayNext(first + 2, offset);
    WeekdayNext(first + 3, offset);
    WeekdayNext(first + 4, offset);
    WeekdayNext(first + 5, offset);
    assert BusinessDays(first, first - 1, offset) == 0;
    var b0 := BusinessDays(first, first, offset);
    var b1 := BusinessDays(first, first + 1, offset);
    var b2 := BusinessDays(first, first + 2, offset);
    var b3 := BusinessDays(first, first + 3, offset);
    var b4 := BusinessDays(first, first + 4, offset);
    var b5 := BusinessDays(first, first + 5, offset);
    var b6 := BusinessDays(first, first + 6, offset);
  }

  /** Whole weeks contribute five working days each. */
  lemma {:induction false} FullWeeksHaveFiveBusinessDaysEach(first: int, weeks: nat, offset: int)
    ensures BusinessDays(first, first + 7 * weeks - 1, offset) == 5 * weeks
  {
    if weeks > 0 {
      FullWeeksHaveFiveBusinessDaysEach(first, weeks - 1, offset);
      BusinessDaysSplit(first, first + 7 * (weeks - 1) - 1, first + 7 * weeks - 1, offset);
      FullWeekHasFiveBusinessDays(first + 7 * (weeks - 1), offset);
    }
  }

  /** With the month ending a week after today, whatever today's weekday, 40 hours remain. */
  lemma WeekAheadIsFortyHours(now: int, offset: int)
    ensures RemainingHours(now, now + 7, offset) == 40.0
  {
    FullWeekHasFiveBusinessDays(now + 1, offset);
  }

  /** Extending the window by a weekend day adds nothing; by a weekday adds one working day. */
  lemma NextDayContribution(now: int, endOfMonth: int, offset: int)
    requires now < endOfMonth
    ensures IsWeekend(endOfMonth, offset) ==>
              RemainingHours(now, endOfMonth, offset) == RemainingHours(now, endOfMonth - 1, offset)
    ensures !IsWeekend(endOfMonth, offset) ==>
              RemainingHours(now, endOfMonth, offset)
              == RemainingHours(now, endOfMonth - 1, offset) + WorkHoursPerDay
  {
  }

  /** The projection is a whole number of working days and never exceeds a working day per remaining day. */
  lemma RemainingHoursBounds(now: int, endOfMonth: int, offset: int)
    ensures (RemainingHours(now, endOfMonth, offset) / WorkHoursPerDay).Floor as real
            == RemainingHours(now, endOfMonth, offset) / WorkHoursPerDay
    ensures 0.0 <= RemainingHours(now, endOfMonth, offset)
    ensures now <= endOfMonth ==>
              RemainingHours(now, endOfMonth, offset) <= WorkHoursPerDay * (endOfMonth - now) as real
  {
  }
}

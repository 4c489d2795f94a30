/**
 * Habit scheduling: the due date of a habit from its cycle and last
 * completion, the "due today" and "overdue" tests against the current
 * instant, and the completion record chosen from them.
 *
 * Calendar days are integers counting from 1970-01-01 (day 0, a Thursday);
 * instants are Unix times in nanoseconds. A day `d` starts at the UTC
 * instant `d * NanosPerDay`.
 */
module Schedule {
  import opened Wrappers
  import opened GoStrings
  import opened Cycles

  /** Day names to Go `time.Weekday` numbers (Sunday is 0). */
  const CycleMappings: map<string, int> :=
    map["sun" := 0, "mon" := 1, "tue" := 2, "wed" := 3, "thu" := 4, "fri" := 5, "sat" := 6]

  /** Go `time.Weekday` numbers to day names. */
  const ReverseCycleMappings: map<int, string> :=
    map[0 := "sun", 1 := "mon", 2 := "tue", 3 := "wed", 4 := "thu", 5 := "fri", 6 := "sat"]

  /** The two tables are mutually inverse bijections between the day names and 0..6. */
  lemma CycleMappingsInverse()
    ensures forall n :: n in ReverseCycleMappings <==> 0 <= n < 7
    ensures forall d :: d in CycleMappings <==> d in ValidCycles
    ensures forall d :: d in CycleMappings ==>
      CycleMappings[d] in ReverseCycleMappings && ReverseCycleMappings[CycleMappings[d]] == d
    ensures forall n :: n in ReverseCycleMappings ==>
      ReverseCycleMappings[n] in CycleMappings && CycleMappings[ReverseCycleMappings[n]] == n
  {
    assert ReverseCycleMappings.Keys == {0, 1, 2, 3, 4, 5, 6};
    assert CycleMappings.Keys == {"sun", "mon", "tue", "wed", "thu", "fri", "sat"};
    assert forall d :: d in ValidCycles <==> d in {"sun", "mon", "tue", "wed", "thu", "fri", "sat"};
    NamesRoundTrip();
    NumbersRoundTrip();
  }

  lemma NamesRoundTrip()
    ensures forall d :: d in CycleMappings ==>
      CycleMappings[d] in ReverseCycleMappings && ReverseCycleMappings[CycleMappings[d]] == d
  {
    assert CycleMappings.Keys == {"sun", "mon", "tue", "wed", "thu", "fri", "sat"};
  }

  lemma NumbersRoundTrip()
    ensures forall n :: n in ReverseCycleMappings ==>
      ReverseCycleMappings[n] in CycleMappings && CycleMappings[ReverseCycleMappings[n]] == n
  {
    assert ReverseCycleMappings.Keys == {0, 1, 2, 3, 4, 5, 6};
  }

  const NanosPerDay: int := 86_400_000_000_000

  /** `time.Weekday` of 1970-01-01, a Thursday. */
  const EpochWeekday: int := 4

  /** Go `time.Weekday` of a calendar day. */
  function Weekday(day: int): (w: int)
    ensures 0 <= w < 7
    ensures day == 0 ==> w == EpochWeekday
  {
    (day + EpochWeekday) % 7
  }

  /**
   * The weekday advances by one, modulo seven, from each day to the next,
   * starting from a Thursday at day 0; the week repeats every seven days.
   */
  lemma WeekdayLaws(day: int)
    ensures Weekday(0) == 4
    ensures Weekday(day + 1) == (Weekday(day) + 1) % 7
    ensures Weekday(day + 7) == Weekday(day)
  {
    var w := Weekday(day);
    var q := (day + EpochWeekday) / 7;
    assert day + EpochWeekday == 7 * q + w;
    if w < 6 {
      ModSeven(day + 1 + EpochWeekday, q, w + 1);
    } else {
      ModSeven(day + 1 + EpochWeekday, q + 1, 0);
    }
    ModSeven(day + 7 + EpochWeekday, q + 1, w);
  }

  /** The remainder modulo seven, read off a known quotient. */
  lemma ModSeven(n: int, q: int, r: int)
    requires n == 7 * q + r && 0 <= r < 7
    ensures n % 7 == r
  {
  }

  /** `reverseCycleMappings[int(ts.Weekday())]`. */
  function DayName(day: int): (name: string)
    ensures name in ValidCycles
    ensures name in CycleMappings && CycleMappings[name] == Weekday(day)
  {
    CycleMappingsInverse();
    ReverseCycleMappings[Weekday(day)]
  }

  /** The fields of a habit that scheduling reads. */
  datatype Habit = Habit(habitCycle: string, lastCompleted: Option<int>)

  /**
   * The first day examined: the day after the last completion, or the day
   * after the local "today" for a habit never completed.
   */
  function StartDay(habit: Habit, localToday: int): (start: int)
    ensures habit.lastCompleted.Some? ==> start == habit.lastCompleted.value + 1
    ensures habit.lastCompleted.None? ==> start == localToday + 1
  {
    match habit.lastCompleted
    case Some(day) => day + 1
    case None => localToday + 1
  }

  /** Day `day` is a cycle day: its name equals some comma piece exactly. */
  predicate OnCycle(pieces: seq<string>, day: int) {
    SliceContains(pieces, DayName(day))
  }

  /**
   * The search loop stops: some piece is an exact lower-case day name.
   * Otherwise the source loops for ever.
   */
  predicate Schedulable(cycle: string) {
    exists i :: 0 <= i < |Pieces(cycle)| && Pieces(cycle)[i] in CycleMappings
  }

  /** Every week-long window holds a day of a schedulable cycle. */
  lemma WeekCovers(cycle: string, start: int)
    requires Schedulable(cycle)
    ensures exists k :: start <= k < start + 7 && OnCycle(Pieces(cycle), k)
  {
    var pieces := Pieces(cycle);
    var i :| 0 <= i < |pieces| && pieces[i] in CycleMappings;
    CycleMappingsInverse();
    var w := CycleMappings[pieces[i]];
    var k := WeekdayWithinWeek(start, w);
    assert DayName(k) == pieces[i];
    assert OnCycle(Pieces(cycle), k);
    assert start <= k < start + 7;
  }

  /** Every weekday number is met within seven days of any start. */
  lemma WeekdayWithinWeek(start: int, w: int) returns (k: int)
    requires 0 <= w < 7
    ensures start <= k < start + 7 && Weekday(k) == w
  {
    var x := start + EpochWeekday;
    var q := x / 7;
    var a := x % 7;
    assert x == 7 * q + a;
    if w >= a {
      k := start + (w - a);
      ModSeven(k + EpochWeekday, q, w);
    } else {
      k := start + (w - a + 7);
      ModSeven(k + EpochWeekday, q + 1, w);
    }
  }

  /**
   * The loop of `getHabitDueDate` from day `d` on, given that no day of
   * `[start, d)` is a cycle day: the first cycle day at or after `d`.
   */
  function FirstCycleDay(cycle: string, start: int, d: int): (day: int)
    requires Schedulable(cycle)
    requires start <= d < start + 7
    requires forall k :: start <= k < d ==> !OnCycle(Pieces(cycle), k)
    ensures d <= day < start + 7
    ensures OnCycle(Pieces(cycle), day)
    ensures forall k :: start <= k < day ==> !OnCycle(Pieces(cycle), k)
    decreases start + 7 - d
  {
    if OnCycle(Pieces(cycle), d) then d
    else
      WeekCovers(cycle, start);
      FirstCycleDay(cycle, start, d + 1)
  }

  /**
   * `getHabitDueDate`: the day after the first cycle day at or after the
   * start day, as the day whose midnight (UTC) is returned.
   */
  function DueDate(habit: Habit, localToday: int): (due: int)
    requires Schedulable(habit.habitCycle)
    ensures StartDay(habit, localToday) + 1 <= due <= StartDay(habit, localToday) + 7
    ensures OnCycle(Pieces(habit.habitCycle), due - 1)
    ensures forall k :: StartDay(habit, localToday) <= k < due - 1 ==> !OnCycle(Pieces(habit.habitCycle), k)
  {
    var start := StartDay(habit, localToday);
    FirstCycleDay(habit.habitCycle, start, start) + 1
  }

  /** The UTC calendar day of an instant. */
  function UtcDay(now: int): int {
    now / NanosPerDay
  }

  /**
   * `habitDueToday`: the due date is the midnight starting tomorrow (UTC),
   * that is, the instant lies inside the habit's scheduled day.
   */
  function HabitDueToday(habit: Habit, localToday: int, now: int): (r: bool)
    requires Schedulable(habit.habitCycle)
    ensures r <==> (DueDate(habit, localToday) - 1) * NanosPerDay <= now < DueDate(habit, localToday) * NanosPerDay
  {
    var due := DueDate(habit, localToday);
    DayBounds(now, due - 1);
    due == UtcDay(now) + 1
  }

  /** `habitOverdue`: the instant is strictly after the due midnight. */
  function HabitOverdue(habit: Habit, localToday: int, now: int): (r: bool)
    requires Schedulable(habit.habitCycle)
    ensures r ==> UtcDay(now) >= DueDate(habit, localToday)
    ensures UtcDay(now) > DueDate(habit, localToday) ==> r
    ensures UtcDay(now) == DueDate(habit, localToday) ==> (r <==> now != DueDate(habit, localToday) * NanosPerDay)
  {
    var due := DueDate(habit, localToday);
    DayBounds(now, UtcDay(now));
    now > due * NanosPerDay
  }

  /** An instant lies in day `d` exactly when its UTC day is `d`. */
  lemma DayBounds(now: int, d: int)
    ensures UtcDay(now) == d <==> d * NanosPerDay <= now < (d + 1) * NanosPerDay
  {
    var q := UtcDay(now);
    assert q * NanosPerDay <= now < (q + 1) * NanosPerDay;
    if q < d {
      assert (q + 1) * NanosPerDay <= d * NanosPerDay;
    } else if q > d {
      assert (d + 1) * NanosPerDay <= q * NanosPerDay;
    }
  }

  /** The due date is the only day meeting the bounds and minimality of `DueDate`. */
  lemma DueDateUnique(habit: Habit, localToday: int, x: int)
    requires Schedulable(habit.habitCycle)
    requires StartDay(habit, localToday) + 1 <= x
    requires OnCycle(Pieces(habit.habitCycle), x - 1)
    requires forall k :: StartDay(habit, localToday) <= k < x - 1 ==> !OnCycle(Pieces(habit.habitCycle), k)
    ensures x == DueDate(habit, localToday)
  {
  }

  /** A cycle that passed validation is schedulable once normalised, as stored. */
  lemma NormalisedValidCycleIsSchedulable(cycle: string)
    requires IsValidCycle(cycle)
    ensures Schedulable(OrderCyclesString(cycle))
  {
    OrderCyclesStringOfValid(cycle);
    var pieces := Pieces(OrderCyclesString(cycle));
    assert pieces[0] in OrderCyclesSlice(cycle);
    CycleMappingsInverse();
    assert pieces[0] in CycleMappings;
  }

  /** Validation alone is not enough: "MON" is valid but matches no day exactly. */
  lemma ValidButUnschedulable(cycle: string)
    requires cycle == "MON"
    ensures IsValidCycle(cycle)
    ensures !Schedulable(cycle)
  {
    ValidCycleIgnoresCase(cycle);
    PiecesOfJoin(cycle, ["MON"]);
  }

  /** For one instant, a habit due today is never overdue. */
  lemma DueTodayNotOverdue(habit: Habit, localToday: int, now: int)
    requires Schedulable(habit.habitCycle)
    requires HabitDueToday(habit, localToday, now)
    ensures !HabitOverdue(habit, localToday, now)
  {
  }

  /** The two flags recorded with a completion, in `CompleteUserHabit` order. */
  datatype Completion = Completion(onTarget: bool, streak: bool)

  /**
   * The clock readings `completeHabit` depends on. `habitDueToday` and
   * `habitOverdue` each call `getHabitDueDate`, which reads the local date
   * for a never-completed habit, and each then reads the UTC instant: four
   * separate calls to `time.Now()`.
   */
  datatype Clock = Clock(dueTodayLocal: int, dueTodayAt: int, overdueLocal: int, overdueAt: int)

  /**
   * `completeHabit`: the habit lookup's error is returned as is; otherwise
   * the completion flags chosen by the due-today and overdue tests.
   */
  function CompleteHabit(lookup: Result<Habit, string>, clock: Clock): (r: Result<Completion, string>)
    requires lookup.Success? ==> Schedulable(lookup.value.habitCycle)
    ensures lookup.Failure? <==> r.Failure?
    ensures lookup.Failure? ==> r.error == lookup.error
    ensures r.Success? ==> r.value != Completion(false, false)
    ensures r.Success? ==>
      (!r.value.onTarget <==> HabitOverdue(lookup.value, clock.overdueLocal, clock.overdueAt))
    ensures r.Success? ==>
      (!r.value.streak <==>
        !HabitDueToday(lookup.value, clock.dueTodayLocal, clock.dueTodayAt) &&
        !HabitOverdue(lookup.value, clock.overdueLocal, clock.overdueAt))
  {
    match lookup
    case Failure(err) => Failure(err)
    case Success(habit) =>
      if HabitDueToday(habit, clock.dueTodayLocal, clock.dueTodayAt) then
        if !HabitOverdue(habit, clock.overdueLocal, clock.overdueAt) then Success(Completion(true, true))
        else Success(Completion(false, true))
      else if HabitOverdue(habit, clock.overdueLocal, clock.overdueAt) then Success(Completion(false, true))
      else Success(Completion(true, false))
  }

  /** With a single reading of the clock, the three outcomes of `completeHabit`. */
  lemma CompleteHabitOneInstant(habit: Habit, localToday: int, now: int)
    requires Schedulable(habit.habitCycle)
    ensures var r := CompleteHabit(Success(habit), Clock(localToday, now, localToday, now));
      && (HabitDueToday(habit, localToday, now) ==> r == Success(Completion(true, true)))
      && (!HabitDueToday(habit, localToday, now) && HabitOverdue(habit, localToday, now) ==>
            r == Success(Completion(false, true)))
      && (!HabitDueToday(habit, localToday, now) && !HabitOverdue(habit, localToday, now) ==>
            r == Success(Completion(true, false)))
  {
    if HabitDueToday(habit, localToday, now) {
      DueTodayNotOverdue(habit, localToday, now);
    }
  }

  /** A later local date never moves the due date earlier. */
  lemma DueDateMonotone(habit: Habit, local1: int, local2: int)
    requires Schedulable(habit.habitCycle)
    requires local1 <= local2
    ensures DueDate(habit, local1) <= DueDate(habit, local2)
  {
    var due2 := DueDate(habit, local2);
    assert StartDay(habit, local1) <= due2 - 1 && OnCycle(Pieces(habit.habitCycle), due2 - 1);
  }

  /**
   * The "due today but overdue" branch needs the overdue test's instant to
   * be past the midnight ending the due-today test's UTC day, when the
   * local date does not go backwards between the two tests.
   */
  lemma OverdueAfterDueTodayNeedsNextDay(habit: Habit, clock: Clock)
    requires Schedulable(habit.habitCycle)
    requires clock.dueTodayLocal <= clock.overdueLocal
    requires HabitDueToday(habit, clock.dueTodayLocal, clock.dueTodayAt)
    requires HabitOverdue(habit, clock.overdueLocal, clock.overdueAt)
    ensures clock.overdueAt > (UtcDay(clock.dueTodayAt) + 1) * NanosPerDay
    ensures clock.overdueAt > clock.dueTodayAt
  {
    var due := DueDate(habit, clock.dueTodayLocal);
    DueDateMonotone(habit, clock.dueTodayLocal, clock.overdueLocal);
    DayBounds(clock.dueTodayAt, due - 1);
  }
}

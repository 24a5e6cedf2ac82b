/**
 * `SchedulingTrigger`: when and how often a task should run. Daily, Weekly
 * and Monthly recurrence are mutually exclusive, and so are the day of the
 * month and the n-th weekday of a `MonthlyTrigger`; the setters throw
 * rather than let two be set at once. `ToString` renders the trigger as an
 * English sentence.
 *
 * The C# structs (`DailyTrigger`, `WeeklyTrigger`, `RepeatEvery`, ...) are
 * values and become datatypes. `MonthlyTrigger` is a struct whose setters
 * guard its two fields, so it is a class here; assigning it to the trigger
 * copies it, so the trigger keeps a `Monthly` value, never the object.
 */
module SchedulingTriggers {
  import opened Wrappers
  import opened Text

  // =====================================================================
  // Values

  datatype HoursOrMinutes = Minutes | Hours

  /** `System.DayOfWeek`. */
  datatype DayOfWeek = Sunday | Monday | Tuesday | Wednesday | Thursday | Friday | Saturday

  /** The name of a `DayOfWeek` value, as `StringBuilder.Append` renders an enum. */
  function DayName(d: DayOfWeek): string {
    match d
    case Sunday => "Sunday"
    case Monday => "Monday"
    case Tuesday => "Tuesday"
    case Wednesday => "Wednesday"
    case Thursday => "Thursday"
    case Friday => "Friday"
    case Saturday => "Saturday"
  }

  /** The `DayOfWeekFlag` bit of each day: Sunday is bit 0, Saturday bit 6. */
  function Flag(d: DayOfWeek): bv32 {
    match d
    case Sunday => 1 << 0
    case Monday => 1 << 1
    case Tuesday => 1 << 2
    case Wednesday => 1 << 3
    case Thursday => 1 << 4
    case Friday => 1 << 5
    case Saturday => 1 << 6
  }

  /** `(flags & day) == day`. */
  predicate HasDay(flags: bv32, d: DayOfWeek) {
    flags & Flag(d) == Flag(d)
  }

  datatype WeekOfMonth = First | Second | Third | Fourth | Last

  function WeekOfMonthName(w: WeekOfMonth): string {
    match w
    case First => "first"
    case Second => "second"
    case Third => "third"
    case Fourth => "fourth"
    case Last => "last"
  }

  /** A point in time, in 100-nanosecond ticks. */
  datatype DateTime = DateTime(ticks: int)

  /** A duration, in 100-nanosecond ticks. */
  datatype TimeSpan = TimeSpan(ticks: int)

  const TicksPerHour: int := 36_000_000_000

  /** `DateTime.AddHours` for a whole number of hours. */
  function AddHours(t: DateTime, hours: int): DateTime {
    DateTime(t.ticks + hours * TicksPerHour)
  }

  datatype RepeatEvery = RepeatEvery(number: int, hoursOrMinutes: HoursOrMinutes)
  datatype RepeatUntil = RepeatUntil(time: Option<DateTime>, duration: Option<TimeSpan>)
  datatype DailyTrigger = DailyTrigger(everyNDays: int)
  datatype WeeklyTrigger = WeeklyTrigger(everyNWeeks: int, daysOfWeek: bv32)
  datatype NthWeeklyDayOfWeek = NthWeeklyDayOfWeek(nthMonthlyWeek: WeekOfMonth, dayOfWeek: DayOfWeek)

  /**
   * The culture-dependent renderings the trigger text uses:
   * `ToShortDateString`, `ToShortTimeString` and `TimeSpan.ToString`.
   */
  datatype Formats = Formats(shortDate: DateTime -> string, shortTime: DateTime -> string,
                             span: TimeSpan -> string)

  const MutuallyExclusiveMessage: string := "Daily, Weekly, and Monthly are mutually exclusive."
  const MonthlyExclusiveMessage: string := "DayOfMonth and DayOfWeek are mutually exclusive"
  /** The message of an `InvalidOperationException` constructed without one. */
  const DefaultInvalidOperationMessage: string := "Operation is not valid due to the current state of the object."

  // =====================================================================
  // MonthlyTrigger

  /** A copy of a `MonthlyTrigger` struct. */
  datatype Monthly = Monthly(dayOfMonth: Option<int>, dayOfWeek: Option<NthWeeklyDayOfWeek>) {
    /** At most one of the two ways to pick a day is set. */
    predicate Exclusive() {
      dayOfMonth.None? || dayOfWeek.None?
    }
  }

  /** The `DayOfMonth` setter on a monthly value. */
  function WithDayOfMonth(m: Monthly, value: Option<int>): (r: Result<Monthly>)
    ensures r.Failure? <==> value.Some? && m.dayOfWeek.Some?
    ensures r.Failure? ==> r.error == InvalidOperation(MonthlyExclusiveMessage)
    ensures r.Success? ==> r.value.dayOfMonth == value && r.value.dayOfWeek == m.dayOfWeek
    ensures r.Success? && m.Exclusive() ==> r.value.Exclusive()
  {
    if value.Some? && m.dayOfWeek.Some? then Failure(InvalidOperation(MonthlyExclusiveMessage))
    else Success(m.(dayOfMonth := value))
  }

  /** The `DayOfWeek` setter on a monthly value. */
  function WithDayOfWeek(m: Monthly, value: Option<NthWeeklyDayOfWeek>): (r: Result<Monthly>)
    ensures r.Failure? <==> value.Some? && m.dayOfMonth.Some?
    ensures r.Failure? ==> r.error == InvalidOperation(MonthlyExclusiveMessage)
    ensures r.Success? ==> r.value.dayOfWeek == value && r.value.dayOfMonth == m.dayOfMonth
    ensures r.Success? && m.Exclusive() ==> r.value.Exclusive()
  {
    if value.Some? && m.dayOfMonth.Some? then Failure(InvalidOperation(MonthlyExclusiveMessage))
    else Success(m.(dayOfWeek := value))
  }

  /** The `MonthlyTrigger` struct, held in a variable whose setters guard its fields. */
  class MonthlyTrigger {
    var dayOfMonth: Option<int>
    var dayOfWeek: Option<NthWeeklyDayOfWeek>

    function Value(): Monthly
      reads this
    {
      Monthly(dayOfMonth, dayOfWeek)
    }

    predicate Valid()
      reads this
    {
      Value().Exclusive()
    }

    /** `default(MonthlyTrigger)`: neither field set. */
    constructor()
      ensures Value() == Monthly(None, None) && Valid()
    {
      dayOfMonth := None;
      dayOfWeek := None;
    }

    method SetDayOfMonth(value: Option<int>) returns (o: Outcome)
      modifies this
      ensures var r := WithDayOfMonth(old(Value()), value);
              (o == Pass <==> r.Success?) && (r.Failure? ==> o == Fail(r.error))
              && Value() == (if r.Success? then r.value else old(Value()))
      ensures old(Valid()) ==> Valid()
    {
      if value.Some? {
        if dayOfWeek.Some? {
          return Fail(InvalidOperation(MonthlyExclusiveMessage));
        }
        dayOfMonth := value;
      } else {
        dayOfMonth := None;
      }
      return Pass;
    }

    method SetDayOfWeek(value: Option<NthWeeklyDayOfWeek>) returns (o: Outcome)
      modifies this
      ensures var r := WithDayOfWeek(old(Value()), value);
              (o == Pass <==> r.Success?) && (r.Failure? ==> o == Fail(r.error))
              && Value() == (if r.Success? then r.value else old(Value()))
      ensures old(Valid()) ==> Valid()
    {
      if value.Some? {
        if dayOfMonth.Some? {
          return Fail(InvalidOperation(MonthlyExclusiveMessage));
        }
        dayOfWeek := value;
      } else {
        dayOfWeek := None;
      }
      return Pass;
    }
  }

  // =====================================================================
  // SchedulingTrigger: state and setters

  /** The state of a `SchedulingTrigger`. */
  datatype Trigger = Trigger(
    startDateTime: DateTime,
    endDateTime: Option<DateTime>,
    repeatTask: bool,
    every: Option<RepeatEvery>,
    until: Option<RepeatUntil>,
    daily: Option<DailyTrigger>,
    weekly: Option<WeeklyTrigger>,
    monthly: Option<Monthly>)
  {
    /** At most one of Daily, Weekly and Monthly is set. */
    predicate Exclusive() {
      && (daily.Some? ==> weekly.None? && monthly.None?)
      && (weekly.Some? ==> monthly.None?)
    }
  }

  /** The `Daily` setter. */
  function WithDaily(t: Trigger, value: Option<DailyTrigger>): (r: Result<Trigger>)
    ensures r.Failure? <==> value.Some? && (t.weekly.Some? || t.monthly.Some?)
    ensures r.Failure? ==> r.error == InvalidOperation(MutuallyExclusiveMessage)
    ensures r.Success? ==> r.value.daily == value && r.value.(daily := t.daily) == t
    ensures r.Success? && t.Exclusive() ==> r.value.Exclusive()
  {
    if value.Some? && (t.weekly.Some? || t.monthly.Some?) then
      Failure(InvalidOperation(MutuallyExclusiveMessage))
    else Success(t.(daily := value))
  }

  /** The `Weekly` setter. */
  function WithWeekly(t: Trigger, value: Option<WeeklyTrigger>): (r: Result<Trigger>)
    ensures r.Failure? <==> value.Some? && (t.daily.Some? || t.monthly.Some?)
    ensures r.Failure? ==> r.error == InvalidOperation(MutuallyExclusiveMessage)
    ensures r.Success? ==> r.value.weekly == value && r.value.(weekly := t.weekly) == t
    ensures r.Success? && t.Exclusive() ==> r.value.Exclusive()
  {
    if value.Some? && (t.daily.Some? || t.monthly.Some?) then
      Failure(InvalidOperation(MutuallyExclusiveMessage))
    else Success(t.(weekly := value))
  }

  /** The `Monthly` setter. */
  function WithMonthly(t: Trigger, value: Option<Monthly>): (r: Result<Trigger>)
    ensures r.Failure? <==> value.Some? && (t.daily.Some? || t.weekly.Some?)
    ensures r.Failure? ==> r.error == InvalidOperation(MutuallyExclusiveMessage)
    ensures r.Success? ==> r.value.monthly == value && r.value.(monthly := t.monthly) == t
    ensures r.Success? && t.Exclusive() ==> r.value.Exclusive()
  {
    if value.Some? && (t.daily.Some? || t.weekly.Some?) then
      Failure(InvalidOperation(MutuallyExclusiveMessage))
    else Success(t.(monthly := value))
  }

  /**
   * Whatever the order of the assignments, an exclusive trigger never has a
   * second recurrence set: once one is set, setting another one fails until
   * the first is set to null.
   */
  lemma {:induction false} SettersKeepExclusive(t: Trigger, steps: seq<Setter>)
    requires t.Exclusive()
    ensures Apply(t, steps).Exclusive()
    decreases |steps|
  {
    if steps != [] {
      var next := Step(t, steps[0]);
      assert next.Exclusive();
      SettersKeepExclusive(next, steps[1..]);
    }
  }

  /** One assignment to the Daily, Weekly or Monthly property. */
  datatype Setter = SetDaily(d: Option<DailyTrigger>) | SetWeekly(w: Option<WeeklyTrigger>)
                  | SetMonthly(m: Option<Monthly>)

  /** The state after one assignment; a failed assignment leaves it as it was. */
  function Step(t: Trigger, s: Setter): Trigger {
    var r := match s
      case SetDaily(d) => WithDaily(t, d)
      case SetWeekly(w) => WithWeekly(t, w)
      case SetMonthly(m) => WithMonthly(t, m);
    if r.Success? then r.value else t
  }

  /** The state after a sequence of assignments, each caught if it throws. */
  function Apply(t: Trigger, steps: seq<Setter>): Trigger
    decreases |steps|
  {
    if steps == [] then t else Apply(Step(t, steps[0]), steps[1..])
  }

  /** A `SchedulingTrigger` object. */
  class SchedulingTrigger {
    var startDateTime: DateTime
    var endDateTime: Option<DateTime>
    var repeatTask: bool
    var every: Option<RepeatEvery>
    var until: Option<RepeatUntil>
    var daily: Option<DailyTrigger>
    var weekly: Option<WeeklyTrigger>
    var monthly: Option<Monthly>

    function Value(): Trigger
      reads this
    {
      Trigger(startDateTime, endDateTime, repeatTask, every, until, daily, weekly, monthly)
    }

    predicate Valid()
      reads this
    {
      Value().Exclusive()
    }

    /** `new SchedulingTrigger()`: every property at its default. */
    constructor()
      ensures Value() == Trigger(DateTime(0), None, false, None, None, None, None, None) && Valid()
    {
      startDateTime := DateTime(0);
      endDateTime := None;
      repeatTask := false;
      every := None;
      until := None;
      daily := None;
      weekly := None;
      monthly := None;
    }

    method SetDaily(value: Option<DailyTrigger>) returns (o: Outcome)
      modifies this
      ensures var r := WithDaily(old(Value()), value);
              (o == Pass <==> r.Success?) && (r.Failure? ==> o == Fail(r.error))
              && Value() == (if r.Success? then r.value else old(Value()))
      ensures old(Valid()) ==> Valid()
    {
      if value.Some? {
        if weekly.Some? || monthly.Some? {
          return Fail(InvalidOperation(MutuallyExclusiveMessage));
        }
        daily := value;
      } else {
        daily := None;
      }
      return Pass;
    }

    method SetWeekly(value: Option<WeeklyTrigger>) returns (o: Outcome)
      modifies this
      ensures var r := WithWeekly(old(Value()), value);
              (o == Pass <==> r.Success?) && (r.Failure? ==> o == Fail(r.error))
              && Value() == (if r.Success? then r.value else old(Value()))
      ensures old(Valid()) ==> Valid()
    {
      if value.Some? {
        if daily.Some? || monthly.Some? {
          return Fail(InvalidOperation(MutuallyExclusiveMessage));
        }
        weekly := value;
      } else {
        weekly := None;
      }
      return Pass;
    }

    method SetMonthly(value: Option<Monthly>) returns (o: Outcome)
      modifies this
      ensures var r := WithMonthly(old(Value()), value);
              (o == Pass <==> r.Success?) && (r.Failure? ==> o == Fail(r.error))
              && Value() == (if r.Success? then r.value else old(Value()))
      ensures old(Valid()) ==> Valid()
    {
      if value.Some? {
        if daily.Some? || weekly.Some? {
          return Fail(InvalidOperation(MutuallyExclusiveMessage));
        }
        monthly := value;
      } else {
        monthly := None;
      }
      return Pass;
    }

    /** `ToString`: the trigger as a sentence, built up in a `StringBuilder`. */
    method ToString(fmt: Formats) returns (r: Result<string>)
      ensures r == Describe(Value(), fmt)
    {
      ghost var t := Value();
      var head := AppendHeadline("");
      if head.Failure? {
        return Failure(head.error);
      }
      var sb := head.value;
      ghost var h := sb;
      assert h == Headline(t).value by {
        assert "" + Headline(t).value == Headline(t).value;
      }
      var date, time := ", starting on " + fmt.shortDate(startDateTime), " at " + fmt.shortTime(startDateTime);
      sb := sb + date;
      sb := sb + time;
      assert StartPart(t, fmt) == date + time;
      assert sb == h + (date + time);
      r := AppendRepeat(sb, fmt);
    }

    /** The first part of `ToString`: the recurrence, appended to `sb`. */
    method AppendHeadline(sb: string) returns (r: Result<string>)
      ensures Headline(Value()).Failure? ==> r == Failure(Headline(Value()).error)
      ensures Headline(Value()).Success? ==> r == Success(sb + Headline(Value()).value)
    {
      ghost var t := Value();
      var text := "";
      if daily.Some? {
        text := if daily.value.everyNDays == 1 then "Run every day"
                else "Run every " + IntToString(daily.value.everyNDays) + " days";
      } else if weekly.Some? {
        var weeklyText := WeeklyText(weekly.value);
        if weeklyText.Failure? {
          return Failure(weeklyText.error);
        }
        text := weeklyText.value;
      } else if monthly.Some? {
        if monthly.value.dayOfMonth.Some? {
          text := "Run every " + IntToString(monthly.value.dayOfMonth.value) + " day of the month";
        } else if monthly.value.dayOfWeek.Some? {
          text := "Run the ";
          text := text + WeekOfMonthName(monthly.value.dayOfWeek.value.nthMonthlyWeek);
          text := text + " week of the month on ";
          text := text + DayName(monthly.value.dayOfWeek.value.dayOfWeek);
        } else {
          return Failure(InvalidOperation(DefaultInvalidOperationMessage));
        }
      } else {
        return Failure(InvalidOperation(DefaultInvalidOperationMessage));
      }
      assert text == Headline(t).value;
      return Success(sb + text);
    }

    /** The rest of `ToString`: the repetition within the day and its end, appended to `sb`. */
    method AppendRepeat(sb: string, fmt: Formats) returns (r: Result<string>)
      ensures RepeatPart(Value(), fmt).Failure? ==> r == Failure(RepeatPart(Value(), fmt).error)
      ensures RepeatPart(Value(), fmt).Success? ==> r == Success(sb + RepeatPart(Value(), fmt).value)
    {
      ghost var t := Value();
      if !repeatTask {
        assert sb + "" == sb;
        return Success(sb);
      }
      var text := "";
      if every.Some? {
        text := ", repeating every ";
        if every.value.number == 1 {
          text := text + if every.value.hoursOrMinutes == Minutes then "minute" else "hour";
        } else {
          text := text + if every.value.hoursOrMinutes == Minutes
                         then IntToString(every.value.number) + " minutes"
                         else IntToString(every.value.number) + " hours";
        }
      }
      assert text == if every.Some? then EveryPart(every.value) else "";

      if until.None? {
        return Success(sb + text);
      }
      ghost var repeated := text;
      if until.value.duration.Some? {
        text := text + " for ";
        text := text + fmt.span(until.value.duration.value);
      } else if until.value.time.Some? {
        text := text + " until ";
        text := text + fmt.shortDate(until.value.time.value);
      } else {
        return Failure(InvalidOperation(DefaultInvalidOperationMessage));
      }
      assert text == repeated + UntilPart(t.until.value, fmt).value;
      assert RepeatPart(t, fmt).value == text;
      return Success(sb + text);
    }
  }

  /** The weekly branch of `ToString`: the period, then the days it runs on. */
  method WeeklyText(w: WeeklyTrigger) returns (r: Result<string>)
    ensures r == WeeklyHeadline(w)
  {
    var text := if w.everyNWeeks == 1 then "Run every week"
                else "Run every " + IntToString(w.everyNWeeks) + " weeks";
    assert text == EveryN(w.everyNWeeks, "week", " weeks");
    text := text + " on ";
    var days := ListDays(w.daysOfWeek);
    ghost var listed := text;
    if |days| > 1 {
      text := text + Join(", ", days[..|days| - 1]);
      text := text + if |days| - 1 > 1 then ", and " else " and ";
      text := text + days[|days| - 1];
    } else if |days| == 1 {
      text := text + days[0];
    } else {
      return Failure(ArgumentOutOfRange("index"));
    }
    assert text == listed + DayList(days).value;
    return Success(text);
  }

  /** The `days` list of `ToString`: one test per day flag, Monday first and Sunday last. */
  method ListDays(flags: bv32) returns (days: seq<string>)
    ensures days == Names(WeeklyDays(flags))
  {
    days := [];
    days := AddDayIfSet(flags, 0, Monday, "Monday", days);
    days := AddDayIfSet(flags, 1, Tuesday, "Tuesday", days);
    days := AddDayIfSet(flags, 2, Wednesday, "Wednesday", days);
    days := AddDayIfSet(flags, 3, Thursday, "Thursday", days);
    days := AddDayIfSet(flags, 4, Friday, "Friday", days);
    days := AddDayIfSet(flags, 5, Saturday, "Saturday", days);
    days := AddDayIfSet(flags, 6, Sunday, "Sunday", days);
  }

  /** One of the seven tests of `ToString`: the day's name is added when its flag is set. */
  method AddDayIfSet(flags: bv32, k: nat, d: DayOfWeek, name: string, days: seq<string>) returns (r: seq<string>)
    requires k < 7 && d == ListingDay(k) && name == DayName(d)
    requires days == Names(SelectDays(flags, k))
    ensures r == Names(SelectDays(flags, k + 1))
  {
    ListingStep(flags, k, days);
    r := days;
    if HasDay(flags, d) {
      r := r + [name];
    }
  }

  // =====================================================================
  // ToString: specification

  /** The position of a day in the weekly text: Monday first, Sunday last. */
  function ListingRank(d: DayOfWeek): nat {
    match d
    case Monday => 0
    case Tuesday => 1
    case Wednesday => 2
    case Thursday => 3
    case Friday => 4
    case Saturday => 5
    case Sunday => 6
  }

  /** The day at a position of the weekly text. */
  function ListingDay(i: nat): (d: DayOfWeek)
    requires i < 7
    ensures ListingRank(d) == i
  {
    match i
    case 0 => Monday
    case 1 => Tuesday
    case 2 => Wednesday
    case 3 => Thursday
    case 4 => Friday
    case 5 => Saturday
    case _ => Sunday
  }

  /** The day, if its flag is set. */
  function Pick(flags: bv32, d: DayOfWeek): seq<DayOfWeek> {
    if HasDay(flags, d) then [d] else []
  }

  /** The days among the first `k` positions of the weekly text whose flag is set, in that order. */
  function SelectDays(flags: bv32, k: nat): seq<DayOfWeek>
    requires k <= 7
  {
    if k == 0 then [] else SelectDays(flags, k - 1) + Pick(flags, ListingDay(k - 1))
  }

  /** The days a weekly trigger runs on, in listing order. */
  function WeeklyDays(flags: bv32): seq<DayOfWeek> {
    SelectDays(flags, 7)
  }

  /** The names of the days, in the same order. */
  function Names(days: seq<DayOfWeek>): (r: seq<string>)
    ensures |r| == |days|
  {
    if days == [] then [] else Names(days[..|days| - 1]) + [DayName(days[|days| - 1])]
  }

  /** One of the seven tests of `ToString`: the day at position `k` is listed if its flag is set. */
  lemma ListingStep(flags: bv32, k: nat, days: seq<string>)
    requires k < 7 && days == Names(SelectDays(flags, k))
    ensures HasDay(flags, ListingDay(k)) ==> days + [DayName(ListingDay(k))] == Names(SelectDays(flags, k + 1))
    ensures !HasDay(flags, ListingDay(k)) ==> days == Names(SelectDays(flags, k + 1))
  {
    var prefix := SelectDays(flags, k);
    var d := ListingDay(k);
    if HasDay(flags, d) {
      assert (prefix + [d])[..|prefix|] == prefix;
    } else {
      assert prefix + [] == prefix;
    }
  }

  /**
   * The weekly list holds exactly the days whose flag is set, each once,
   * Monday through Saturday and then Sunday.
   */
  lemma {:induction false} SelectDaysMembers(flags: bv32, k: nat)
    requires k <= 7
    ensures forall d :: d in SelectDays(flags, k) <==> ListingRank(d) < k && HasDay(flags, d)
  {
    if k > 0 {
      SelectDaysMembers(flags, k - 1);
      forall d | ListingRank(d) == k - 1 ensures d == ListingDay(k - 1) {
        DayOfRank(d);
      }
    }
  }

  /** Each day is at the position its rank says. */
  lemma DayOfRank(d: DayOfWeek)
    ensures ListingRank(d) < 7 && ListingDay(ListingRank(d)) == d
  {
  }

  /** Strictly increasing in listing order: each day at most once, Monday before Sunday. */
  predicate InListingOrder(s: seq<DayOfWeek>) {
    forall i, j :: 0 <= i < j < |s| ==> ListingRank(s[i]) < ListingRank(s[j])
  }

  lemma {:induction false} SelectDaysOrdered(flags: bv32, k: nat)
    requires k <= 7
    ensures InListingOrder(SelectDays(flags, k))
  {
    if k > 0 {
      SelectDaysOrdered(flags, k - 1);
      SelectDaysMembers(flags, k - 1);
      var prefix := SelectDays(flags, k - 1);
      var s := SelectDays(flags, k);
      assert s == prefix + Pick(flags, ListingDay(k - 1));
      forall i, j | 0 <= i < j < |s| ensures ListingRank(s[i]) < ListingRank(s[j]) {
        if j >= |prefix| {
          var last := Pick(flags, ListingDay(k - 1));
          assert |last| == 1 && j == |prefix|;
          assert s[j] == last[0] == ListingDay(k - 1);
          assert s[i] == prefix[i] && s[i] in prefix;
          assert ListingRank(s[i]) < k - 1;
        } else {
          assert s[i] == prefix[i] && s[j] == prefix[j];
        }
      }
    }
  }

  lemma WeeklyDaysSpec(flags: bv32)
    ensures forall d :: d in WeeklyDays(flags) <==> HasDay(flags, d)
    ensures InListingOrder(WeeklyDays(flags))
  {
    SelectDaysMembers(flags, 7);
    SelectDaysOrdered(flags, 7);
    forall d ensures ListingRank(d) < 7 {
      DayOfRank(d);
    }
  }

  /** Only the seven day bits matter: other bits of the flags change nothing. */
  lemma {:induction false} SelectDaysIgnoreOtherBits(flags: bv32, k: nat)
    requires k <= 7
    ensures SelectDays(flags, k) == SelectDays(flags & 0x7F, k)
  {
    if k > 0 {
      SelectDaysIgnoreOtherBits(flags, k - 1);
      var d := ListingDay(k - 1);
      assert HasDay(flags, d) == HasDay(flags & 0x7F, d);
    }
  }

  /** The listed days: the last one after "and", with a comma before it when three or more. */
  function DayList(days: seq<string>): Result<string> {
    if |days| > 1 then
      Success(Join(", ", days[..|days| - 1]) + (if |days| - 1 > 1 then ", and " else " and ") + days[|days| - 1])
    else if |days| == 1 then Success(days[0])
    else Failure(ArgumentOutOfRange("index"))
  }

  /**
   * The list reads as English with a serial comma: one day alone, two joined
   * by " and ", three or more separated by ", " with "and " before the last.
   */
  lemma DayListWording(days: seq<string>)
    ensures |days| == 0 ==> DayList(days).Failure?
    ensures |days| == 1 ==> DayList(days) == Success(days[0])
    ensures |days| == 2 ==> DayList(days) == Success(days[0] + " and " + days[1])
    ensures |days| >= 3 ==>
              DayList(days) == Success(Join(", ", days[..|days| - 1] + ["and " + days[|days| - 1]]))
  {
    if |days| == 2 {
      assert days[..1] == [days[0]];
    }
    if |days| >= 3 {
      var n := |days|;
      JoinSnoc(", ", days[..n - 1], "and " + days[n - 1]);
      assert Join(", ", days[..n - 1]) + ", " + ("and " + days[n - 1])
          == Join(", ", days[..n - 1]) + ", and " + days[n - 1];
    }
  }

  /** "Run every <unit>" when N is 1, otherwise "Run every N" and the plural. */
  function EveryN(n: int, unit: string, plural: string): string {
    if n == 1 then "Run every " + unit else "Run every " + IntToString(n) + plural
  }

  /** "Run every N weeks on" and the listed days, or the exception of an empty list. */
  function WeeklyHeadline(w: WeeklyTrigger): Result<string> {
    var list := DayList(Names(WeeklyDays(w.daysOfWeek)));
    if list.Failure? then Failure(list.error)
    else Success(EveryN(w.everyNWeeks, "week", " weeks") + " on " + list.value)
  }

  /** The first part of the text, naming the recurrence. */
  function Headline(t: Trigger): Result<string> {
    if t.daily.Some? then Success(EveryN(t.daily.value.everyNDays, "day", " days"))
    else if t.weekly.Some? then WeeklyHeadline(t.weekly.value)
    else if t.monthly.Some? then
      var m := t.monthly.value;
      if m.dayOfMonth.Some? then Success("Run every " + IntToString(m.dayOfMonth.value) + " day of the month")
      else if m.dayOfWeek.Some? then
        Success("Run the " + WeekOfMonthName(m.dayOfWeek.value.nthMonthlyWeek) + " week of the month on "
                + DayName(m.dayOfWeek.value.dayOfWeek))
      else Failure(InvalidOperation(DefaultInvalidOperationMessage))
    else Failure(InvalidOperation(DefaultInvalidOperationMessage))
  }

  /** ", repeating every ..." for a repetition within the day. */
  function EveryPart(e: RepeatEvery): string {
    ", repeating every "
    + if e.number == 1 then (if e.hoursOrMinutes == Minutes then "minute" else "hour")
      else if e.hoursOrMinutes == Minutes then IntToString(e.number) + " minutes"
      else IntToString(e.number) + " hours"
  }

  /** " for <duration>" or " until <date>": the end of the repetition. */
  function UntilPart(u: RepeatUntil, fmt: Formats): Result<string> {
    if u.duration.Some? then Success(" for " + fmt.span(u.duration.value))
    else if u.time.Some? then Success(" until " + fmt.shortDate(u.time.value))
    else Failure(InvalidOperation(DefaultInvalidOperationMessage))
  }

  /** What follows the start date and time. */
  function RepeatPart(t: Trigger, fmt: Formats): Result<string> {
    if !t.repeatTask then Success("")
    else
      var every := if t.every.Some? then EveryPart(t.every.value) else "";
      if t.until.None? then Success(every)
      else
        var u := UntilPart(t.until.value, fmt);
        if u.Failure? then Failure(u.error) else Success(every + u.value)
  }

  function StartPart(t: Trigger, fmt: Formats): string {
    ", starting on " + fmt.shortDate(t.startDateTime) + " at " + fmt.shortTime(t.startDateTime)
  }

  /** The text `ToString` returns for a trigger, or the exception it throws. */
  function Describe(t: Trigger, fmt: Formats): Result<string> {
    var head := Headline(t);
    if head.Failure? then Failure(head.error)
    else
      var tail := RepeatPart(t, fmt);
      if tail.Failure? then Failure(tail.error)
      else Success(head.value + StartPart(t, fmt) + tail.value)
  }

  // =====================================================================
  // ToString: properties

  /**
   * `ToString` throws exactly when no recurrence is set, when a monthly
   * recurrence names no day, when a weekly one has no day flag, or when a
   * repeating trigger has an end that is neither a time nor a duration.
   */
  lemma DescribeFailsIff(t: Trigger, fmt: Formats)
    ensures Describe(t, fmt).Failure? <==>
              || (t.daily.None? && t.weekly.None? && t.monthly.None?)
              || (t.daily.None? && t.weekly.Some? && forall d :: !HasDay(t.weekly.value.daysOfWeek, d))
              || (t.daily.None? && t.weekly.None? && t.monthly.Some?
                  && t.monthly.value.dayOfMonth.None? && t.monthly.value.dayOfWeek.None?)
              || (t.repeatTask && t.until.Some? && t.until.value.duration.None? && t.until.value.time.None?)
  {
    assert Describe(t, fmt).Failure? <==> Headline(t).Failure? || RepeatPart(t, fmt).Failure?;
    if t.daily.None? && t.weekly.Some? {
      WeeklyFailsIff(t.weekly.value);
    }
  }

  /** The weekly text fails exactly when no day flag is set. */
  lemma WeeklyFailsIff(w: WeeklyTrigger)
    ensures WeeklyHeadline(w).Failure? <==> forall d :: !HasDay(w.daysOfWeek, d)
  {
    var flags := w.daysOfWeek;
    WeeklyDaysSpec(flags);
    var s := WeeklyDays(flags);
    assert WeeklyHeadline(w).Failure? <==> |Names(s)| == 0;
    if |s| > 0 {
      assert s[0] in s;
    }
  }

  /** Every text starts with "Run " and has the start date and time right after the headline. */
  lemma DescribeShape(t: Trigger, fmt: Formats)
    requires Describe(t, fmt).Success?
    ensures IsPrefix("Run ", Describe(t, fmt).value)
    ensures IsPrefix(Headline(t).value + ", starting on " + fmt.shortDate(t.startDateTime)
                     + " at " + fmt.shortTime(t.startDateTime), Describe(t, fmt).value)
  {
    var s := Describe(t, fmt).value;
    var h := Headline(t).value;
    HeadlineStartsWithRun(t);
    var hs := h + StartPart(t, fmt);
    assert s == hs + RepeatPart(t, fmt).value;
    assert s[..|hs|] == hs;
    assert hs[..4] == h[..4];
  }

  /** Every recurrence text starts with "Run ". */
  lemma HeadlineStartsWithRun(t: Trigger)
    requires Headline(t).Success?
    ensures IsPrefix("Run ", Headline(t).value)
  {
  }

  /** A trigger that does not repeat ends right after its start time. */
  lemma NoRepeatEndsAtStart(t: Trigger, fmt: Formats)
    requires !t.repeatTask && Headline(t).Success?
    ensures Describe(t, fmt) == Success(Headline(t).value + StartPart(t, fmt))
  {
    assert Headline(t).value + StartPart(t, fmt) + "" == Headline(t).value + StartPart(t, fmt);
  }

  /**
   * A repeating trigger: without an end, the text stops after the repetition;
   * a duration is used whenever one is given, even if an end time is given too.
   */
  lemma RepeatTail(t: Trigger, fmt: Formats)
    requires t.repeatTask && Headline(t).Success?
    ensures var every := if t.every.Some? then EveryPart(t.every.value) else "";
            && (t.until.None? ==> Describe(t, fmt) == Success(Headline(t).value + StartPart(t, fmt) + every))
            && (t.until.Some? && t.until.value.duration.Some? ==>
                  Describe(t, fmt).Success?
                  && IsSuffix(" for " + fmt.span(t.until.value.duration.value), Describe(t, fmt).value))
  {
    if t.until.Some? && t.until.value.duration.Some? {
      var s := Describe(t, fmt).value;
      var suffix := " for " + fmt.span(t.until.value.duration.value);
      var every := if t.every.Some? then EveryPart(t.every.value) else "";
      assert s == (Headline(t).value + StartPart(t, fmt) + every) + suffix;
    }
  }

  /**
   * Singular wording exactly when the count is 1: the plural form names the
   * count and ends with "s".
   */
  lemma EveryNWording(n: int, unit: string)
    requires unit == "day" || unit == "week"
    ensures var r := EveryN(n, unit, " " + unit + "s");
            && (IsSuffix("s", r) <==> n != 1)
            && (n != 1 ==> IsPrefix("Run every " + IntToString(n) + " ", r))
            && (n != 1 ==> r == "Run every " + IntToString(n) + " " + unit + "s")
            && (n == 1 ==> r == "Run every " + unit)
  {
    var r := EveryN(n, unit, " " + unit + "s");
    if n == 1 {
      assert r[|r| - 1] == unit[|unit| - 1];
    } else {
      var p := "Run every " + IntToString(n) + " ";
      assert r == p + unit + "s";
      assert r[..|p|] == p;
    }
  }

  /** The same rule for the repetition within the day: "minute" or "N minutes". */
  lemma EveryPartWording(e: RepeatEvery)
    ensures IsSuffix("s", EveryPart(e)) <==> e.number != 1
    ensures e.number != 1 ==> IsPrefix(", repeating every " + IntToString(e.number) + " ", EveryPart(e))
    ensures e.number == 1 ==>
              EveryPart(e) == ", repeating every " + (if e.hoursOrMinutes == Minutes then "minute" else "hour")
    ensures e.number != 1 ==>
              EveryPart(e) == ", repeating every " + IntToString(e.number) + " "
                              + (if e.hoursOrMinutes == Minutes then "minutes" else "hours")
  {
    var r := EveryPart(e);
    if e.number == 1 {
      assert r[|r| - 1] == (if e.hoursOrMinutes == Minutes then "minute" else "hour")[|r| - |", repeating every "| - 1];
    } else {
      var p := ", repeating every " + IntToString(e.number) + " ";
      assert r[..|p|] == p;
    }
  }
}

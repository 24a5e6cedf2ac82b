/**
 * The defaults every task inherits: its code, the dependency bundle it is
 * handed, the two standard switches `/test` and `/date`, the parser for them
 * and the schedule a task asks for unless it overrides it.
 *
 * `DateTime.TryParse` is a parameter `tryParseDate` (it depends on the
 * culture of the host), and `DateTime.Today` is a parameter `today`.
 */
module BaseTasks {
  import opened Wrappers
  import opened Text
  import opened TaskCommon
  import opened SchedulingTriggers

  const TestSwitch: string := "/test"
  const DateSwitch: string := "/date"

  /** The switches every task accepts unless it replaces them: `/test`, then `/date <mm/dd/yyyy>`. */
  function DefaultArgumentDescriptors(): (r: seq<ArgumentDescriptor>)
    ensures |r| == 2
    ensures r[0].argument == TestSwitch && r[0].postArguments.None?
    ensures r[1].argument == DateSwitch && r[1].postArguments == Some("<mm/dd/yyyy>")
    ensures forall i :: 0 <= i < |r| ==> r[i].description.Some? && r[i].description.value != []
  {
    [ Described(TestSwitch, "Enables test mode which disables delivery of any notifications"),
      DescribedWith(DateSwitch, "<mm/dd/yyyy>", "Overrides today's date for testing purposes") ]
  }

  // =====================================================================
  // ParseArguments: specification

  /**
   * The token is the `/test` switch, in any case and with any surrounding
   * white space: its trimmed lower-case form is the switch (see `SwitchMatch`).
   */
  predicate IsTestSwitch(token: string) {
    Lower(Trim(token)) == TestSwitch
  }

  /** The token is the `/date` switch, in any case and with any surrounding white space. */
  predicate IsDateSwitch(token: string) {
    Lower(Trim(token)) == DateSwitch
  }

  /**
   * The two predicates are the `CaseInsensitiveTrimmedEquals` comparisons the
   * parser makes against the switch names.
   */
  lemma SwitchMatch(token: string)
    ensures IsTestSwitch(token) <==> CaseInsensitiveTrimmedEquals(token, TestSwitch)
    ensures IsDateSwitch(token) <==> CaseInsensitiveTrimmedEquals(token, DateSwitch)
  {
    assert TrimStart(TestSwitch) == TestSwitch;
    assert Trim(TestSwitch) == TestSwitch;
    assert Lower(TestSwitch) == TestSwitch;
    assert TrimStart(DateSwitch) == DateSwitch;
    assert Trim(DateSwitch) == DateSwitch;
    assert Lower(DateSwitch) == DateSwitch;
  }

  /** No token is both switches. */
  lemma SwitchesDistinct(token: string)
    ensures !(IsTestSwitch(token) && IsDateSwitch(token))
  {
    assert TestSwitch[1] != DateSwitch[1];
  }

  /**
   * What `ParseArguments` returns for the tokens still in its queue: `/test`
   * and unknown tokens are passed over, and `/date` takes the next token as
   * its value, which must parse as a date.
   */
  function Parse(queue: seq<string>, tryParseDate: string -> bool): bool
    decreases |queue|
  {
    if queue == [] then true
    else if IsTestSwitch(queue[0]) then Parse(queue[1..], tryParseDate)
    else if IsDateSwitch(queue[0]) then
      if |queue| == 1 then false
      else tryParseDate(queue[1]) && Parse(queue[2..], tryParseDate)
    else Parse(queue[1..], tryParseDate)
  }

  // =====================================================================
  // The base task class

  /** The state every task shares: its code and the dependencies it was handed. */
  class BaseTask {
    const taskCode: string
    const allowMultipleInstances: bool
    var taskDependencies: Option<TaskDependencies>

    /** `BaseTask(taskCode)`: the code is kept, no dependencies yet, single instance only. */
    constructor(taskCode: string)
      ensures this.taskCode == taskCode
      ensures !allowMultipleInstances
      ensures taskDependencies.None?
    {
      this.taskCode := taskCode;
      allowMultipleInstances := false;
      taskDependencies := None;
    }

    /** `ProvideDependencies`: the bundle replaces whatever was held before. */
    method ProvideDependencies(deps: TaskDependencies)
      modifies this
      ensures taskDependencies == Some(deps)
    {
      taskDependencies := Some(deps);
    }

    /** `ParseArguments`: consumes the tokens from a queue, front to back. */
    method ParseArguments(args: seq<string>, tryParseDate: string -> bool) returns (ok: bool)
      ensures ok == Parse(args, tryParseDate)
    {
      var argQueue := args;
      while |argQueue| > 0
        invariant Parse(argQueue, tryParseDate) == Parse(args, tryParseDate)
        decreases |argQueue|
      {
        var arg := argQueue[0];
        argQueue := argQueue[1..];
        if IsTestSwitch(arg) {
          // test mode has no effect on parsing
        } else if IsDateSwitch(arg) {
          if |argQueue| == 0 {
            return false;
          }
          var arg1 := argQueue[0];
          argQueue := argQueue[1..];
          if !tryParseDate(arg1) {
            return false;
          }
        }
      }
      return true;
    }

    /**
     * `ScheduleTriggers`: one new trigger, built the way the object
     * initializer does: the `Daily` setter (which does not throw, nothing else
     * being set), then the plain properties.
     */
    method ScheduleTriggers(today: DateTime) returns (triggers: seq<SchedulingTrigger>)
      ensures |triggers| == 1 && fresh(triggers[0])
      ensures triggers[0].Value() == DefaultSchedule(today) && triggers[0].Valid()
    {
      var t := new SchedulingTrigger();
      var o := t.SetDaily(Some(DailyTrigger(1)));
      assert o == Pass;
      t.repeatTask := true;
      t.every := Some(RepeatEvery(5, Minutes));
      t.startDateTime := AddHours(today, 9);
      triggers := [t];
    }
  }

  /** The trigger `ScheduleTriggers` yields: daily at 9 o'clock, repeating every 5 minutes. */
  function DefaultSchedule(today: DateTime): (t: Trigger)
    ensures t.Exclusive()
  {
    Trigger(AddHours(today, 9), None, true, Some(RepeatEvery(5, Minutes)), None,
            Some(DailyTrigger(1)), None, None)
  }

  // =====================================================================
  // ParseArguments: properties

  /** No token of the list is the `/date` switch. */
  predicate NoDateSwitch(tokens: seq<string>) {
    forall i :: 0 <= i < |tokens| ==> !IsDateSwitch(tokens[i])
  }

  /** Tokens that are not `/date` are passed over without effect. */
  lemma {:induction false} SkipNonDate(prefix: seq<string>, rest: seq<string>, tryParseDate: string -> bool)
    requires NoDateSwitch(prefix)
    ensures Parse(prefix + rest, tryParseDate) == Parse(rest, tryParseDate)
    decreases |prefix|
  {
    if prefix != [] {
      var q := prefix + rest;
      assert q[0] == prefix[0] && !IsDateSwitch(q[0]);
      assert q[1..] == prefix[1..] + rest;
      assert Parse(q, tryParseDate) == Parse(q[1..], tryParseDate);
      SkipNonDate(prefix[1..], rest, tryParseDate);
    } else {
      assert prefix + rest == rest;
    }
  }

  /** Without a `/date` switch the arguments are always accepted. */
  lemma NoDateAccepted(args: seq<string>, tryParseDate: string -> bool)
    requires NoDateSwitch(args)
    ensures Parse(args, tryParseDate)
  {
    SkipNonDate(args, [], tryParseDate);
    assert args + [] == args;
  }

  /** A `/date` switch with nothing after it is rejected. */
  lemma DateLastRejected(prefix: seq<string>, date: string, tryParseDate: string -> bool)
    requires NoDateSwitch(prefix) && IsDateSwitch(date)
    ensures !Parse(prefix + [date], tryParseDate)
  {
    SkipNonDate(prefix, [date], tryParseDate);
    SwitchesDistinct(date);
  }

  /**
   * The token after `/date` is always taken as its value, whatever it looks
   * like (even `/test` or `/date`), and the arguments are accepted exactly
   * when it parses as a date and the rest is accepted.
   */
  lemma DateConsumesValue(date: string, value: string, rest: seq<string>, tryParseDate: string -> bool)
    requires IsDateSwitch(date)
    ensures Parse([date, value] + rest, tryParseDate) <==> tryParseDate(value) && Parse(rest, tryParseDate)
  {
    SwitchesDistinct(date);
    var q := [date, value] + rest;
    assert q[0] == date && q[1] == value && q[2..] == rest;
  }

  /** A date value that does not parse rejects the arguments, whatever follows. */
  lemma UnparsableDateRejected(prefix: seq<string>, date: string, value: string, rest: seq<string>,
                               tryParseDate: string -> bool)
    requires NoDateSwitch(prefix) && IsDateSwitch(date) && !tryParseDate(value)
    ensures !Parse(prefix + ([date, value] + rest), tryParseDate)
  {
    SkipNonDate(prefix, [date, value] + rest, tryParseDate);
    DateConsumesValue(date, value, rest, tryParseDate);
  }

  /** The switch is recognised in any case... */
  lemma DateSwitchAnyCase()
    ensures IsDateSwitch("/DATE") && IsDateSwitch("/Date")
  {
    assert TrimStart("/DATE") == "/DATE";
    assert Trim("/DATE") == "/DATE";
    assert Lower("/DATE") == DateSwitch;
    assert TrimStart("/Date") == "/Date";
    assert Trim("/Date") == "/Date";
    assert Lower("/Date") == DateSwitch;
  }

  /** ...with white space around it... */
  lemma DateSwitchPadded()
    ensures IsDateSwitch(" /date\t")
  {
    var padded, tabbed := " /date\t", "/date\t";
    assert padded[1..] == tabbed;
    assert TrimStart(tabbed) == tabbed;
    assert TrimStart(padded) == tabbed;
    assert tabbed[..|tabbed| - 1] == DateSwitch;
    assert TrimEnd(DateSwitch) == DateSwitch;
    assert TrimEnd(tabbed) == DateSwitch;
    assert Trim(padded) == DateSwitch;
    assert Lower(DateSwitch) == DateSwitch;
  }

  /** ...but only as the whole token. */
  lemma DateSwitchWholeToken()
    ensures !IsDateSwitch("/dates")
  {
    assert TrimStart("/dates") == "/dates";
    assert Trim("/dates") == "/dates";
    assert |Lower("/dates")| != |DateSwitch|;
  }

  // =====================================================================
  // ScheduleTriggers: properties

  /** The default schedule renders as a daily run repeating every 5 minutes. */
  lemma DefaultScheduleText(today: DateTime, fmt: Formats)
    ensures Describe(DefaultSchedule(today), fmt)
         == Success("Run every day, starting on " + fmt.shortDate(AddHours(today, 9))
                    + " at " + fmt.shortTime(AddHours(today, 9)) + ", repeating every 5 minutes")
  {
    var t := DefaultSchedule(today);
    var start := AddHours(today, 9);
    DefaultScheduleParts(today, fmt);
    var d, h := fmt.shortDate(start), fmt.shortTime(start);
    assert StartPart(t, fmt) == ", starting on " + d + " at " + h;
    var head, repeat := "Run every day", ", repeating every 5 minutes";
    assert Describe(t, fmt) == Success(head + StartPart(t, fmt) + repeat);
    var starting := ", starting on ";
    assert head + (starting + d + " at " + h) == head + starting + d + " at " + h;
    assert "Run every day, starting on " == head + starting;
  }

  /** The recurrence and the repetition of the default schedule, as text. */
  lemma DefaultScheduleParts(today: DateTime, fmt: Formats)
    ensures Headline(DefaultSchedule(today)) == Success("Run every day")
    ensures RepeatPart(DefaultSchedule(today), fmt) == Success(", repeating every 5 minutes")
  {
    var t := DefaultSchedule(today);
    assert t.daily == Some(DailyTrigger(1));
    assert Headline(t) == Success(EveryN(1, "day", " days"));
    assert EveryN(1, "day", " days") == "Run every day";
    assert RepeatPart(t, fmt) == Success(EveryPart(RepeatEvery(5, Minutes)));
    assert IntToString(5) == "5";
    assert EveryPart(RepeatEvery(5, Minutes)) == ", repeating every 5 minutes";
  }
}

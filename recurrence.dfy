/** The two-field recurrence text of `backend/utils/scheduler.py`: which call
    `schedule_recurring_backup` makes on the schedule library, and the
    next-run estimate of `_estimate_next_run`. Only the first two
    whitespace-separated fields, minute then hour, are read. */
module Recurrence {
  import opened Text
  import opened Clock

  /** The two registrations the code can make: `every().hour.at(at)` and
      `every().day.at(at)`. What the library does with `at` is not modelled. */
  datatype Trigger = HourlyAt(at: string) | DailyAt(at: string)

  /** The branch the registration takes before the library is called. */
  datatype Plan = Register(trigger: Trigger) | Unsupported | TooFewFields

  const Wildcard := "*"

  /** The branch taken by `schedule_recurring_backup` on `cron`. */
  function PlanFor(cron: string): (p: Plan)
    ensures p == TooFewFields <==> |Split(cron)| < 2
    ensures p == Unsupported <==> |Split(cron)| >= 2 && Split(cron)[0] == Wildcard && Split(cron)[1] == Wildcard
    ensures p.Register? ==> (p.trigger.HourlyAt? <==> Split(cron)[0] == Wildcard)
  {
    var parts := Split(cron);
    if |parts| < 2 then TooFewFields
    else
      var minute, hour := parts[0], parts[1];
      if minute == Wildcard && hour != Wildcard then Register(HourlyAt(":" + minute))
      else if hour == Wildcard && minute != Wildcard then Register(DailyAt(hour + ":" + minute))
      else if hour != Wildcard && minute != Wildcard then Register(DailyAt(hour + ":" + minute))
      else Unsupported
  }

  /** The argument of every registration ends with `":" + minute`, and a daily
      registration starts with the hour field: the four cases of the code. */
  lemma PlanArguments(cron: string)
    requires |Split(cron)| >= 2
    ensures var minute, hour := Split(cron)[0], Split(cron)[1];
      && (minute == Wildcard && hour != Wildcard ==> PlanFor(cron) == Register(HourlyAt(":*")))
      && (minute != Wildcard && hour == Wildcard ==> PlanFor(cron) == Register(DailyAt("*:" + minute)))
      && (minute != Wildcard && hour != Wildcard ==> PlanFor(cron) == Register(DailyAt(hour + ":" + minute)))
  {
  }

  /** Fields after the second never change the registration or the estimate. */
  lemma {:induction false} ExtraFieldsIgnored(cron: string, sep: char, extra: string, now: DateTime)
    requires IsSpace(sep) && Valid(now)
    requires |Split(cron)| >= 2
    ensures PlanFor(cron + [sep] + extra) == PlanFor(cron)
    ensures EstimateNextRun(cron + [sep] + extra, now) == EstimateNextRun(cron, now)
  {
    SplitAppend(cron, sep, extra);
    var a, b := Split(cron + [sep] + extra), Split(cron);
    assert a[0] == b[0] && a[1] == b[1];
  }

  /** The field value `int(text)` gives, or `None` where it raises. */
  function MinuteOf(field: string): Option<int> {
    if field == Wildcard then Some(0) else ParseInt(field)
  }

  /** `_estimate_next_run(cron)` evaluated at `now`: today at the parsed hour
      and minute (0 for `*`) with zero seconds, moved on a day when that is
      not after `now`. `None` for fewer than two fields, an hour of `*`, a
      field `int()` rejects, a field out of range, or a move past year 9999. */
  function EstimateNextRun(cron: string, now: DateTime): (r: Option<DateTime>)
    requires Valid(now)
    ensures r.Some? ==> Valid(r.value) && Before(now, r.value)
    ensures r.Some? ==> r.value.second == 0 && r.value.micro == 0
  {
    var parts := Split(cron);
    if |parts| < 2 || parts[1] == Wildcard then None
    else match ParseInt(parts[1])
      case None => None
      case Some(h) =>
        match MinuteOf(parts[0])
        case None => None
        case Some(m) =>
          if !(0 <= h < 24 && 0 <= m < 60) then None
          else
            var candidate := now.(hour := h, minute := m, second := 0, micro := 0);
            if !Before(now, candidate) then AddOneDay(candidate) else Some(candidate)
  }

  /** The estimate carries the parsed fields and lies in the day after `now`:
      on `now`'s date when that time is still ahead, otherwise on the next date,
      and never later than `now + 1 day`. */
  lemma {:induction false} EstimateWithinOneDay(cron: string, now: DateTime)
    requires Valid(now)
    requires EstimateNextRun(cron, now).Some?
    ensures var r := EstimateNextRun(cron, now).value;
      && ParseInt(Split(cron)[1]) == Some(r.hour)
      && MinuteOf(Split(cron)[0]) == Some(r.minute)
      && (SameDate(r, now) <==> TimeBefore(now, r))
      && (AddOneDay(now).Some? ==> !Before(AddOneDay(now).value, r))
  {
    var r := EstimateNextRun(cron, now).value;
    var parts := Split(cron);
    var h, m := ParseInt(parts[1]).value, MinuteOf(parts[0]).value;
    var candidate := now.(hour := h, minute := m, second := 0, micro := 0);
    if !Before(now, candidate) {
      assert r == AddOneDay(candidate).value;
      if AddOneDay(now).Some? {
        AddOneDayKeepsOrder(candidate, now);
      }
    } else {
      assert r == candidate;
      if AddOneDay(now).Some? {
        assert DateBefore(now, AddOneDay(now).value);
      }
    }
  }

  /** The estimate exists exactly when both fields parse to an hour below 24 and
      a minute below 60 (a `*` minute counting as 0), and the day can be moved
      on when needed. */
  lemma EstimateDefinedIff(cron: string, now: DateTime)
    requires Valid(now)
    ensures EstimateNextRun(cron, now).Some? <==>
      && |Split(cron)| >= 2
      && Split(cron)[1] != Wildcard
      && ParseInt(Split(cron)[1]).Some?
      && MinuteOf(Split(cron)[0]).Some?
      && 0 <= ParseInt(Split(cron)[1]).value < 24
      && 0 <= MinuteOf(Split(cron)[0]).value < 60
      && (Before(now, now.(hour := ParseInt(Split(cron)[1]).value,
                          minute := MinuteOf(Split(cron)[0]).value, second := 0, micro := 0))
          || AddOneDay(now).Some?)
  {
  }

  /** Splitting two words joined by one space gives the two words. */
  lemma {:induction false} SplitTwoWords(a: string, b: string)
    requires a != [] && b != [] && NoSpace(a) && NoSpace(b)
    ensures Split(a + " " + b) == [a, b]
  {
    SplitAppend(a, ' ', b);
    SplitOneWord(a);
    SplitOneWord(b);
  }

  lemma {:induction false} SplitOneWord(a: string)
    requires a != [] && NoSpace(a)
    ensures Split(a) == [a]
  {
    WordLengthOfWord(a);
    assert a[..|a|] == a;
    assert a[|a|..] == [];
  }

  lemma {:induction false} WordLengthOfWord(a: string)
    requires NoSpace(a)
    ensures WordLength(a) == |a|
    decreases |a|
  {
    if a != [] {
      WordLengthOfWord(a[1..]);
    }
  }

  /** A fixed minute field registers a daily job, whatever the hour field. */
  lemma DailyOfWords(minute: string, hour: string)
    requires minute != [] && hour != [] && NoSpace(minute) && NoSpace(hour) && minute != Wildcard
    ensures PlanFor(minute + " " + hour) == Register(DailyAt(hour + ":" + minute))
  {
    SplitTwoWords(minute, hour);
  }

  /** `"0 2"` registers a daily job at `"2:0"`. */
  lemma ExampleBothFixed()
    ensures PlanFor("0 2") == Register(DailyAt("2:0"))
  {
    assert "0 2" == "0" + " " + "2";
    assert "2" + ":" + "0" == "2:0";
    DailyOfWords("0", "2");
  }

  /** `"* 3"` takes the hourly branch with the argument `":*"`. */
  lemma ExampleMinuteWildcard()
    ensures PlanFor("* 3") == Register(HourlyAt(":*"))
  {
    assert "* 3" == "*" + " " + "3";
    SplitTwoWords("*", "3");
  }

  /** `"15 *"` takes the daily branch with the argument `"*:15"`. */
  lemma ExampleHourWildcard()
    ensures PlanFor("15 *") == Register(DailyAt("*:15"))
  {
    assert "15 *" == "15" + " " + "*";
    assert "*" + ":" + "15" == "*:15";
    DailyOfWords("15", "*");
  }

  /** `"* *"` is rejected. */
  lemma ExampleBothWildcards()
    ensures PlanFor("* *") == Unsupported
  {
    assert "* *" == "*" + " " + "*";
    SplitTwoWords("*", "*");
  }

  lemma {:induction false} ParseHourAndMinute()
    ensures ParseInt("4") == Some(4) && ParseInt("30") == Some(30)
  {
    ParseIntOfIntToString(4);
    ParseIntOfIntToString(30);
    assert IntToString(4) == "4";
    assert NatToString(30) == NatToString(3) + [DigitChar(0)];
    assert IntToString(30) == "30";
  }

  /** `"30 4"` evaluated at 04:00 gives 04:30 the same day. */
  lemma ExampleEstimateSameDay()
    ensures EstimateNextRun("30 4", DateTime(2024, 3, 1, 4, 0, 0, 0)) == Some(DateTime(2024, 3, 1, 4, 30, 0, 0))
  {
    assert "30 4" == "30" + " " + "4";
    SplitTwoWords("30", "4");
    ParseHourAndMinute();
  }

  /** `"30 4"` evaluated at 04:31 gives 04:30 the next day. */
  lemma ExampleEstimateNextDay()
    ensures EstimateNextRun("30 4", DateTime(2024, 3, 1, 4, 31, 0, 0)) == Some(DateTime(2024, 3, 2, 4, 30, 0, 0))
  {
    assert "30 4" == "30" + " " + "4";
    SplitTwoWords("30", "4");
    ParseHourAndMinute();
  }
}

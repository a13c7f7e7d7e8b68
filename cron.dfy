/**
 * The cron engine of the scheduler (internal/scheduler/cron.go): five crontab fields parsed into
 * sets of numbers, matching of a minute against them, and the bounded search for the next match.
 *
 * Time is counted in whole minutes (or seconds) since 1970-01-01T00:00Z, and the calendar is UTC.
 */
module Cron {
  import opened Wrappers
  import opened Strs

  /** Why a single field was refused. */
  datatype FieldError = EmptyField | InvalidStep(part: string) | InvalidValue(part: string) | NoValues

  /** Why a whole spec was refused: the wrong number of fields, or which field was wrong and why. */
  datatype SpecError = WrongFieldCount | BadField(name: string, error: FieldError)

  /** A parsed spec: the accepted minutes, hours, days of the month, months and weekdays (Sunday is 0). */
  datatype CronSchedule = CronSchedule(minutes: set<int>, hours: set<int>, doms: set<int>, months: set<int>, dows: set<int>)

  datatype NextError = NoMatchingTime

  /** The search window of `next`: one year of minutes. */
  const SearchMinutes: int := 525600

  // ---------------------------------------------------------------- fields

  /** All numbers from `lo` to `hi`. */
  function Range(lo: int, hi: int): set<int>
    decreases hi - lo
  {
    if lo > hi then {} else Range(lo, hi - 1) + {hi}
  }

  lemma {:induction false} RangeSpec(lo: int, hi: int, x: int)
    ensures x in Range(lo, hi) <==> lo <= x <= hi
    decreases hi - lo
  {
    if lo <= hi {
      RangeSpec(lo, hi - 1, x);
    }
  }

  /** `from`, `from + step`, ... up to `max`: the values a step part adds. */
  function StepValues(from: int, max: int, step: int): set<int>
    requires step > 0
    decreases max - from
  {
    if from > max then {} else {from} + StepValues(from + step, max, step)
  }

  lemma MulBounds(d: int, k: int)
    requires d > 0
    ensures k >= 1 ==> d * k >= d
    ensures k <= -1 ==> d * k <= -d
  {
  }

  /** Euclidean division leaves one remainder only. */
  lemma ModUnique(a: int, d: int, q: int, r: int)
    requires d > 0 && 0 <= r < d && a == d * q + r
    ensures a % d == r
  {
    var q0, r0 := a / d, a % d;
    assert d * (q - q0) == r0 - r;
    MulBounds(d, q - q0);
  }

  /** A value is produced by the step loop exactly when it lies in range on the step grid. */
  lemma {:induction false} StepValuesSpec(from: int, max: int, step: int, x: int)
    requires step > 0
    ensures x in StepValues(from, max, step) <==> from <= x <= max && (x - from) % step == 0
    decreases max - from
  {
    if from <= max {
      StepValuesSpec(from + step, max, step, x);
      if x >= from + step {
        ModUnique(x - from, step, (x - from - step) / step + 1, (x - from - step) % step);
      } else if from < x {
        ModUnique(x - from, step, 0, x - from);
      }
    }
  }

  /** One comma-separated part, already trimmed and not blank: a star, a star with a step, or a single number. */
  function PartValues(part: string, min: int, max: int): Result<set<int>, FieldError>
  {
    if part == "*" then Ok(Range(min, max))
    else if HasPrefix(part, "*/") then
      var step := Atoi(part[2..]);
      if step.None? || step.value <= 0 then Err(InvalidStep(part)) else Ok(StepValues(min, max, step.value))
    else
      var v := Atoi(part);
      if v.None? || v.value < min || v.value > max then Err(InvalidValue(part)) else Ok({v.value})
  }

  /** The parts in order: blank parts are skipped, and the first refused part decides the error. */
  function PartsValues(parts: seq<string>, min: int, max: int): Result<set<int>, FieldError>
    decreases |parts|
  {
    if |parts| == 0 then Ok({})
    else
      var part := TrimSpace(parts[0]);
      if part == "" then PartsValues(parts[1..], min, max)
      else
        match PartValues(part, min, max)
        case Err(e) => Err(e)
        case Ok(s) => Union(s, PartsValues(parts[1..], min, max))
  }

  /** Values collected so far, joined with the outcome of the remaining parts. */
  function Union(acc: set<int>, r: Result<set<int>, FieldError>): Result<set<int>, FieldError>
  {
    match r
    case Err(e) => Err(e)
    case Ok(s) => Ok(acc + s)
  }

  lemma UnionEmpty(r: Result<set<int>, FieldError>)
    ensures Union({}, r) == r
  {
    if r.Ok? {
      assert {} + r.value == r.value;
    }
  }

  /** `parseCronField`: a non-blank field whose parts are all accepted and which yields some value. */
  function FieldSpec(expr: string, min: int, max: int): Result<set<int>, FieldError>
  {
    var e := TrimSpace(expr);
    if e == "" then Err(EmptyField)
    else
      match PartsValues(Split(e, ','), min, max)
      case Err(err) => Err(err)
      case Ok(s) => if s == {} then Err(NoValues) else Ok(s)
  }

  /** The `*` loop: every value from `min` to `max`. */
  method AddRange(acc: set<int>, min: int, max: int) returns (result: set<int>)
    ensures result == acc + Range(min, max)
  {
    result := acc;
    var i := min;
    while i <= max
      invariant min <= i <= if max < min then min else max + 1
      invariant result == acc + Range(min, i - 1)
    {
      assert Range(min, i) == Range(min, i - 1) + {i};
      result := result + {i};
      i := i + 1;
    }
    assert Range(min, i - 1) == Range(min, max);
  }

  /** The step loop: `min`, `min + step`, ... while not past `max`. */
  method AddSteps(acc: set<int>, min: int, max: int, step: int) returns (result: set<int>)
    requires step > 0
    ensures result == acc + StepValues(min, max, step)
  {
    result := acc;
    var i := min;
    while i <= max
      invariant result + StepValues(i, max, step) == acc + StepValues(min, max, step)
      decreases max - i
    {
      result := result + {i};
      i := i + step;
    }
  }

  /** One part of the `parseCronField` loop: its values added to those collected so far, or its error. */
  method AddPart(acc: set<int>, part: string, min: int, max: int) returns (r: Result<set<int>, FieldError>)
    ensures r == Union(acc, PartValues(part, min, max))
  {
    if part == "*" {
      var s := AddRange(acc, min, max);
      return Ok(s);
    } else if HasPrefix(part, "*/") {
      var step := Atoi(part[2..]);
      if step.None? || step.value <= 0 {
        return Err(InvalidStep(part));
      }
      var s := AddSteps(acc, min, max, step.value);
      return Ok(s);
    } else {
      var v := Atoi(part);
      if v.None? || v.value < min || v.value > max {
        return Err(InvalidValue(part));
      }
      return Ok(acc + {v.value});
    }
  }

  lemma UnionAssoc(acc: set<int>, s: set<int>, r: Result<set<int>, FieldError>)
    ensures Union(acc, Union(s, r)) == Union(acc + s, r)
  {
    if r.Ok? {
      assert acc + (s + r.value) == acc + s + r.value;
    }
  }

  /** `parseCronField`: trim, split on commas, and collect each part's values into one set. */
  method ParseCronField(expr: string, min: int, max: int) returns (r: Result<set<int>, FieldError>)
    ensures r == FieldSpec(expr, min, max)
  {
    var result: set<int> := {};
    var e := TrimSpace(expr);
    if e == "" {
      return Err(EmptyField);
    }
    var parts := Split(e, ',');
    var i := 0;
    assert parts[0..] == parts;
    UnionEmpty(PartsValues(parts, min, max));
    while i < |parts|
      invariant 0 <= i <= |parts|
      invariant Union(result, PartsValues(parts[i..], min, max)) == PartsValues(parts, min, max)
    {
      ghost var rest := PartsValues(parts[i + 1..], min, max);
      assert parts[i..][1..] == parts[i + 1..];
      var part := TrimSpace(parts[i]);
      if part != "" {
        ghost var pv := PartValues(part, min, max);
        assert PartsValues(parts[i..], min, max) == if pv.Err? then Err(pv.error) else Union(pv.value, rest);
        var next := AddPart(result, part, min, max);
        if next.Err? {
          return Err(next.error);
        }
        UnionAssoc(result, pv.value, rest);
        result := next.value;
      } else {
        assert PartsValues(parts[i..], min, max) == rest;
      }
      i := i + 1;
    }
    assert parts[|parts|..] == [];
    if |result| == 0 {
      return Err(NoValues);
    }
    return Ok(result);
  }

  /** An accepted part only yields values within range. */
  lemma PartValuesInRange(part: string, min: int, max: int)
    requires PartValues(part, min, max).Ok?
    ensures PartValues(part, min, max).value <= Range(min, max)
  {
    var s := PartValues(part, min, max).value;
    forall x | x in s ensures x in Range(min, max) {
      RangeSpec(min, max, x);
      if part != "*" && HasPrefix(part, "*/") {
        StepValuesSpec(min, max, Atoi(part[2..]).value, x);
      }
    }
  }

  lemma {:induction false} PartsValuesInRange(parts: seq<string>, min: int, max: int)
    requires PartsValues(parts, min, max).Ok?
    ensures PartsValues(parts, min, max).value <= Range(min, max)
    decreases |parts|
  {
    if |parts| > 0 {
      PartsValuesInRange(parts[1..], min, max);
      var part := TrimSpace(parts[0]);
      if part != "" {
        PartValuesInRange(part, min, max);
      }
    }
  }

  /** An accepted field is a non-empty set of values within range. */
  lemma FieldInRange(expr: string, min: int, max: int)
    requires FieldSpec(expr, min, max).Ok?
    ensures FieldSpec(expr, min, max).value != {}
    ensures FieldSpec(expr, min, max).value <= Range(min, max)
  {
    PartsValuesInRange(Split(TrimSpace(expr), ','), min, max);
  }

  /** A field of one part without commas or edge spaces is that part's values. */
  lemma OnePart(part: string, min: int, max: int)
    requires part != [] && !IsSpace(part[0]) && !IsSpace(part[|part| - 1]) && ',' !in part
    ensures PartValues(part, min, max).Err? ==> FieldSpec(part, min, max) == PartValues(part, min, max)
    ensures PartValues(part, min, max).Ok? && PartValues(part, min, max).value != {} ==>
      FieldSpec(part, min, max) == PartValues(part, min, max)
  {
    TrimSpaceNoEdge(part);
    SplitNoSep(part, ',');
    assert [part][0] == part && [part][1..] == [];
    var r := PartValues(part, min, max);
    if r.Ok? {
      assert r.value + {} == r.value;
      assert PartsValues([part], min, max) == Union(r.value, Ok({}));
    }
  }

  /** `*` is the whole range. */
  lemma StarField(min: int, max: int)
    requires min <= max
    ensures FieldSpec("*", min, max) == Ok(Range(min, max))
  {
    RangeSpec(min, max, min);
    OnePart("*", min, max);
  }

  /** Decimal digits hold no comma and no white space. */
  lemma DigitsPlain(s: string)
    requires AllDigits(s)
    ensures ',' !in s
    ensures |s| > 0 ==> !IsSpace(s[0]) && !IsSpace(s[|s| - 1])
  {
  }

  /** A number in range, written in decimal, is a plain part of that one value. */
  lemma NumberPart(v: int, min: int, max: int)
    requires 0 <= min <= v <= max <= MaxInt64
    ensures var s := Itoa(v);
      && s != [] && !IsSpace(s[0]) && !IsSpace(s[|s| - 1]) && ',' !in s
      && PartValues(s, min, max) == Ok({v})
  {
    var s := Itoa(v);
    DigitsPlain(s);
    AtoiItoa(v);
    assert IsDigit(s[0]);
  }

  /** A number in range, written in decimal, is a field of that one value. */
  lemma NumberField(v: int, min: int, max: int)
    requires 0 <= min <= v <= max <= MaxInt64
    ensures FieldSpec(Itoa(v), min, max) == Ok({v})
  {
    NumberPart(v, min, max);
    OnePart(Itoa(v), min, max);
  }

  /** A step part written with a positive int64 step. */
  lemma StepPart(n: int, min: int, max: int)
    requires 0 < n <= MaxInt64
    ensures var s := "*/" + Itoa(n);
      && s != [] && !IsSpace(s[0]) && !IsSpace(s[|s| - 1]) && ',' !in s
      && PartValues(s, min, max) == Ok(StepValues(min, max, n))
  {
    var digits := Itoa(n);
    var s := "*/" + digits;
    DigitsPlain(digits);
    assert s[2..] == digits;
    assert s[|s| - 1] == digits[|digits| - 1];
    AtoiItoa(n);
    assert HasPrefix(s, "*/");
    assert ',' !in s by {
      forall i | 0 <= i < |s| ensures s[i] != ',' {
        if i >= 2 {
          assert s[i] == digits[i - 2];
        }
      }
    }
  }

  /** A step part with a positive int64 step is the step grid from `min`. */
  lemma StepField(n: int, min: int, max: int)
    requires 0 < n <= MaxInt64 && min <= max
    ensures FieldSpec("*/" + Itoa(n), min, max) == Ok(StepValues(min, max, n))
  {
    StepPart(n, min, max);
    StepValuesSpec(min, max, n, min);
    OnePart("*/" + Itoa(n), min, max);
  }

  // ---------------------------------------------------------------- specs

  /** `parseCronSpec`: five white-space separated fields, checked in order. */
  function ParseCronSpec(spec: string): Result<CronSchedule, SpecError>
  {
    var parts := Fields(spec);
    if |parts| != 5 then Err(WrongFieldCount)
    else
      match FieldSpec(parts[0], 0, 59)
      case Err(e) => Err(BadField("minutes", e))
      case Ok(minutes) =>
        match FieldSpec(parts[1], 0, 23)
        case Err(e) => Err(BadField("hours", e))
        case Ok(hours) =>
          match FieldSpec(parts[2], 1, 31)
          case Err(e) => Err(BadField("day-of-month", e))
          case Ok(doms) =>
            match FieldSpec(parts[3], 1, 12)
            case Err(e) => Err(BadField("month", e))
            case Ok(months) =>
              match FieldSpec(parts[4], 0, 6)
              case Err(e) => Err(BadField("day-of-week", e))
              case Ok(dows) => Ok(CronSchedule(minutes, hours, doms, months, dows))
  }

  /** Every set of an accepted spec is non-empty and within its field's range. */
  lemma ParseCronSpecRanges(spec: string)
    requires ParseCronSpec(spec).Ok?
    ensures var c := ParseCronSpec(spec).value;
      && c.minutes != {} && c.minutes <= Range(0, 59)
      && c.hours != {} && c.hours <= Range(0, 23)
      && c.doms != {} && c.doms <= Range(1, 31)
      && c.months != {} && c.months <= Range(1, 12)
      && c.dows != {} && c.dows <= Range(0, 6)
  {
    var parts := Fields(spec);
    FieldInRange(parts[0], 0, 59);
    FieldInRange(parts[1], 0, 23);
    FieldInRange(parts[2], 1, 31);
    FieldInRange(parts[3], 1, 12);
    FieldInRange(parts[4], 0, 6);
  }

  /** A spec of other than five fields is refused, whatever the fields say. */
  lemma FieldCountChecked(ws: seq<string>)
    requires AllFields(ws) && |ws| != 5
    ensures ParseCronSpec(Join(ws, " ")) == Err(WrongFieldCount)
  {
    FieldsOfJoin(ws);
  }

  /** The schedule of `* * * * *`. */
  const EveryMinute: CronSchedule := CronSchedule(Range(0, 59), Range(0, 23), Range(1, 31), Range(1, 12), Range(0, 6))

  /** `* * * * *` parses to the full ranges. */
  lemma StarSpec()
    ensures ParseCronSpec("* * * * *") == Ok(EveryMinute)
  {
    var ws := ["*", "*", "*", "*", "*"];
    assert IsField("*");
    assert Join(ws, " ") == "* * * * *";
    FieldsOfJoin(ws);
    StarField(0, 59);
    StarField(0, 23);
    StarField(1, 31);
    StarField(1, 12);
    StarField(0, 6);
  }

  // ---------------------------------------------------------------- calendar

  /** A UTC calendar reading of a minute. */
  datatype Civil = Civil(year: int, month: int, day: int, hour: int, minute: int, weekday: int)

  predicate IsLeap(year: int)
  {
    year % 4 == 0 && (year % 100 != 0 || year % 400 == 0)
  }

  function DaysInYear(year: int): int
  {
    if IsLeap(year) then 366 else 365
  }

  /**
   * The year holding day `days` counted from 1 January of `year`, and the day's index within it:
   * whole years are stepped over forwards or backwards.
   */
  function YearDay(days: int, year: int): (r: (int, int))
    ensures 0 <= r.1 < DaysInYear(r.0)
    decreases if days < 0 then 400 - days else days
  {
    if days < 0 then YearDay(days + DaysInYear(year - 1), year - 1)
    else if days >= DaysInYear(year) then YearDay(days - DaysInYear(year), year + 1)
    else (year, days)
  }

  /** Days in the year before the first of `month` (1 to 13). */
  function MonthStart(month: int, leap: bool): int
    requires 1 <= month <= 13
  {
    [0, 31, 59, 90, 120, 151, 181, 212, 243, 273, 304, 334, 365][month - 1] + (if leap && month > 2 then 1 else 0)
  }

  /** The month (searched downwards from `month`) whose days hold day index `doy` of the year. */
  function MonthOf(doy: int, leap: bool, month: int): (m: int)
    requires 1 <= month <= 12 && 0 <= doy < MonthStart(month + 1, leap)
    ensures 1 <= m <= month && MonthStart(m, leap) <= doy < MonthStart(m + 1, leap)
  {
    if month == 1 || MonthStart(month, leap) <= doy then month else MonthOf(doy, leap, month - 1)
  }

  /** The UTC date and time of minute `m` after the Unix epoch, by the proleptic Gregorian calendar. */
  function CivilOf(m: int): (c: Civil)
    ensures 0 <= c.minute < 60 && 0 <= c.hour < 24 && 0 <= c.weekday < 7
    ensures 1 <= c.month <= 12 && 1 <= c.day <= 31
  {
    var days := m / 1440;
    var (year, doy) := YearDay(days, 1970);
    var leap := IsLeap(year);
    var month := MonthOf(doy, leap, 12);
    Civil(year, month, doy - MonthStart(month, leap) + 1, (m / 60) % 24, m % 60, (days + 4) % 7)
  }

  /** The first minute of 1970 reads as Thursday 1970-01-01 00:00. */
  lemma EpochIsThursday()
    ensures CivilOf(0) == Civil(1970, 1, 1, 0, 0, 4)
  {
    assert YearDay(0, 1970) == (1970, 0);
  }

  // ---------------------------------------------------------------- the calendar, the other way round

  /** The length of a month in the Gregorian calendar. */
  function DaysInMonth(month: int, leap: bool): int
    requires 1 <= month <= 12
  {
    if month == 2 then (if leap then 29 else 28)
    else if month == 4 || month == 6 || month == 9 || month == 11 then 30
    else 31
  }

  /** Days from 1 January 1970 to 1 January of `year`, negative for earlier years. */
  function DaysBefore(year: int): int
    decreases if year < 1970 then 1970 - year else year - 1970
  {
    if year == 1970 then 0
    else if year > 1970 then DaysBefore(year - 1) + DaysInYear(year - 1)
    else DaysBefore(year + 1) - DaysInYear(year)
  }

  /** The day number, counted from 1970-01-01, of a calendar date. */
  function DaysFromCivil(year: int, month: int, day: int): int
    requires 1 <= month <= 12
  {
    DaysBefore(year) + MonthStart(month, IsLeap(year)) + day - 1
  }

  lemma DaysBeforeStep(year: int)
    ensures DaysBefore(year + 1) == DaysBefore(year) + DaysInYear(year)
  {
    if year + 1 > 1970 {
      assert DaysBefore(year + 1) == DaysBefore(year) + DaysInYear(year);
    } else {
      assert DaysBefore(year) == DaysBefore(year + 1) - DaysInYear(year);
    }
  }

  lemma {:induction false} DaysBeforeBelow(a: int, b: int)
    requires a < b
    ensures DaysBefore(a) + DaysInYear(a) <= DaysBefore(b)
    decreases b - a
  {
    DaysBeforeStep(a);
    if a + 1 < b {
      DaysBeforeBelow(a + 1, b);
    }
  }

  /** YearDay steps over whole years without losing a day. */
  lemma {:induction false} YearDaySpec(days: int, year: int)
    ensures DaysBefore(YearDay(days, year).0) + YearDay(days, year).1 == DaysBefore(year) + days
    decreases if days < 0 then 400 - days else days
  {
    if days < 0 {
      YearDaySpec(days + DaysInYear(year - 1), year - 1);
      DaysBeforeStep(year - 1);
    } else if days >= DaysInYear(year) {
      YearDaySpec(days - DaysInYear(year), year + 1);
      DaysBeforeStep(year);
    }
  }

  /** A day of a year is found in that year, at its index. */
  lemma YearDayUnique(n: int, y: int, k: int)
    requires 0 <= k < DaysInYear(y) && DaysBefore(y) + k == n
    ensures YearDay(n, 1970) == (y, k)
  {
    var (y', k') := YearDay(n, 1970);
    YearDaySpec(n, 1970);
    if y' < y {
      DaysBeforeBelow(y', y);
      assert false;
    } else if y < y' {
      DaysBeforeBelow(y, y');
      assert false;
    }
  }

  /** The month table accumulates the month lengths. */
  lemma MonthStartStep(month: int, leap: bool)
    requires 1 <= month <= 12
    ensures MonthStart(month + 1, leap) == MonthStart(month, leap) + DaysInMonth(month, leap)
    ensures MonthStart(1, leap) == 0 && MonthStart(13, leap) == if leap then 366 else 365
  {
  }

  lemma {:induction false} MonthStartBelow(a: int, b: int, leap: bool)
    requires 1 <= a < b <= 13
    ensures MonthStart(a, leap) + DaysInMonth(a, leap) <= MonthStart(b, leap)
    decreases b - a
  {
    MonthStartStep(a, leap);
    if a + 1 < b {
      MonthStartBelow(a + 1, b, leap);
    }
  }

  /** A minute splits into its day, hour and minute, as CivilOf reads them. */
  lemma MinuteParts(m: int)
    ensures m == (m / 1440) * 1440 + ((m / 60) % 24) * 60 + m % 60
  {
    var q, r := m / 60, m % 60;
    assert m == 60 * q + r;
    assert q == 24 * (q / 24) + q % 24;
    assert m == 1440 * (q / 24) + (60 * (q % 24) + r);
    assert m / 1440 == q / 24;
  }

  /** CivilOf reads a valid date whose day number, hour and minute give back the minute. */
  lemma CivilOfInverse(m: int)
    ensures var c := CivilOf(m);
      && 1 <= c.day <= DaysInMonth(c.month, IsLeap(c.year))
      && DaysFromCivil(c.year, c.month, c.day) * 1440 + c.hour * 60 + c.minute == m
      && c.weekday == (DaysFromCivil(c.year, c.month, c.day) + 4) % 7
  {
    var c := CivilOf(m);
    var days := m / 1440;
    YearDaySpec(days, 1970);
    MonthStartStep(c.month, IsLeap(c.year));
    MinuteParts(m);
  }

  /** Every valid date and time is read back by CivilOf from its minute: CivilOf inverts DaysFromCivil. */
  lemma CivilOfUnique(m: int, y: int, mo: int, d: int, hh: int, mm: int)
    requires 1 <= mo <= 12 && 1 <= d <= DaysInMonth(mo, IsLeap(y)) && 0 <= hh < 24 && 0 <= mm < 60
    requires DaysFromCivil(y, mo, d) * 1440 + hh * 60 + mm == m
    ensures var c := CivilOf(m); c.year == y && c.month == mo && c.day == d && c.hour == hh && c.minute == mm
  {
    var leap := IsLeap(y);
    var n := DaysFromCivil(y, mo, d);
    var k := MonthStart(mo, leap) + d - 1;
    MonthStartStep(mo, leap);
    if mo < 12 {
      MonthStartBelow(mo + 1, 13, leap);
    }
    MonthStartStep(12, leap);
    assert k < DaysInYear(y);
    MinuteParts(m);
    assert m / 1440 == n && (m / 60) % 24 == hh && m % 60 == mm;
    YearDayUnique(n, y, k);
    var month := MonthOf(k, leap, 12);
    if month < mo {
      MonthStartStep(month, leap);
      MonthStartBelow(month, mo, leap);
      assert false;
    } else if mo < month {
      MonthStartBelow(mo, month, leap);
      assert false;
    }
  }

  /** The minute before the epoch is Wednesday 1969-12-31 23:59, and 1972's leap day is a Tuesday. */
  lemma CalendarExamples()
    ensures CivilOf(-1) == Civil(1969, 12, 31, 23, 59, 3)
    ensures CivilOf(789 * 1440) == Civil(1972, 2, 29, 0, 0, 2)
  {
    assert DaysBefore(1969) == -365;
    CivilOfUnique(-1, 1969, 12, 31, 23, 59);
    DaysBeforeStep(1970);
    DaysBeforeStep(1971);
    CivilOfUnique(789 * 1440, 1972, 2, 29, 0, 0);
  }

  /** A day later the weekday advances by one. */
  lemma NextDayWeekday(m: int)
    ensures CivilOf(m + 1440).weekday == (CivilOf(m).weekday + 1) % 7
  {
    assert (m + 1440) / 1440 == m / 1440 + 1;
  }

  /** A day later the date rolls over to the next day, the next month's first, or New Year's Day. */
  lemma NextDay(m: int)
    ensures var c, n := CivilOf(m), CivilOf(m + 1440);
      && n.hour == c.hour && n.minute == c.minute
      && (c.day < DaysInMonth(c.month, IsLeap(c.year)) ==> n.year == c.year && n.month == c.month && n.day == c.day + 1)
      && (c.day == DaysInMonth(c.month, IsLeap(c.year)) && c.month < 12 ==> n.year == c.year && n.month == c.month + 1 && n.day == 1)
      && (c.day == DaysInMonth(c.month, IsLeap(c.year)) && c.month == 12 ==> n.year == c.year + 1 && n.month == 1 && n.day == 1)
  {
    var c := CivilOf(m);
    var leap := IsLeap(c.year);
    CivilOfInverse(m);
    var n := DaysFromCivil(c.year, c.month, c.day);
    if c.day < DaysInMonth(c.month, leap) {
      CivilOfUnique(m + 1440, c.year, c.month, c.day + 1, c.hour, c.minute);
    } else if c.month < 12 {
      MonthStartStep(c.month, leap);
      assert DaysFromCivil(c.year, c.month + 1, 1) == n + 1;
      CivilOfUnique(m + 1440, c.year, c.month + 1, 1, c.hour, c.minute);
    } else {
      MonthStartStep(12, leap);
      DaysBeforeStep(c.year);
      assert DaysFromCivil(c.year + 1, 1, 1) == n + 1;
      CivilOfUnique(m + 1440, c.year + 1, 1, 1, c.hour, c.minute);
    }
  }

  // ---------------------------------------------------------------- matching

  /** `matches`: minute, hour, month, day of the month and weekday must all be accepted. */
  predicate Matches(c: CronSchedule, m: int)
  {
    var t := CivilOf(m);
    && t.minute in c.minutes
    && t.hour in c.hours
    && t.month in c.months
    && t.day in c.doms
    && t.weekday in c.dows
  }

  /** `* * * * *` matches every minute. */
  lemma EveryMinuteMatches(m: int)
    ensures Matches(EveryMinute, m)
  {
    var t := CivilOf(m);
    RangeSpec(0, 59, t.minute);
    RangeSpec(0, 23, t.hour);
    RangeSpec(1, 12, t.month);
    RangeSpec(1, 31, t.day);
    RangeSpec(0, 6, t.weekday);
  }

  /** The minute after the one holding second `after`: where the search starts. */
  function SearchStart(after: int): (m: int)
    ensures m * 60 > after && (m - 1) * 60 <= after
  {
    after / 60 + 1
  }

  /**
   * `next`: the earliest matching minute from the start on, within one year, as a time in seconds;
   * it is always later than `after`.
   */
  method Next(c: CronSchedule, after: int) returns (r: Result<int, NextError>)
    ensures r.Ok? ==>
      var m := r.value / 60;
      && r.value % 60 == 0 && r.value > after
      && SearchStart(after) <= m < SearchStart(after) + SearchMinutes
      && Matches(c, m)
      && forall k :: SearchStart(after) <= k < m ==> !Matches(c, k)
    ensures r.Err? ==> forall k :: SearchStart(after) <= k < SearchStart(after) + SearchMinutes ==> !Matches(c, k)
  {
    var start := SearchStart(after);
    var i := 0;
    while i < SearchMinutes
      invariant 0 <= i <= SearchMinutes
      invariant forall k :: start <= k < start + i ==> !Matches(c, k)
    {
      if Matches(c, start + i) {
        return Ok((start + i) * 60);
      }
      i := i + 1;
    }
    return Err(NoMatchingTime);
  }

  // ---------------------------------------------------------------- the step loop in int64

  /** The step loop as written, with `i += step` wrapping; `fuel` bounds the iterations modelled. */
  function StepLoop64(i: int, max: int, step: int, fuel: nat): set<int>
    decreases fuel
  {
    if fuel == 0 || i > max then {} else {i} + StepLoop64(Wrap64(i + step), max, step, fuel - 1)
  }

  /** The largest int64 step is accepted by the step parser. */
  lemma StepOverflowParse()
    ensures Atoi(("*/" + Itoa(MaxInt64))[2..]) == Some(MaxInt64)
  {
    assert ("*/" + Itoa(MaxInt64))[2..] == Itoa(MaxInt64);
    AtoiItoa(MaxInt64);
  }

  /**
   * With the largest int64 step and a field starting at 1 (day of the month, month), the loop as written
   * wraps past the maximum int64 and adds two negative values before it stops by itself.
   */
  lemma StepOverflow()
    ensures StepLoop64(1, 31, MaxInt64, 4) == {1, MinInt64, -1}
    ensures Wrap64(Wrap64(Wrap64(1 + MaxInt64) + MaxInt64) + MaxInt64) > 31
    ensures !(StepLoop64(1, 31, MaxInt64, 4) <= Range(1, 31))
  {
    assert Wrap64(1 + MaxInt64) == MinInt64;
    assert Wrap64(MinInt64 + MaxInt64) == -1;
    assert Wrap64(-1 + MaxInt64) == MaxInt64 - 1;
    assert StepLoop64(MaxInt64 - 1, 31, MaxInt64, 1) == {};
    assert StepLoop64(-1, 31, MaxInt64, 2) == {-1};
    assert StepLoop64(MinInt64, 31, MaxInt64, 3) == {MinInt64, -1};
    RangeSpec(1, 31, MinInt64);
  }

  /** The intended loop, on unbounded integers, takes the same step once and stops inside the range. */
  lemma StepLargeCorrected()
    ensures StepValues(1, 31, MaxInt64) == {1}
    ensures StepValues(1, 31, MaxInt64) <= Range(1, 31)
  {
    assert StepValues(1 + MaxInt64, 31, MaxInt64) == {};
    RangeSpec(1, 31, 1);
  }
}

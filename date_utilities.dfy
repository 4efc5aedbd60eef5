/**
 * `DateUtilities`: the next day, the span and the min/max statistics of a
 * list of dates, and the ordinal day suffix.  A date is its proleptic
 * Gregorian day number, as `date.toordinal()` numbers it, so `datetime.min`
 * is day 1 and the next day is one more.
 */
module DateUtilities {
  import opened Wrappers
  import opened PyInt
  import FileName

  type Day = int

  /** `datetime.min`. */
  const MinDay: Day := 1

  /** `next`: exactly one day after `d`. */
  function Next(d: Day): (r: Day)
    ensures r - d == 1
  {
    d + 1
  }

  /** `min(dates)` of a non-empty list. */
  function Min(s: seq<Day>): (m: Day)
    requires s != []
    ensures m in s && forall x :: x in s ==> m <= x
    decreases |s|
  {
    if |s| == 1 then s[0]
    else
      var rest := Min(s[1..]);
      assert s == [s[0]] + s[1..];
      if s[0] <= rest then s[0] else rest
  }

  /** `max(dates)` of a non-empty list. */
  function Max(s: seq<Day>): (m: Day)
    requires s != []
    ensures m in s && forall x :: x in s ==> x <= m
    decreases |s|
  {
    if |s| == 1 then s[0]
    else
      var rest := Max(s[1..]);
      assert s == [s[0]] + s[1..];
      if rest <= s[0] then s[0] else rest
  }

  /**
   * `range` without the float ratios (weeks, months, years): the inclusive
   * number of days from `first` to `last`, or None when the two dates
   * coincide, because a zero `timedelta` is falsy.
   */
  function Range(first: Day, last: Day): (r: Option<int>)
    ensures r.None? <==> first == last
    ensures r.Some? ==> r.value == last - first + 1
  {
    if last - first == 0 then None else Some(last - first + 1)
  }

  /** The `stats` dict: `first_date`, `last_date` and `days` (the float ratios are not modelled). */
  datatype DateStats = DateStats(firstDate: Day, lastDate: Day, days: Option<int>)

  /**
   * `stats(timeline)`: `datetime.min` bounds and a zero count for an empty
   * timeline, otherwise its earliest and latest day and their `range`.
   */
  function Stats(timeline: seq<Day>): (r: DateStats)
    ensures timeline == [] ==> r == DateStats(MinDay, MinDay, Some(0))
    ensures timeline != [] ==> r.firstDate in timeline && r.lastDate in timeline
    ensures timeline != [] ==> forall x :: x in timeline ==> r.firstDate <= x <= r.lastDate
    ensures timeline != [] ==> r.days == Range(r.firstDate, r.lastDate)
  {
    if timeline == [] then DateStats(MinDay, MinDay, Some(0))
    else
      var first := Min(timeline);
      var last := Max(timeline);
      DateStats(first, last, Range(first, last))
  }

  /** A timeline of a single date, repeated or not, has no day count instead of 1. */
  lemma StatsOfOneDay(timeline: seq<Day>)
    requires timeline != [] && forall x :: x in timeline ==> x == timeline[0]
    ensures Stats(timeline) == DateStats(timeline[0], timeline[0], None)
  {
    assert timeline[0] in timeline;
  }

  /**
   * `add_ordinal_suffix_to_day_of_month(day)` on a string: `int(day)` picks
   * the suffix, and the string itself is kept, so "01" becomes "01st".
   */
  function AddOrdinalSuffixToDayOfMonth(day: string): (r: Result<string>)
    ensures r.Ok? <==> ParseInt(day).Ok?
    ensures r.Ok? ==> |r.value| == |day| + 2 && r.value[..|day|] == day
    ensures r.Ok? ==> r.value[|day|..] == FileName.OrdinalSuffix(ParseInt(day).value)
  {
    match ParseInt(day)
    case Ok(n) =>
      var r := day + FileName.OrdinalSuffix(n);
      assert r[..|day|] == day && r[|day|..] == FileName.OrdinalSuffix(n);
      Ok(r)
    case Err(e) => Err(e)
  }

  /** On a day number's canonical spelling the two ordinal helpers agree. */
  lemma OrdinalAgreesWithFileName(n: int)
    ensures AddOrdinalSuffixToDayOfMonth(IntToString(n)) == Ok(FileName.AddOrdinalSuffixToDayOfMonth(n))
  {
    ParseIntToString(n);
  }

  /** A zero-padded day keeps its padding. */
  lemma OrdinalKeepsPadding(day: string)
    requires day == "01"
    ensures AddOrdinalSuffixToDayOfMonth(day) == Ok("01st")
  {
    assert day[0] == '0' && day[1] == '1' && |day| == 2;
    assert ParseDigits(day[..1]) == Some(0);
    assert ParseDigits(day) == Some(1);
    assert day + "st" == "01st";
  }
}

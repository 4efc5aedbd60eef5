/**
 * `LogseqJournals` of the analysis package: the existing journal days with
 * the gaps between consecutive ones filled in, the gap days that no dangling
 * journal link mentions, all journal days sorted together, the statistics of
 * each list, and the past/inside/future split of the dangling journal days.
 * The journal file names and the dangling links arrive already read as day
 * numbers (the `strptime` conversion is not modelled).
 */
module Journals {
  import opened Wrappers
  import opened Order
  import opened DateUtilities

  // ---------------------------------------------------------------------------
  // Orders on days

  predicate Ascending(s: seq<Day>)
  {
    forall i, j :: 0 <= i < j < |s| ==> s[i] <= s[j]
  }

  predicate Increasing(s: seq<Day>)
  {
    forall i, j :: 0 <= i < j < |s| ==> s[i] < s[j]
  }

  function Negate(d: Day): int
  {
    -d
  }

  /** `sorted(days)`: ascending and a permutation of the input. */
  function SortDays(s: seq<Day>): (r: seq<Day>)
    ensures Ascending(r)
    ensures multiset(r) == multiset(s) && |r| == |s|
  {
    var r := SortDesc(s, Negate);
    assert forall i, j :: 0 <= i < j < |r| ==> Negate(r[i]) >= Negate(r[j]);
    r
  }

  // ---------------------------------------------------------------------------
  // The timeline and its gaps

  /** The days from `a` up to but excluding `b`, one after the other. */
  function Between(a: Day, b: Day): (r: seq<Day>)
    ensures |r| == if a < b then b - a else 0
    decreases b - a
  {
    if a < b then [a] + Between(a + 1, b) else []
  }

  /** The `k`-th day from `a` is `a + k`. */
  lemma {:induction false} BetweenElements(a: Day, b: Day)
    ensures forall k :: 0 <= k < |Between(a, b)| ==> Between(a, b)[k] == a + k
    decreases b - a
  {
    if a < b {
      BetweenElements(a + 1, b);
    }
  }

  lemma BetweenIncreasing(a: Day, b: Day)
    ensures Increasing(Between(a, b))
    ensures forall x :: x in Between(a, b) ==> a <= x < b
  {
    BetweenElements(a, b);
  }

  lemma AscendingAppend(s: seq<Day>, t: seq<Day>, m: Day)
    requires Ascending(s) && Ascending(t)
    requires forall x :: x in s ==> x <= m
    requires forall y :: y in t ==> m <= y
    ensures Ascending(s + t)
  {
    forall i, j | 0 <= i < j < |s + t| ensures (s + t)[i] <= (s + t)[j] {
      if j < |s| {
      } else if i < |s| {
        assert (s + t)[i] in s;
        assert (s + t)[j] in t;
      } else {
        assert (s + t)[i] == t[i - |s|];
        assert (s + t)[j] == t[j - |s|];
      }
    }
  }

  lemma IncreasingAppend(s: seq<Day>, t: seq<Day>, m: Day)
    requires Increasing(s) && Increasing(t)
    requires forall x :: x in s ==> x < m
    requires forall y :: y in t ==> m <= y
    ensures Increasing(s + t)
  {
    forall i, j | 0 <= i < j < |s + t| ensures (s + t)[i] < (s + t)[j] {
      if j < |s| {
      } else if i < |s| {
        assert (s + t)[i] in s;
        assert (s + t)[j] in t;
      } else {
        assert (s + t)[i] == t[i - |s|];
        assert (s + t)[j] == t[j - |s|];
      }
    }
  }

  /** The gap after the `i`-th existing day: the days strictly before the next existing day. */
  function Gap(existing: seq<Day>, i: nat): seq<Day>
    requires i < |existing|
  {
    if i + 1 < |existing| then Between(existing[i] + 1, existing[i + 1]) else []
  }

  /** The timeline the loop has built after its first `i` rounds: each day, then its gap. */
  function TimelineUpTo(existing: seq<Day>, i: nat): seq<Day>
    requires i <= |existing|
  {
    if i == 0 then [] else TimelineUpTo(existing, i - 1) + [existing[i - 1]] + Gap(existing, i - 1)
  }

  function Timeline(existing: seq<Day>): seq<Day>
  {
    TimelineUpTo(existing, |existing|)
  }

  /** The gap days of the first `i` rounds, in order. */
  function GapDaysUpTo(existing: seq<Day>, i: nat): seq<Day>
    requires i <= |existing|
  {
    if i == 0 then [] else GapDaysUpTo(existing, i - 1) + Gap(existing, i - 1)
  }

  function GapDays(existing: seq<Day>): seq<Day>
  {
    GapDaysUpTo(existing, |existing|)
  }

  /** The days of `s` that are not in `dangling`, in order. */
  function Absent(s: seq<Day>, dangling: seq<Day>): seq<Day>
    decreases |s|
  {
    if s == [] then [] else (if s[0] in dangling then [] else [s[0]]) + Absent(s[1..], dangling)
  }

  /** `missing`: the gap days that are not dangling journal links. */
  function Missing(existing: seq<Day>, dangling: seq<Day>): seq<Day>
  {
    Absent(GapDays(existing), dangling)
  }

  lemma BetweenSnoc(a: Day, b: Day)
    requires a <= b
    ensures Between(a, b + 1) == Between(a, b) + [b]
  {
    assert |Between(a, b + 1)| == |Between(a, b) + [b]|;
    BetweenElements(a, b);
    BetweenElements(a, b + 1);
    forall k | 0 <= k < |Between(a, b + 1)| ensures Between(a, b + 1)[k] == (Between(a, b) + [b])[k] {
    }
  }

  lemma BetweenAppend(a: Day, b: Day, c: Day)
    requires a <= b <= c
    ensures Between(a, b) + Between(b, c) == Between(a, c)
  {
    var l, r := Between(a, b), Between(b, c);
    BetweenElements(a, b);
    BetweenElements(b, c);
    BetweenElements(a, c);
    assert |l + r| == |Between(a, c)|;
    forall k | 0 <= k < |l + r| ensures (l + r)[k] == Between(a, c)[k] {
      if k >= |l| {
        assert (l + r)[k] == r[k - |l|];
      }
    }
  }

  lemma {:induction false} AbsentAppend(s: seq<Day>, t: seq<Day>, dangling: seq<Day>)
    ensures Absent(s + t, dangling) == Absent(s, dangling) + Absent(t, dangling)
    decreases |s|
  {
    if s == [] {
      assert s + t == t;
    } else {
      assert (s + t)[0] == s[0];
      assert (s + t)[1..] == s[1..] + t;
      AbsentAppend(s[1..], t, dangling);
    }
  }

  lemma AbsentSnoc(s: seq<Day>, x: Day, dangling: seq<Day>)
    ensures Absent(s + [x], dangling) == Absent(s, dangling) + (if x in dangling then [] else [x])
  {
    AbsentAppend(s, [x], dangling);
    assert Absent([x], dangling) == (if x in dangling then [] else [x]) + Absent([], dangling);
  }

  /** `x` survives the filter exactly when it is in `s` and not dangling. */
  lemma {:induction false} AbsentMembers(s: seq<Day>, dangling: seq<Day>, x: Day)
    ensures x in Absent(s, dangling) <==> x in s && x !in dangling
    decreases |s|
  {
    if s != [] {
      AbsentMembers(s[1..], dangling, x);
      assert s == [s[0]] + s[1..];
    }
  }

  // ---------------------------------------------------------------------------
  // The loop of `build_complete_timeline`

  /**
   * The inner `while` of `build_complete_timeline`: the days after `date`
   * up to the next existing day, and those of them that are not dangling.
   */
  method FillGap(existing: seq<Day>, i: nat, dangling: seq<Day>) returns (fill: seq<Day>, missing: seq<Day>)
    requires i < |existing|
    ensures fill == Gap(existing, i)
    ensures missing == Absent(fill, dangling)
  {
    var date := existing[i];
    var nextExisting: Option<Day> := if i + 1 < |existing| then Some(existing[i + 1]) else None;
    fill, missing := [], [];
    var nextExpected := Next(date);
    while nextExisting.Some? && nextExpected < nextExisting.value
      invariant date + 1 <= nextExpected
      invariant nextExpected == date + 1 || (nextExisting.Some? && nextExpected <= nextExisting.value)
      invariant fill == Between(date + 1, nextExpected)
      invariant missing == Absent(fill, dangling)
      decreases if nextExisting.Some? then nextExisting.value - nextExpected else 0
    {
      BetweenSnoc(date + 1, nextExpected);
      AbsentSnoc(fill, nextExpected, dangling);
      fill := fill + [nextExpected];
      if nextExpected !in dangling {
        missing := missing + [nextExpected];
      }
      nextExpected := Next(nextExpected);
    }
  }

  /**
   * The loop of `build_complete_timeline`: every existing day, followed by
   * the days up to the next existing one; a filled-in day that is not a
   * dangling journal day is missing.
   */
  method BuildTimeline(existing: seq<Day>, dangling: seq<Day>) returns (timeline: seq<Day>, missing: seq<Day>)
    ensures timeline == Timeline(existing)
    ensures missing == Missing(existing, dangling)
  {
    timeline, missing := [], [];
    var i := 0;
    while i < |existing|
      invariant 0 <= i <= |existing|
      invariant (timeline, missing) == BuiltUpTo(existing, dangling, i)
    {
      var date := existing[i];
      var fill, gapMissing := FillGap(existing, i, dangling);
      BuiltStep(existing, dangling, i, fill, gapMissing);
      timeline := timeline + [date] + fill;
      missing := missing + gapMissing;
      i := i + 1;
    }
  }

  /** The timeline and the missing days after the first `i` rounds. */
  function BuiltUpTo(existing: seq<Day>, dangling: seq<Day>, i: nat): (seq<Day>, seq<Day>)
    requires i <= |existing|
  {
    (TimelineUpTo(existing, i), Absent(GapDaysUpTo(existing, i), dangling))
  }

  lemma BuiltStep(existing: seq<Day>, dangling: seq<Day>, i: nat, fill: seq<Day>, missing: seq<Day>)
    requires i < |existing|
    requires fill == Gap(existing, i) && missing == Absent(fill, dangling)
    ensures BuiltUpTo(existing, dangling, i + 1)
      == (BuiltUpTo(existing, dangling, i).0 + [existing[i]] + fill, BuiltUpTo(existing, dangling, i).1 + missing)
  {
    AbsentAppend(GapDaysUpTo(existing, i), fill, dangling);
  }

  // ---------------------------------------------------------------------------
  // What the timeline is

  /** The existing day the first `i` rounds lead up to: the next one, or the last. */
  function Upcoming(existing: seq<Day>, i: nat): Day
    requires 0 < |existing|
  {
    if i < |existing| then existing[i] else existing[|existing| - 1]
  }

  /** The bound the first `i` rounds fill up to: the next existing day, or one past the last. */
  function Reach(existing: seq<Day>, i: nat): Day
    requires 0 < i <= |existing|
  {
    if i < |existing| then existing[i] else existing[|existing| - 1] + 1
  }

  lemma {:induction false} TimelineUpToRun(existing: seq<Day>, i: nat)
    requires Increasing(existing) && 0 < i <= |existing|
    ensures TimelineUpTo(existing, i) == Between(existing[0], Reach(existing, i))
    decreases i
  {
    var d := existing[i - 1];
    assert Between(d, Reach(existing, i)) == [d] + Gap(existing, i - 1);
    if i == 1 {
      assert TimelineUpTo(existing, 0) == [];
    } else {
      TimelineUpToRun(existing, i - 1);
      BetweenAppend(existing[0], d, Reach(existing, i));
    }
  }

  /**
   * For strictly increasing existing days the timeline is every day from the
   * first to the last existing one, each once and in order.
   */
  lemma TimelineIsContiguous(existing: seq<Day>)
    requires Increasing(existing) && existing != []
    ensures Timeline(existing) == Between(existing[0], existing[|existing| - 1] + 1)
    ensures |Timeline(existing)| == existing[|existing| - 1] - existing[0] + 1
    ensures forall k :: 0 <= k < |Timeline(existing)| ==> Timeline(existing)[k] == existing[0] + k
  {
    TimelineUpToRun(existing, |existing|);
    BetweenElements(existing[0], existing[|existing| - 1] + 1);
  }

  lemma {:induction false} TimelineUpToKeeps(existing: seq<Day>, i: nat, j: nat)
    requires j < i <= |existing|
    ensures existing[j] in TimelineUpTo(existing, i)
    decreases i
  {
    var done, g := TimelineUpTo(existing, i - 1), Gap(existing, i - 1);
    assert TimelineUpTo(existing, i) == (done + [existing[i - 1]]) + g;
    if j < i - 1 {
      TimelineUpToKeeps(existing, i - 1, j);
      assert existing[j] in done + [existing[i - 1]];
    } else {
      assert existing[j] in done + [existing[i - 1]];
    }
  }

  /** Every existing day is on the timeline, whatever their order. */
  lemma ExistingOnTimeline(existing: seq<Day>)
    ensures forall j :: 0 <= j < |existing| ==> existing[j] in Timeline(existing)
  {
    forall j | 0 <= j < |existing| ensures existing[j] in Timeline(existing) {
      TimelineUpToKeeps(existing, |existing|, j);
    }
  }

  /** The timeline holds each existing day once, plus every gap day. */
  lemma {:induction false} TimelineUpToMembers(existing: seq<Day>, i: nat, x: Day)
    requires i <= |existing|
    ensures x in TimelineUpTo(existing, i) <==> x in existing[..i] || x in GapDaysUpTo(existing, i)
    ensures |TimelineUpTo(existing, i)| == i + |GapDaysUpTo(existing, i)|
    decreases i
  {
    if i > 0 {
      TimelineUpToMembers(existing, i - 1, x);
      assert existing[..i] == existing[..i - 1] + [existing[i - 1]];
    }
  }

  lemma TimelineLength(existing: seq<Day>)
    ensures |Timeline(existing)| == |existing| + |GapDays(existing)|
  {
    TimelineUpToMembers(existing, |existing|, 0);
  }

  /** Every gap day after round `j` lies strictly between the `j`-th existing day and the next. */
  lemma {:induction false} GapDaysBetween(existing: seq<Day>, i: nat, x: Day)
    requires i <= |existing| && x in GapDaysUpTo(existing, i)
    ensures exists j :: 0 <= j < i && j + 1 < |existing| && existing[j] < x < existing[j + 1]
    decreases i
  {
    var j := i - 1;
    if x in GapDaysUpTo(existing, j) {
      GapDaysBetween(existing, j, x);
    } else {
      assert x in Gap(existing, j);
      assert j + 1 < |existing|;
      BetweenIncreasing(existing[j] + 1, existing[j + 1]);
    }
  }

  /** On a sorted list of existing days no gap day is an existing day. */
  lemma GapDaysNotExisting(existing: seq<Day>, x: Day)
    requires Ascending(existing) && x in GapDays(existing)
    ensures x !in existing
  {
    GapDaysBetween(existing, |existing|, x);
    var j :| 0 <= j < |existing| && j + 1 < |existing| && existing[j] < x < existing[j + 1];
    forall k | 0 <= k < |existing| ensures existing[k] != x {
      if k <= j {
        assert existing[k] <= existing[j];
      } else {
        assert existing[j + 1] <= existing[k];
      }
    }
  }

  /**
   * On a sorted list of existing days a day is missing exactly when it is on
   * the timeline, is not an existing day and is not a dangling journal day;
   * in particular no existing day is missing.
   */
  lemma MissingExactly(existing: seq<Day>, dangling: seq<Day>, x: Day)
    requires Ascending(existing)
    ensures x in Missing(existing, dangling) <==> x in Timeline(existing) && x !in existing && x !in dangling
  {
    AbsentMembers(GapDays(existing), dangling, x);
    TimelineUpToMembers(existing, |existing|, x);
    assert existing[..|existing|] == existing;
    if x in GapDays(existing) {
      GapDaysNotExisting(existing, x);
    }
  }

  lemma {:induction false} GapDaysUpToRise(existing: seq<Day>, i: nat)
    requires Ascending(existing) && 0 < i <= |existing|
    ensures Increasing(GapDaysUpTo(existing, i))
    ensures forall x :: x in GapDaysUpTo(existing, i) ==> x < Upcoming(existing, i)
    decreases i
  {
    var g := Gap(existing, i - 1);
    var d := existing[i - 1];
    if i < |existing| {
      BetweenIncreasing(d + 1, existing[i]);
    }
    if i > 1 {
      GapDaysUpToRise(existing, i - 1);
      IncreasingAppend(GapDaysUpTo(existing, i - 1), g, d + 1);
    } else {
      assert GapDaysUpTo(existing, 1) == [] + g;
    }
  }

  /** On a sorted list of existing days the gap days are strictly increasing, so none repeats. */
  lemma GapDaysIncreasing(existing: seq<Day>)
    requires Ascending(existing)
    ensures Increasing(GapDays(existing))
  {
    if existing != [] {
      GapDaysUpToRise(existing, |existing|);
    }
  }

  /** Sorted existing days give a sorted timeline. */
  lemma {:induction false} TimelineUpToAscending(existing: seq<Day>, i: nat)
    requires Ascending(existing) && 0 < i <= |existing|
    ensures Ascending(TimelineUpTo(existing, i))
    ensures forall x :: x in TimelineUpTo(existing, i) ==> x <= Upcoming(existing, i)
    decreases i
  {
    var d := existing[i - 1];
    var g := Gap(existing, i - 1);
    var done := TimelineUpTo(existing, i - 1);
    if i < |existing| {
      BetweenIncreasing(d + 1, existing[i]);
    }
    if i > 1 {
      TimelineUpToAscending(existing, i - 1);
    }
    AscendingAppend(done, [d], d);
    AscendingAppend(done + [d], g, d);
    assert TimelineUpTo(existing, i) == (done + [d]) + g;
  }

  lemma TimelineAscending(existing: seq<Day>)
    requires Ascending(existing)
    ensures Ascending(Timeline(existing))
  {
    if existing != [] {
      TimelineUpToAscending(existing, |existing|);
    }
  }

  /** The timeline statistics of strictly increasing days: its bounds and its length as the day count. */
  lemma TimelineStatsSpan(existing: seq<Day>)
    requires Increasing(existing) && |existing| > 1
    ensures Stats(Timeline(existing)) == DateStats(existing[0], existing[|existing| - 1], Some(|Timeline(existing)|))
  {
    var first, last := existing[0], existing[|existing| - 1];
    TimelineUpToRun(existing, |existing|);
    assert Timeline(existing) == Between(first, last + 1);
    assert first < last;
    StatsOfRun(first, last);
  }

  /** The statistics of the run of days from `first` to `last`. */
  lemma StatsOfRun(first: Day, last: Day)
    requires first < last
    ensures Stats(Between(first, last + 1)) == DateStats(first, last, Some(|Between(first, last + 1)|))
  {
    var t := Between(first, last + 1);
    BetweenElements(first, last + 1);
    BetweenIncreasing(first, last + 1);
    assert t[0] == first && t[|t| - 1] == last;
    assert t[0] in t && t[|t| - 1] in t;
    var s := Stats(t);
    assert first <= s.firstDate <= t[0];
    assert t[|t| - 1] <= s.lastDate <= last;
    assert s.days == Range(first, last) == Some(|t|);
    assert s == DateStats(s.firstDate, s.lastDate, s.days);
  }

  // ---------------------------------------------------------------------------
  // Dangling journal days outside the timeline

  datatype Side = Past | Future | Inside

  /** The branch a dangling day takes: before the first day, after the last day, or neither. */
  function SideOf(d: Day, first: Day, last: Day): Side
  {
    if d < first then Past else if d > last then Future else Inside
  }

  /** The days of `s` on `side`, in order. */
  function OnSide(s: seq<Day>, first: Day, last: Day, side: Side): seq<Day>
    decreases |s|
  {
    if s == [] then []
    else (if SideOf(s[0], first, last) == side then [s[0]] else []) + OnSide(s[1..], first, last, side)
  }

  /** The `dangling` dict: the "past", "future" and "inside" lists. */
  datatype DanglingBuckets = DanglingBuckets(past: seq<Day>, future: seq<Day>, inside: seq<Day>)

  function Buckets(dangling: seq<Day>, first: Day, last: Day): DanglingBuckets
  {
    DanglingBuckets(OnSide(dangling, first, last, Past), OnSide(dangling, first, last, Future), OnSide(dangling, first, last, Inside))
  }

  lemma {:induction false} OnSideMembers(s: seq<Day>, first: Day, last: Day, side: Side, x: Day)
    ensures x in OnSide(s, first, last, side) <==> x in s && SideOf(x, first, last) == side
    decreases |s|
  {
    if s != [] {
      OnSideMembers(s[1..], first, last, side, x);
      assert s == [s[0]] + s[1..];
    }
  }

  /** A bucket holds every copy of the days on its side and no other day. */
  lemma {:induction false} OnSideCount(s: seq<Day>, first: Day, last: Day, side: Side, x: Day)
    ensures multiset(OnSide(s, first, last, side))[x] == if SideOf(x, first, last) == side then multiset(s)[x] else 0
    decreases |s|
  {
    if s != [] {
      var h, t := s[0], s[1..];
      OnSideCount(t, first, last, side, x);
      assert s == [h] + t;
      assert OnSide(s, first, last, side) == (if SideOf(h, first, last) == side then [h] else []) + OnSide(t, first, last, side);
    }
  }

  /** Every dangling day lands in exactly one bucket: the buckets split the list. */
  lemma BucketsPartition(s: seq<Day>, first: Day, last: Day)
    ensures multiset(OnSide(s, first, last, Past)) + multiset(OnSide(s, first, last, Future))
      + multiset(OnSide(s, first, last, Inside)) == multiset(s)
  {
    var p, f, n := OnSide(s, first, last, Past), OnSide(s, first, last, Future), OnSide(s, first, last, Inside);
    forall x ensures (multiset(p) + multiset(f) + multiset(n))[x] == multiset(s)[x] {
      OnSideCount(s, first, last, Past, x);
      OnSideCount(s, first, last, Future, x);
      OnSideCount(s, first, last, Inside, x);
    }
  }

  /** The three buckets by their bounds, when the first day is not after the last. */
  lemma BucketMembers(s: seq<Day>, first: Day, last: Day, x: Day)
    requires first <= last
    ensures x in OnSide(s, first, last, Past) <==> x in s && x < first
    ensures x in OnSide(s, first, last, Future) <==> x in s && last < x
    ensures x in OnSide(s, first, last, Inside) <==> x in s && first <= x <= last
  {
    OnSideMembers(s, first, last, Past, x);
    OnSideMembers(s, first, last, Future, x);
    OnSideMembers(s, first, last, Inside, x);
  }

  /** The loop of `get_dangling_journals_outside_range`, given the two bounds. */
  method SplitOutsideRange(dangling: seq<Day>, first: Day, last: Day) returns (b: DanglingBuckets)
    ensures b == Buckets(dangling, first, last)
  {
    b := DanglingBuckets([], [], []);
    var i := 0;
    while i < |dangling|
      invariant 0 <= i <= |dangling|
      invariant b == Buckets(dangling[..i], first, last)
    {
      var link := dangling[i];
      BucketsSnoc(dangling[..i], link, first, last);
      if link < first {
        b := b.(past := b.past + [link]);
      } else if link > last {
        b := b.(future := b.future + [link]);
      } else {
        b := b.(inside := b.inside + [link]);
      }
      assert dangling[..i + 1] == dangling[..i] + [link];
      i := i + 1;
    }
    assert dangling[..i] == dangling;
  }

  lemma {:induction false} OnSideSnoc(s: seq<Day>, x: Day, first: Day, last: Day, side: Side)
    ensures OnSide(s + [x], first, last, side) == OnSide(s, first, last, side) + (if SideOf(x, first, last) == side then [x] else [])
    decreases |s|
  {
    var e := if SideOf(x, first, last) == side then [x] else [];
    if s == [] {
      assert s + [x] == [x];
      assert OnSide([x], first, last, side) == e + OnSide([], first, last, side);
    } else {
      var h, t := s[0], s[1..];
      var g := if SideOf(h, first, last) == side then [h] else [];
      assert (s + [x])[0] == h;
      assert (s + [x])[1..] == t + [x];
      OnSideSnoc(t, x, first, last, side);
      assert OnSide(s + [x], first, last, side) == g + (OnSide(t, first, last, side) + e);
      assert OnSide(s, first, last, side) == g + OnSide(t, first, last, side);
    }
  }

  lemma BucketsSnoc(s: seq<Day>, x: Day, first: Day, last: Day)
    ensures Buckets(s + [x], first, last) == match SideOf(x, first, last)
      case Past => Buckets(s, first, last).(past := Buckets(s, first, last).past + [x])
      case Future => Buckets(s, first, last).(future := Buckets(s, first, last).future + [x])
      case Inside => Buckets(s, first, last).(inside := Buckets(s, first, last).inside + [x])
  {
    OnSideSnoc(s, x, first, last, Past);
    OnSideSnoc(s, x, first, last, Future);
    OnSideSnoc(s, x, first, last, Inside);
  }

  /** The three statistics `build_complete_timeline` stores. */
  datatype TimelineStats = TimelineStats(timeline: DateStats, dangling: DateStats, total: DateStats)

  /**
   * Reading a date out of a `stats` dict by key: "first_date" and
   * "last_date" hold dates, "days" and the float ratios hold counts, and
   * there is no other key.
   */
  function StatsDate(s: DateStats, key: string): (r: Result<Day>)
    ensures r.Ok? <==> key == "first_date" || key == "last_date"
    ensures key == "first_date" ==> r == Ok(s.firstDate)
    ensures key == "last_date" ==> r == Ok(s.lastDate)
  {
    if key == "first_date" then Ok(s.firstDate)
    else if key == "last_date" then Ok(s.lastDate)
    else if key == "days" || key == "weeks" || key == "months" || key == "years" then Err(TypeMismatch(key))
    else Err(KeyMissing(key))
  }

  /**
   * `get_dangling_journals_outside_range` as written: it reads the keys
   * "first" and "last" of the timeline statistics.
   */
  function OutsideRangeAsWritten(stats: TimelineStats, dangling: seq<Day>): (r: Result<DanglingBuckets>)
  {
    match StatsDate(stats.timeline, "first")
    case Err(e) => Err(e)
    case Ok(first) =>
      match StatsDate(stats.timeline, "last")
      case Err(e) => Err(e)
      case Ok(last) => Ok(Buckets(dangling, first, last))
  }

  /** The statistics have no "first" key, so the split as written always raises `KeyError`. */
  lemma OutsideRangeAsWrittenFails(stats: TimelineStats, dangling: seq<Day>)
    ensures OutsideRangeAsWritten(stats, dangling) == Err(KeyMissing("first"))
  {
    var key := "first";
    assert |key| == 5;
    assert StatsDate(stats.timeline, key) == Err(KeyMissing(key));
  }

  /** The split the method evidently means: the timeline's "first_date" and "last_date". */
  function OutsideRange(stats: TimelineStats, dangling: seq<Day>): (r: DanglingBuckets)
    ensures r == Buckets(dangling, StatsDate(stats.timeline, "first_date").value, StatsDate(stats.timeline, "last_date").value)
  {
    Buckets(dangling, stats.timeline.firstDate, stats.timeline.lastDate)
  }

  /**
   * The corrected split of the days of a built timeline: the buckets split
   * the dangling days, "past" holds exactly those before the first timeline
   * day, "future" those after the last, and "inside" the rest.
   */
  lemma OutsideRangePartition(timeline: seq<Day>, dangling: seq<Day>, total: DateStats, x: Day)
    ensures var b := OutsideRange(TimelineStats(Stats(timeline), Stats(dangling), total), dangling);
      && multiset(b.past) + multiset(b.future) + multiset(b.inside) == multiset(dangling)
      && (x in b.past <==> x in dangling && x < Stats(timeline).firstDate)
      && (x in b.future <==> x in dangling && Stats(timeline).lastDate < x)
      && (x in b.inside <==> x in dangling && Stats(timeline).firstDate <= x <= Stats(timeline).lastDate)
  {
    var s := Stats(timeline);
    if timeline != [] {
      assert s.firstDate <= timeline[0] <= s.lastDate;
    }
    BucketsPartition(dangling, s.firstDate, s.lastDate);
    BucketMembers(dangling, s.firstDate, s.lastDate, x);
  }

  // ---------------------------------------------------------------------------
  // The object

  /** `JournalSets`. */
  datatype JournalSets = JournalSets(allJournals: seq<Day>, existing: seq<Day>, missing: seq<Day>, timeline: seq<Day>)

  class LogseqJournals {
    var sets: JournalSets
    /** The `dangling` defaultdict; its three lists exist once the split has run. */
    var dangling: DanglingBuckets
    /** `timeline_stats`: `{}` until the timeline is built. */
    var timelineStats: Option<TimelineStats>

    /**
     * `__init__` and `process`: the existing and the dangling journal days
     * are sorted, the timeline is built and the dangling days are split
     * (with the corrected key names).
     */
    constructor (journalDays: seq<Day>, danglingDays: seq<Day>)
      ensures sets.existing == SortDays(journalDays)
      ensures sets.timeline == Timeline(sets.existing)
      ensures sets.missing == Missing(sets.existing, SortDays(danglingDays))
      ensures sets.allJournals == SortDays(sets.timeline + SortDays(danglingDays))
      ensures timelineStats == Some(TimelineStats(Stats(sets.timeline), Stats(SortDays(danglingDays)), Stats(sets.allJournals)))
      ensures dangling == OutsideRange(timelineStats.value, SortDays(danglingDays))
    {
      var danglingSorted := SortDays(danglingDays);
      var existing := SortDays(journalDays);
      var timeline, missing := BuildTimeline(existing, danglingSorted);
      var all := SortDays(timeline + danglingSorted);
      var stats := TimelineStats(Stats(timeline), Stats(danglingSorted), Stats(all));
      var b := SplitOutsideRange(danglingSorted, stats.timeline.firstDate, stats.timeline.lastDate);
      sets := JournalSets(all, existing, missing, timeline);
      timelineStats := Some(stats);
      dangling := b;
    }

    /** `__len__`: the number of timeline days. */
    function Length(): nat
      reads this
    {
      |sets.timeline|
    }

    /** `build_complete_timeline`: appends to the timeline and the missing days, then sorts and measures. */
    method BuildCompleteTimeline(danglingJournals: seq<Day>)
      modifies this`sets, this`timelineStats
      ensures sets.existing == old(sets.existing)
      ensures sets.timeline == old(sets.timeline) + Timeline(sets.existing)
      ensures sets.missing == old(sets.missing) + Missing(sets.existing, danglingJournals)
      ensures sets.allJournals == SortDays(sets.timeline + danglingJournals)
      ensures timelineStats == Some(TimelineStats(Stats(sets.timeline), Stats(danglingJournals), Stats(sets.allJournals)))
    {
      var timeline, missing := BuildTimeline(sets.existing, danglingJournals);
      var t := sets.timeline + timeline;
      var all := SortDays(t + danglingJournals);
      sets := JournalSets(all, sets.existing, sets.missing + missing, t);
      timelineStats := Some(TimelineStats(Stats(t), Stats(danglingJournals), Stats(all)));
    }

    /**
     * `get_dangling_journals_outside_range` with the statistics' real key
     * names: appends each dangling day to its bucket.
     */
    method GetDanglingJournalsOutsideRange(danglingJournals: seq<Day>)
      requires timelineStats.Some?
      modifies this`dangling
      ensures dangling == DanglingBuckets(
        old(dangling.past) + OutsideRange(timelineStats.value, danglingJournals).past,
        old(dangling.future) + OutsideRange(timelineStats.value, danglingJournals).future,
        old(dangling.inside) + OutsideRange(timelineStats.value, danglingJournals).inside)
    {
      var s := timelineStats.value.timeline;
      var b := SplitOutsideRange(danglingJournals, s.firstDate, s.lastDate);
      dangling := DanglingBuckets(dangling.past + b.past, dangling.future + b.future, dangling.inside + b.inside);
    }
  }
}

/**
 * The older journal code: the `LogseqJournals` class of the first package
 * layout and the function-style `logseq_journals`/`process_journals`
 * modules.  Journal keys and dangling links are parsed by a `strptime`
 * that is a parameter here, and the gap-filling loop consumes the dangling
 * journal days it fills in, so what is missing depends on the dangling days
 * still left.  Days are the day numbers of `DateUtilities`; the timeline the
 * loop builds is `Journals.Timeline`.
 */
module LegacyJournals {
  import opened Wrappers
  import opened PyStr
  import opened PyList
  import opened DateUtilities
  import Journals

  // ---------------------------------------------------------------------------
  // Ordinal stripping and parsing

  predicate HasOrdinal(key: string)
  {
    Contains(key, "st") || Contains(key, "nd") || Contains(key, "rd") || Contains(key, "th")
  }

  /** The four `replace` calls, in their order. */
  function RemoveOrdinals(key: string): string
  {
    RemoveAll(RemoveAll(RemoveAll(RemoveAll(key, "st"), "nd"), "rd"), "th")
  }

  /**
   * The key as parsed: every "st", "nd", "rd" and "th" deleted, wherever it
   * occurs, when any of them occurs.
   */
  function StripOrdinals(key: string): (r: string)
    ensures |r| <= |key|
  {
    if HasOrdinal(key) then RemoveOrdinals(key) else key
  }

  /** The `any(...)` guard changes nothing: on a key without ordinals the replacements are no-ops. */
  lemma StripOrdinalsUnguarded(key: string)
    ensures StripOrdinals(key) == RemoveOrdinals(key)
  {
    if !HasOrdinal(key) {
      RemoveAllAbsent(key, "st");
      RemoveAllAbsent(key, "nd");
      RemoveAllAbsent(key, "rd");
      RemoveAllAbsent(key, "th");
    }
  }

  /** The parse a key gets: ordinals stripped first, then `strptime`. */
  function StrippedParse(parse: string -> Option<Day>): string -> Option<Day>
  {
    k => parse(StripOrdinals(k))
  }

  /** The keys that parse, as days, in order; a `ValueError` skips the key. */
  function Parsed(keys: seq<string>, parse: string -> Option<Day>): seq<Day>
    decreases |keys|
  {
    if keys == [] then []
    else
      Parsed(keys[..|keys| - 1], parse)
        + (match parse(keys[|keys| - 1]) case Some(d) => [d] case None => [])
  }

  /** A day is parsed exactly when some key parses to it. */
  lemma {:induction false} ParsedMembers(keys: seq<string>, parse: string -> Option<Day>, d: Day)
    ensures d in Parsed(keys, parse) <==> exists k :: k in keys && parse(k) == Some(d)
    ensures |Parsed(keys, parse)| <= |keys|
    decreases |keys|
  {
    if keys != [] {
      var init := keys[..|keys| - 1];
      ParsedMembers(init, parse, d);
      assert keys == init + [keys[|keys| - 1]];
      if exists k :: k in keys && parse(k) == Some(d) {
        var k :| k in keys && parse(k) == Some(d);
        if k != keys[|keys| - 1] {
          assert k in init;
        }
      }
    }
  }

  /** The `for key in keys: try: ... append ... except ValueError` loop. */
  method ParseAll(keys: seq<string>, parse: string -> Option<Day>) returns (days: seq<Day>)
    ensures days == Parsed(keys, parse)
  {
    days := [];
    var i := 0;
    while i < |keys|
      invariant i <= |keys|
      invariant days == Parsed(keys[..i], parse)
    {
      assert keys[..i + 1][..i] == keys[..i];
      match parse(keys[i]) {
        case Some(d) => days := days + [d];
        case None =>
      }
      i := i + 1;
    }
    assert keys[..|keys|] == keys;
  }

  /** `extract_journals_from_dangling_links` of the function-style module: parse, then sort. */
  method ExtractJournalsFromDanglingLinks(links: seq<string>, parse: string -> Option<Day>) returns (days: seq<Day>)
    ensures days == Journals.SortDays(Parsed(links, parse))
    ensures Journals.Ascending(days) && multiset(days) == multiset(Parsed(links, parse))
  {
    var parsed := ParseAll(links, parse);
    days := Journals.SortDays(parsed);
  }

  // ---------------------------------------------------------------------------
  // Gap filling that consumes dangling days

  /** The lists the inner loop appends to and removes from. */
  datatype Filled = Filled(missing: seq<Day>, dangling: seq<Day>)

  /**
   * One filled-in day: when it is a dangling journal day its first
   * occurrence is removed from the dangling list, otherwise it is missing.
   */
  function Take(f: Filled, d: Day): (r: Filled)
    ensures d in f.dangling ==> r.missing == f.missing && |r.dangling| == |f.dangling| - 1
    ensures d !in f.dangling ==> r.missing == f.missing + [d] && r.dangling == f.dangling
  {
    if d in f.dangling then Filled(f.missing, RemoveFirst(f.dangling, d)) else Filled(f.missing + [d], f.dangling)
  }

  /** The day is counted once: as missing, or as a dangling day taken away. */
  lemma TakeAccounts(f: Filled, d: Day, x: Day)
    ensures multiset(Take(f, d).missing)[x] + multiset(f.dangling)[x]
      == multiset(f.missing)[x] + (if x == d then 1 else 0) + multiset(Take(f, d).dangling)[x]
  {
    if d in f.dangling {
      RemoveFirstCount(f.dangling, d);
    } else {
      assert multiset(f.missing + [d]) == multiset(f.missing) + multiset{d};
    }
  }

  /** The filled-in days taken one after the other. */
  function TakeAll(f: Filled, days: seq<Day>): Filled
    decreases |days|
  {
    if days == [] then f else Take(TakeAll(f, days[..|days| - 1]), days[|days| - 1])
  }

  lemma TakeAllSnoc(f: Filled, s: seq<Day>, d: Day)
    ensures TakeAll(f, s + [d]) == Take(TakeAll(f, s), d)
  {
    assert (s + [d])[..|s|] == s;
  }

  lemma {:induction false} TakeAllAppend(f: Filled, s: seq<Day>, t: seq<Day>)
    ensures TakeAll(f, s + t) == TakeAll(TakeAll(f, s), t)
    decreases |t|
  {
    if t == [] {
      assert s + t == s;
    } else {
      assert (s + t)[..|s + t| - 1] == s + t[..|t| - 1];
      TakeAllAppend(f, s, t[..|t| - 1]);
    }
  }

  /**
   * Every filled-in day is accounted for once: it is either added to the
   * missing days or taken out of the dangling days.
   */
  lemma {:induction false} TakeAllAccounts(f: Filled, days: seq<Day>)
    ensures multiset(TakeAll(f, days).missing) + multiset(f.dangling)
      == multiset(f.missing) + multiset(days) + multiset(TakeAll(f, days).dangling)
  {
    forall x ensures (multiset(TakeAll(f, days).missing) + multiset(f.dangling))[x]
      == (multiset(f.missing) + multiset(days) + multiset(TakeAll(f, days).dangling))[x]
    {
      TakeAllCount(f, days, x);
    }
  }

  lemma {:induction false} TakeAllCount(f: Filled, days: seq<Day>, x: Day)
    ensures multiset(TakeAll(f, days).missing)[x] + multiset(f.dangling)[x]
      == multiset(f.missing)[x] + multiset(days)[x] + multiset(TakeAll(f, days).dangling)[x]
    decreases |days|
  {
    if days != [] {
      var init, d := days[..|days| - 1], days[|days| - 1];
      assert days == init + [d];
      assert multiset(days)[x] == multiset(init)[x] + (if x == d then 1 else 0);
      TakeAllCount(f, init, x);
      TakeAccounts(TakeAll(f, init), d, x);
    }
  }

  /** A day that is never filled in stays dangling or stays absent. */
  lemma {:induction false} TakeAllKeeps(f: Filled, days: seq<Day>, y: Day)
    requires y !in days
    ensures (y in TakeAll(f, days).dangling) == (y in f.dangling)
    decreases |days|
  {
    if days != [] {
      var init := days[..|days| - 1];
      assert days == init + [days[|days| - 1]];
      TakeAllKeeps(f, init, y);
      var g := TakeAll(f, init);
      if days[|days| - 1] in g.dangling {
        RemoveFirstKeeps(g.dangling, days[|days| - 1], y);
      }
    }
  }

  /**
   * When no day is filled in twice, consuming the dangling days does not
   * matter: the missing days are the filled-in days that were not dangling
   * to begin with.
   */
  lemma {:induction false} TakeAllAbsent(f: Filled, days: seq<Day>)
    requires Journals.Increasing(days)
    ensures TakeAll(f, days).missing == f.missing + Journals.Absent(days, f.dangling)
    decreases |days|
  {
    if days == [] {
      assert f.missing + [] == f.missing;
    } else {
      var init, d := days[..|days| - 1], days[|days| - 1];
      assert days == init + [d];
      assert Journals.Increasing(init);
      assert d !in init by {
        forall k | 0 <= k < |init| ensures init[k] != d {
          assert days[k] < days[|days| - 1];
        }
      }
      TakeAllAbsent(f, init);
      TakeAllKeeps(f, init, d);
      Journals.AbsentSnoc(init, d, f.dangling);
    }
  }

  /** One gap day: taken off the dangling days when it is one of them, else recorded as missing. */
  method TakeDay(missing: seq<Day>, dangling: seq<Day>, d: Day) returns (missing': seq<Day>, dangling': seq<Day>)
    ensures Filled(missing', dangling') == Take(Filled(missing, dangling), d)
  {
    missing', dangling' := missing, dangling;
    if d in dangling {
      dangling' := RemoveFirst(dangling, d);
    } else {
      missing' := missing + [d];
    }
  }

  /**
   * The inner `while` for the `i`-th key: the days after it up to the next
   * key, each taken against the dangling days.
   */
  method FillGap(keys: seq<Day>, i: nat, missing: seq<Day>, dangling: seq<Day>)
      returns (fill: seq<Day>, missing': seq<Day>, dangling': seq<Day>)
    requires i + 1 < |keys|
    ensures fill == Journals.Gap(keys, i)
    ensures Filled(missing', dangling') == TakeAll(Filled(missing, dangling), fill)
  {
    var date, nextActual := keys[i], keys[i + 1];
    var nextExpected := Next(date);
    fill, missing', dangling' := [], missing, dangling;
    while nextExpected < nextActual
      invariant date + 1 <= nextExpected
      invariant nextExpected == date + 1 || nextExpected <= nextActual
      invariant fill == Journals.Between(date + 1, nextExpected)
      invariant Filled(missing', dangling') == TakeAll(Filled(missing, dangling), fill)
      decreases nextActual - nextExpected
    {
      Journals.BetweenSnoc(date + 1, nextExpected);
      TakeAllSnoc(Filled(missing, dangling), fill, nextExpected);
      fill := fill + [nextExpected];
      missing', dangling' := TakeDay(missing', dangling', nextExpected);
      nextExpected := Next(nextExpected);
    }
  }

  /** The lists after the first `i` rounds of the outer loop. */
  function FilledUpTo(keys: seq<Day>, f: Filled, i: nat): (seq<Day>, Filled)
    requires i <= |keys|
  {
    (Journals.TimelineUpTo(keys, i), TakeAll(f, Journals.GapDaysUpTo(keys, i)))
  }

  lemma FilledStep(keys: seq<Day>, f: Filled, i: nat, fill: seq<Day>, g: Filled)
    requires i < |keys|
    requires fill == Journals.Gap(keys, i) && g == TakeAll(FilledUpTo(keys, f, i).1, fill)
    ensures FilledUpTo(keys, f, i + 1) == (FilledUpTo(keys, f, i).0 + [keys[i]] + fill, g)
  {
    TakeAllAppend(f, Journals.GapDaysUpTo(keys, i), fill);
  }

  /**
   * The body of `build_complete_timeline`: each key but the last followed
   * by its gap, then the last key, while the gap days are taken against the
   * missing and dangling lists `f`.
   */
  method FillTimeline(keys: seq<Day>, f: Filled) returns (timeline: seq<Day>, g: Filled)
    ensures timeline == Journals.Timeline(keys)
    ensures g == TakeAll(f, Journals.GapDays(keys))
  {
    timeline := [];
    var missing, remaining := f.missing, f.dangling;
    var i := 0;
    while i + 1 < |keys|
      invariant i <= |keys| && (keys != [] ==> i < |keys|)
      invariant (timeline, Filled(missing, remaining)) == FilledUpTo(keys, f, i)
    {
      var fill, missing', remaining' := FillGap(keys, i, missing, remaining);
      FilledStep(keys, f, i, fill, Filled(missing', remaining'));
      timeline := timeline + [keys[i]] + fill;
      missing, remaining := missing', remaining';
      i := i + 1;
    }
    if keys != [] {
      FilledStep(keys, f, i, [], Filled(missing, remaining));
      timeline := timeline + [keys[|keys| - 1]];
      assert timeline + [] == timeline;
    }
    g := Filled(missing, remaining);
  }

  /**
   * `build_complete_timeline(dangling_journals, processed_keys)` of the
   * function-style modules: the timeline and the missing days, with the
   * dangling list coming back without the filled-in dangling days.
   */
  method BuildCompleteTimeline(dangling: seq<Day>, keys: seq<Day>)
      returns (timeline: seq<Day>, missing: seq<Day>, remaining: seq<Day>)
    ensures timeline == Journals.Timeline(keys)
    ensures Filled(missing, remaining) == TakeAll(Filled([], dangling), Journals.GapDays(keys))
  {
    var g;
    timeline, g := FillTimeline(keys, Filled([], dangling));
    missing, remaining := g.missing, g.dangling;
  }

  /**
   * On sorted keys the consuming loop and the analysis package's timeline
   * agree: the missing days are `Journals.Missing`.
   */
  lemma LegacyMissingAgrees(keys: seq<Day>, dangling: seq<Day>)
    requires Journals.Ascending(keys)
    ensures TakeAll(Filled([], dangling), Journals.GapDays(keys)).missing == Journals.Missing(keys, dangling)
  {
    Journals.GapDaysIncreasing(keys);
    TakeAllAbsent(Filled([], dangling), Journals.GapDays(keys));
    assert [] + Journals.Missing(keys, dangling) == Journals.Missing(keys, dangling);
  }

  // ---------------------------------------------------------------------------
  // Statistics and bounds

  /**
   * `get_date_ranges(most_recent, least_recent)` in days: None when either
   * bound is None (a `datetime` itself is never falsy), otherwise the
   * inclusive day count.
   */
  function DateRanges(mostRecent: Option<Day>, leastRecent: Option<Day>): (r: Option<int>)
    ensures r.None? <==> mostRecent.None? || leastRecent.None?
    ensures r.Some? ==> r.value == mostRecent.value - leastRecent.value + 1
  {
    if mostRecent.None? || leastRecent.None? then None
    else Some(mostRecent.value - leastRecent.value + 1)
  }

  /** The newer `range` differs from `get_date_ranges` exactly on a single day. */
  lemma RangesDifferOnOneDay(first: Day, last: Day)
    ensures DateRanges(Some(last), Some(first)) == Range(first, last) <==> first != last
    ensures first == last ==> DateRanges(Some(last), Some(first)) == Some(1)
  {
  }

  /**
   * `get_date_stats` of the class: `datetime.min` bounds and a zero count for
   * an empty timeline, otherwise its earliest and latest day and the
   * inclusive day count.
   */
  function GetDateStats(timeline: seq<Day>): (r: DateStats)
    ensures timeline == [] ==> r == DateStats(MinDay, MinDay, Some(0))
    ensures timeline != [] ==> r.firstDate in timeline && r.lastDate in timeline
    ensures timeline != [] ==> forall x :: x in timeline ==> r.firstDate <= x <= r.lastDate
    ensures timeline != [] ==> r.days == Some(r.lastDate - r.firstDate + 1)
  {
    if timeline == [] then DateStats(MinDay, MinDay, Some(0))
    else
      var first, last := Min(timeline), Max(timeline);
      DateStats(first, last, DateRanges(Some(last), Some(first)))
  }

  /** `get_date_stats` of the function-style module: `min` of an empty list raises. */
  function GetDateStatsStrict(timeline: seq<Day>): (r: Result<DateStats>)
    ensures r.Ok? <==> timeline != []
  {
    if timeline == [] then Err(ValueInvalid("min() arg is an empty sequence"))
    else Ok(GetDateStats(timeline))
  }

  /**
   * The three versions of the statistics agree on every non-empty timeline
   * except in the day count of the `stats` helper, which is None on a
   * timeline of one day.
   */
  lemma StatsVersionsAgree(timeline: seq<Day>)
    ensures timeline != [] ==> GetDateStatsStrict(timeline) == Ok(GetDateStats(timeline))
    ensures Stats(timeline) == GetDateStats(timeline) <==> timeline == [] || Min(timeline) != Max(timeline)
  {
    if timeline != [] {
      RangesDifferOnOneDay(Min(timeline), Max(timeline));
    }
  }

  /** `get_most_recent_date`: None for no dates, otherwise the latest. */
  function GetMostRecentDate(dates: seq<Day>): (r: Option<Day>)
    ensures r.None? <==> dates == []
    ensures r.Some? ==> r.value in dates && forall x :: x in dates ==> x <= r.value
  {
    if dates == [] then None else Some(Max(dates))
  }

  /** `get_least_recent_date`: None for no dates, otherwise the earliest. */
  function GetLeastRecentDate(dates: seq<Day>): (r: Option<Day>)
    ensures r.None? <==> dates == []
    ensures r.Some? ==> r.value in dates && forall x :: x in dates ==> r.value <= x
  {
    if dates == [] then None else Some(Min(dates))
  }

  /** On a non-empty timeline the two helpers give the bounds `get_date_stats` reports. */
  lemma RecentDatesAreStats(dates: seq<Day>)
    requires dates != []
    ensures GetLeastRecentDate(dates) == Some(GetDateStats(dates).firstDate)
    ensures GetMostRecentDate(dates) == Some(GetDateStats(dates).lastDate)
    ensures DateRanges(GetMostRecentDate(dates), GetLeastRecentDate(dates)) == GetDateStats(dates).days
  {
  }

  // ---------------------------------------------------------------------------
  // The past and future filters

  /** The links strictly before `bound`, in order. */
  function Before(s: seq<Day>, bound: Day): seq<Day>
    decreases |s|
  {
    if s == [] then [] else Before(s[..|s| - 1], bound) + (if s[|s| - 1] < bound then [s[|s| - 1]] else [])
  }

  /** The links strictly after `bound`, in order. */
  function After(s: seq<Day>, bound: Day): seq<Day>
    decreases |s|
  {
    if s == [] then [] else After(s[..|s| - 1], bound) + (if s[|s| - 1] > bound then [s[|s| - 1]] else [])
  }

  lemma BeforeSnoc(s: seq<Day>, x: Day, bound: Day)
    ensures Before(s + [x], bound) == Before(s, bound) + (if x < bound then [x] else [])
    ensures After(s + [x], bound) == After(s, bound) + (if x > bound then [x] else [])
  {
    assert (s + [x])[..|s|] == s;
  }

  /** `get_dangling_journals_past`: the `for`/`if`/`append` loop. */
  method GetDanglingJournalsPast(links: seq<Day>, timelineStart: Day) returns (past: seq<Day>)
    ensures past == Before(links, timelineStart)
  {
    past := [];
    for i := 0 to |links|
      invariant past == Before(links[..i], timelineStart)
    {
      BeforeSnoc(links[..i], links[i], timelineStart);
      assert links[..i + 1] == links[..i] + [links[i]];
      if links[i] < timelineStart {
        past := past + [links[i]];
      }
    }
    assert links[..|links|] == links;
  }

  /** `get_dangling_journals_future`: the `for`/`if`/`append` loop. */
  method GetDanglingJournalsFuture(links: seq<Day>, timelineEnd: Day) returns (future: seq<Day>)
    ensures future == After(links, timelineEnd)
  {
    future := [];
    for i := 0 to |links|
      invariant future == After(links[..i], timelineEnd)
    {
      BeforeSnoc(links[..i], links[i], timelineEnd);
      assert links[..i + 1] == links[..i] + [links[i]];
      if links[i] > timelineEnd {
        future := future + [links[i]];
      }
    }
    assert links[..|links|] == links;
  }

  /** The filters keep exactly the links strictly beyond the bound. */
  lemma {:induction false} FilterMembers(s: seq<Day>, bound: Day, x: Day)
    ensures x in Before(s, bound) <==> x in s && x < bound
    ensures x in After(s, bound) <==> x in s && x > bound
    decreases |s|
  {
    if s != [] {
      FilterMembers(s[..|s| - 1], bound, x);
      assert s == s[..|s| - 1] + [s[|s| - 1]];
    }
  }

  /**
   * For an ordered pair of bounds the filters are the "past" and "future"
   * buckets of the analysis package's split.
   */
  lemma {:induction false} FiltersAreSides(s: seq<Day>, first: Day, last: Day)
    requires first <= last
    ensures Before(s, first) == Journals.OnSide(s, first, last, Journals.Past)
    ensures After(s, last) == Journals.OnSide(s, first, last, Journals.Future)
    decreases |s|
  {
    if s != [] {
      var init, x := s[..|s| - 1], s[|s| - 1];
      assert s == init + [x];
      FiltersAreSides(init, first, last);
      Journals.OnSideSnoc(init, x, first, last, Journals.Past);
      Journals.OnSideSnoc(init, x, first, last, Journals.Future);
    }
  }

  /**
   * The class only runs a filter when the dangling days reach beyond the
   * timeline's bound; on non-empty dangling days that is exactly when the
   * filter finds something, so a skipped filter loses nothing.
   */
  lemma GuardsMatchFilters(timeline: seq<Day>, dangling: seq<Day>)
    requires dangling != []
    ensures GetDateStats(timeline).firstDate > GetDateStats(dangling).firstDate
      <==> Before(dangling, GetDateStats(timeline).firstDate) != []
    ensures GetDateStats(timeline).lastDate < GetDateStats(dangling).lastDate
      <==> After(dangling, GetDateStats(timeline).lastDate) != []
  {
    var t, d := GetDateStats(timeline), GetDateStats(dangling);
    FilterMembers(dangling, t.firstDate, d.firstDate);
    FilterMembers(dangling, t.lastDate, d.lastDate);
    if Before(dangling, t.firstDate) != [] {
      var x := Before(dangling, t.firstDate)[0];
      FilterMembers(dangling, t.firstDate, x);
    }
    if After(dangling, t.lastDate) != [] {
      var x := After(dangling, t.lastDate)[0];
      FilterMembers(dangling, t.lastDate, x);
    }
  }

  // ---------------------------------------------------------------------------
  // `process_journals_timelines` of the function-style module

  /** `a < b` on two optional dates: comparing None with a date raises a `TypeError`. */
  function Less(a: Option<Day>, b: Option<Day>): (r: Result<bool>)
    ensures r.Ok? <==> a.Some? && b.Some?
    ensures r.Ok? ==> r.value == (a.value < b.value)
  {
    if a.None? || b.None? then Err(TypeMismatch("'<' not supported between datetime and NoneType"))
    else Ok(a.value < b.value)
  }

  /** The past and future dangling days, each None when its guard is false. */
  datatype Outside = Outside(past: Option<seq<Day>>, future: Option<seq<Day>>)

  /**
   * The two guarded filters that end `process_journals_timelines`: past
   * when the earliest dangling day precedes the timeline, future when the
   * latest one follows it.
   */
  function OutsideTimeline(timeline: seq<Day>, dangling: seq<Day>): (r: Result<Outside>)
    ensures r.Ok? <==> timeline != [] && dangling != []
    ensures r.Ok? && r.value.past.Some? ==> r.value.past.value == Before(dangling, Min(timeline))
    ensures r.Ok? && r.value.future.Some? ==> r.value.future.value == After(dangling, Max(timeline))
  {
    var timelineStart, timelineEnd := GetLeastRecentDate(timeline), GetMostRecentDate(timeline);
    var danglingStart, danglingEnd := GetLeastRecentDate(dangling), GetMostRecentDate(dangling);
    match Less(danglingStart, timelineStart)
    case Err(e) => Err(e)
    case Ok(past) =>
      match Less(timelineEnd, danglingEnd)
      case Err(e) => Err(e)
      case Ok(future) =>
        Ok(Outside(
          if past then Some(Before(dangling, timelineStart.value)) else None,
          if future then Some(After(dangling, timelineEnd.value)) else None))
  }

  /** A filter is run exactly when it finds a dangling day beyond the timeline. */
  lemma OutsideTimelineRunsWhenNeeded(timeline: seq<Day>, dangling: seq<Day>)
    requires timeline != [] && dangling != []
    ensures OutsideTimeline(timeline, dangling).value.past.Some? <==> Before(dangling, Min(timeline)) != []
    ensures OutsideTimeline(timeline, dangling).value.future.Some? <==> After(dangling, Max(timeline)) != []
  {
    GuardsMatchFilters(timeline, dangling);
  }

  /**
   * `process_journals_timelines(journal_keys, dangling_journals)` without its
   * file writes and prints: the keys are parsed and sorted before the loop,
   * so the timeline is ascending and the missing days are those of the
   * analysis package.
   */
  method ProcessJournalsTimelines(journalKeys: seq<string>, dangling: seq<Day>, parse: string -> Option<Day>)
      returns (processed: seq<Day>, timeline: seq<Day>, missing: seq<Day>, remaining: seq<Day>, outside: Result<Outside>)
    ensures processed == Journals.SortDays(Parsed(journalKeys, parse))
    ensures timeline == Journals.Timeline(processed) && Journals.Ascending(timeline)
    ensures missing == Journals.Missing(processed, dangling)
    ensures Filled(missing, remaining) == TakeAll(Filled([], dangling), Journals.GapDays(processed))
    ensures outside == OutsideTimeline(timeline, remaining)
  {
    var parsed := ParseAll(journalKeys, parse);
    processed := Journals.SortDays(parsed);
    timeline, missing, remaining := BuildCompleteTimeline(dangling, processed);
    Journals.TimelineAscending(processed);
    LegacyMissingAgrees(processed, dangling);
    outside := OutsideTimeline(timeline, remaining);
  }

  // ---------------------------------------------------------------------------
  // The `LogseqJournals` class of the first package layout

  /** The `timeline_stats` dict. */
  datatype LegacyTimelineStats = LegacyTimelineStats(completeTimeline: DateStats, danglingJournals: DateStats)

  class LogseqJournals {
    var danglingLinks: seq<string>
    var journalKeys: seq<string>
    var danglingJournals: seq<Day>
    var processedKeys: seq<Day>
    var completeTimeline: seq<Day>
    var missingKeys: seq<Day>
    var timelineStats: Option<LegacyTimelineStats>
    /** Set only when its guard holds; None stands for the attribute not existing. */
    var danglingJournalsPast: Option<seq<Day>>
    var danglingJournalsFuture: Option<seq<Day>>

    /** `__init__(graph)`: the graph's dangling links and journal keys, every list empty. */
    constructor(links: seq<string>, keys: seq<string>)
      ensures danglingLinks == links && journalKeys == keys
      ensures danglingJournals == [] && processedKeys == [] && completeTimeline == [] && missingKeys == []
      ensures timelineStats.None? && danglingJournalsPast.None? && danglingJournalsFuture.None?
    {
      danglingLinks, journalKeys := links, keys;
      danglingJournals, processedKeys, completeTimeline, missingKeys := [], [], [], [];
      timelineStats, danglingJournalsPast, danglingJournalsFuture := None, None, None;
    }

    /** The dangling links that parse once their ordinals are stripped, appended, then all sorted. */
    method ExtractJournalsFromDanglingLinks(parse: string -> Option<Day>)
      modifies this`danglingJournals
      ensures danglingJournals == Journals.SortDays(old(danglingJournals) + Parsed(danglingLinks, StrippedParse(parse)))
    {
      var parsed := ParseAll(danglingLinks, StrippedParse(parse));
      danglingJournals := Journals.SortDays(danglingJournals + parsed);
    }

    /** The journal keys that parse once their ordinals are stripped, appended in order (not sorted). */
    method ProcessJournalKeysToDatetime(parse: string -> Option<Day>)
      modifies this`processedKeys
      ensures processedKeys == old(processedKeys) + Parsed(journalKeys, StrippedParse(parse))
    {
      var parsed := ParseAll(journalKeys, StrippedParse(parse));
      processedKeys := processedKeys + parsed;
    }

    /**
     * `build_complete_timeline`: the timeline of the processed keys is
     * appended, and the gap days are taken against the missing and
     * dangling lists.
     */
    method BuildCompleteTimeline()
      modifies this`completeTimeline, this`missingKeys, this`danglingJournals
      ensures completeTimeline == old(completeTimeline) + Journals.Timeline(processedKeys)
      ensures Filled(missingKeys, danglingJournals)
        == TakeAll(Filled(old(missingKeys), old(danglingJournals)), Journals.GapDays(processedKeys))
    {
      var timeline, g := FillTimeline(processedKeys, Filled(missingKeys, danglingJournals));
      completeTimeline := completeTimeline + timeline;
      missingKeys, danglingJournals := g.missing, g.dangling;
    }

    /**
     * `process_journals_timelines`: keys, timeline, both statistics, and the
     * past and future filters behind their guards.
     */
    method ProcessJournalsTimelines(parse: string -> Option<Day>)
      modifies this`processedKeys, this`completeTimeline, this`missingKeys, this`danglingJournals
      modifies this`timelineStats, this`danglingJournalsPast, this`danglingJournalsFuture
      ensures processedKeys == old(processedKeys) + Parsed(journalKeys, StrippedParse(parse))
      ensures completeTimeline == old(completeTimeline) + Journals.Timeline(processedKeys)
      ensures Filled(missingKeys, danglingJournals)
        == TakeAll(Filled(old(missingKeys), old(danglingJournals)), Journals.GapDays(processedKeys))
      ensures timelineStats == Some(LegacyTimelineStats(GetDateStats(completeTimeline), GetDateStats(danglingJournals)))
      ensures (danglingJournalsPast, danglingJournalsFuture)
        == GuardedFilters(completeTimeline, danglingJournals, old(danglingJournalsPast), old(danglingJournalsFuture))
    {
      ProcessJournalKeysToDatetime(parse);
      BuildCompleteTimeline();
      RecordTimelineStats();
    }

    /** The statistics, then each filter whose guard holds. */
    method RecordTimelineStats()
      modifies this`timelineStats, this`danglingJournalsPast, this`danglingJournalsFuture
      ensures timelineStats == Some(LegacyTimelineStats(GetDateStats(completeTimeline), GetDateStats(danglingJournals)))
      ensures (danglingJournalsPast, danglingJournalsFuture)
        == GuardedFilters(completeTimeline, danglingJournals, old(danglingJournalsPast), old(danglingJournalsFuture))
    {
      var timelineDates, danglingDates := GetDateStats(completeTimeline), GetDateStats(danglingJournals);
      timelineStats := Some(LegacyTimelineStats(timelineDates, danglingDates));
      if timelineDates.firstDate > danglingDates.firstDate {
        var past := GetDanglingJournalsPast(danglingJournals, timelineDates.firstDate);
        danglingJournalsPast := Some(past);
      }
      if timelineDates.lastDate < danglingDates.lastDate {
        var future := GetDanglingJournalsFuture(danglingJournals, timelineDates.lastDate);
        danglingJournalsFuture := Some(future);
      }
    }
  }

  /**
   * The past and future attributes after the guarded filters: a filter
   * whose guard fails leaves its attribute as it was.
   */
  function GuardedFilters(timeline: seq<Day>, dangling: seq<Day>, past: Option<seq<Day>>, future: Option<seq<Day>>)
    : (Option<seq<Day>>, Option<seq<Day>>)
  {
    var t, d := GetDateStats(timeline), GetDateStats(dangling);
    (if t.firstDate > d.firstDate then Some(Before(dangling, t.firstDate)) else past,
     if t.lastDate < d.lastDate then Some(After(dangling, t.lastDate)) else future)
  }
}

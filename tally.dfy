/**
 * The per-value tallies of the graph code: for every linked or extracted
 * value a `count` and a `found_in` record of the files it came from.  A Python
 * dict is a sequence of (key, value) pairs in insertion order.
 */
module Tally {
  import opened Order

  /** `{"count": n, "found_in": [names]}`. */
  datatype Tally = Tally(count: nat, foundIn: seq<string>)

  type TallyDict = seq<(string, Tally)>

  /** `n` copies of `x`. */
  function Repeat(x: string, n: nat): (r: seq<string>)
    ensures |r| == n && forall i :: 0 <= i < n ==> r[i] == x
  {
    if n == 0 then [] else Repeat(x, n - 1) + [x]
  }

  /** The tally stored under `k`, and the empty tally `setdefault` would create. */
  function Find(d: TallyDict, k: string): Tally
    decreases |d|
  {
    if d == [] then Tally(0, [])
    else if d[0].0 == k then d[0].1
    else Find(d[1..], k)
  }

  /** Every tally counts exactly the names it records. */
  predicate Balanced(d: TallyDict)
  {
    forall i :: 0 <= i < |d| ==> d[i].1.count == |d[i].1.foundIn|
  }

  /** `k in d`. */
  predicate HasKey(d: TallyDict, k: string)
    decreases |d|
  {
    d != [] && (d[0].0 == k || HasKey(d[1..], k))
  }

  /** No key occurs twice. */
  predicate UniqueKeys(d: TallyDict)
    decreases |d|
  {
    d == [] || (!HasKey(d[1..], d[0].0) && UniqueKeys(d[1..]))
  }

  /**
   * One pass of the counting loop body: `setdefault(item, {})`, then
   * `count += 1` and `found_in.append(name)`.
   */
  function Upsert(d: TallyDict, x: string, name: string): (r: TallyDict)
    ensures Find(r, x) == Tally(Find(d, x).count + 1, Find(d, x).foundIn + [name])
    ensures forall k :: k != x ==> Find(r, k) == Find(d, k)
    decreases |d|
  {
    if d == [] then [(x, Tally(1, [name]))]
    else if d[0].0 == x then [(x, Tally(d[0].1.count + 1, d[0].1.foundIn + [name]))] + d[1..]
    else
      var rest := Upsert(d[1..], x, name);
      assert ([d[0]] + rest)[1..] == rest;
      [d[0]] + rest
  }

  /** Upserting adds the key if it is new and keeps the other keys. */
  lemma {:induction false} UpsertHasKey(d: TallyDict, x: string, name: string, k: string)
    ensures HasKey(Upsert(d, x, name), k) <==> k == x || HasKey(d, k)
    decreases |d|
  {
    if d != [] && d[0].0 != x {
      UpsertHasKey(d[1..], x, name, k);
      assert Upsert(d, x, name)[1..] == Upsert(d[1..], x, name);
    }
  }

  /** Upserting keeps the keys unique. */
  lemma {:induction false} UpsertUnique(d: TallyDict, x: string, name: string)
    requires UniqueKeys(d)
    ensures UniqueKeys(Upsert(d, x, name))
    decreases |d|
  {
    if d != [] && d[0].0 != x {
      UpsertUnique(d[1..], x, name);
      UpsertHasKey(d[1..], x, name, d[0].0);
      assert Upsert(d, x, name)[1..] == Upsert(d[1..], x, name);
    } else if d != [] {
      assert Upsert(d, x, name)[1..] == d[1..];
    }
  }

  /** Upserting keeps every tally balanced. */
  lemma {:induction false} UpsertBalanced(d: TallyDict, x: string, name: string)
    requires Balanced(d)
    ensures Balanced(Upsert(d, x, name))
    decreases |d|
  {
    if d != [] && d[0].0 != x {
      UpsertBalanced(d[1..], x, name);
      var r := Upsert(d, x, name);
      assert r[1..] == Upsert(d[1..], x, name);
      forall i | 1 <= i < |r| ensures r[i].1.count == |r[i].1.foundIn| {
        assert r[i] == r[1..][i - 1];
      }
    }
  }

  /** The counting loop over `items`, all found in the file `name`. */
  function TallyAll(d: TallyDict, items: seq<string>, name: string): TallyDict
    decreases |items|
  {
    if items == [] then d
    else Upsert(TallyAll(d, items[..|items| - 1], name), items[|items| - 1], name)
  }

  /**
   * After counting, a value's count grew by its number of occurrences and
   * its `found_in` by that many copies of the file's name.
   */
  lemma {:induction false} TallyAllFind(d: TallyDict, items: seq<string>, name: string, k: string)
    ensures Find(TallyAll(d, items, name), k) ==
            Tally(Find(d, k).count + multiset(items)[k], Find(d, k).foundIn + Repeat(name, multiset(items)[k]))
    decreases |items|
  {
    if items == [] {
      assert Find(d, k).foundIn + [] == Find(d, k).foundIn;
    } else {
      var init := items[..|items| - 1];
      var last := items[|items| - 1];
      assert items == init + [last];
      assert multiset(items) == multiset(init) + multiset{last};
      TallyAllFind(d, init, name, k);
      var prev := TallyAll(d, init, name);
      assert TallyAll(d, items, name) == Upsert(prev, last, name);
      var n := multiset(init)[k];
      if last == k {
        assert multiset(items)[k] == n + 1;
        assert Repeat(name, n + 1) == Repeat(name, n) + [name];
        assert Find(d, k).foundIn + Repeat(name, n) + [name] == Find(d, k).foundIn + (Repeat(name, n) + [name]);
      } else {
        assert multiset(items)[k] == n;
      }
    }
  }

  /** Counting keeps every tally balanced, and keys unique. */
  lemma {:induction false} TallyAllBalanced(d: TallyDict, items: seq<string>, name: string)
    ensures Balanced(d) ==> Balanced(TallyAll(d, items, name))
    ensures UniqueKeys(d) ==> UniqueKeys(TallyAll(d, items, name))
    decreases |items|
  {
    if items != [] {
      TallyAllBalanced(d, items[..|items| - 1], name);
      var prev := TallyAll(d, items[..|items| - 1], name);
      if Balanced(d) { UpsertBalanced(prev, items[|items| - 1], name); }
      if UniqueKeys(d) { UpsertUnique(prev, items[|items| - 1], name); }
    }
  }

  /** The counting loop. */
  method CountItems(d: TallyDict, items: seq<string>, name: string) returns (r: TallyDict)
    ensures r == TallyAll(d, items, name)
  {
    r := d;
    var i := 0;
    while i < |items|
      invariant 0 <= i <= |items|
      invariant r == TallyAll(d, items[..i], name)
    {
      assert items[..i + 1][..i] == items[..i];
      r := Upsert(r, items[i], name);
      i := i + 1;
    }
    assert items[..i] == items;
  }

  function CountOf(t: Tally): int
  {
    t.count
  }

  /** `sort_dict_by_value(d, value="count", reverse=True)` on tallies. */
  function SortByCount(d: TallyDict): (r: TallyDict)
    ensures multiset(r) == multiset(d) && |r| == |d|
    ensures forall i, j :: 0 <= i < j < |r| ==> r[i].1.count >= r[j].1.count
    ensures Balanced(d) ==> Balanced(r)
  {
    var r := SortDictByValue(d, CountOf, true);
    assert |r| == |multiset(r)| == |multiset(d)| == |d|;
    forall i | 0 <= i < |r| && Balanced(d) ensures r[i].1.count == |r[i].1.foundIn| {
      assert r[i] in multiset(d);
      var j :| 0 <= j < |d| && d[j] == r[i];
    }
    r
  }

  /** A file of the content summaries: its name and its extracted values by criterion. */
  datatype FileData = FileData(name: string, data: map<string, seq<string>>)

  function Values(f: FileData, criterion: string): seq<string>
  {
    if criterion in f.data then f.data[criterion] else []
  }

  /** The tallies of one criterion over the files, in iteration order; absent criteria contribute nothing. */
  function TallyFiles(files: seq<FileData>, criterion: string): TallyDict
    decreases |files|
  {
    if files == [] then []
    else
      var f := files[|files| - 1];
      TallyAll(TallyFiles(files[..|files| - 1], criterion), Values(f, criterion), f.name)
  }

  /** How often `v` occurs among the files' values for the criterion. */
  function Occurrences(files: seq<FileData>, criterion: string, v: string): nat
    decreases |files|
  {
    if files == [] then 0
    else Occurrences(files[..|files| - 1], criterion, v) + multiset(Values(files[|files| - 1], criterion))[v]
  }

  /** A value's count is its number of occurrences over all files, and it stays balanced. */
  lemma {:induction false} TallyFilesCount(files: seq<FileData>, criterion: string, v: string)
    ensures Find(TallyFiles(files, criterion), v).count == Occurrences(files, criterion, v)
    ensures Balanced(TallyFiles(files, criterion)) && UniqueKeys(TallyFiles(files, criterion))
    decreases |files|
  {
    if files != [] {
      var init := files[..|files| - 1];
      var f := files[|files| - 1];
      TallyFilesCount(init, criterion, v);
      TallyAllFind(TallyFiles(init, criterion), Values(f, criterion), f.name, v);
      TallyAllBalanced(TallyFiles(init, criterion), Values(f, criterion), f.name);
    }
  }

  /**
   * `extract_summary_subset_content(criteria)` of the graph class: the
   * tallies of one criterion, ordered by count, largest first.
   */
  method ExtractSummarySubsetContent(files: seq<FileData>, criterion: string) returns (r: TallyDict)
    ensures r == SortByCount(TallyFiles(files, criterion))
    ensures Balanced(r)
    ensures forall i, j :: 0 <= i < j < |r| ==> r[i].1.count >= r[j].1.count
  {
    var counter: TallyDict := [];
    var i := 0;
    while i < |files|
      invariant 0 <= i <= |files|
      invariant counter == TallyFiles(files[..i], criterion)
    {
      assert files[..i + 1][..i] == files[..i];
      var values := Values(files[i], criterion);
      if values != [] {
        counter := CountItems(counter, values, files[i].name);
      } else {
        assert TallyAll(counter, values, files[i].name) == counter;
      }
      i := i + 1;
    }
    assert files[..i] == files;
    TallyFilesCount(files, criterion, "");
    r := SortByCount(counter);
  }

  /** `Counter()` of file names: a dict of (name, occurrences). */
  type NameCounter = seq<(string, nat)>

  function CounterSum(c: NameCounter): nat
    decreases |c|
  {
    if c == [] then 0 else c[0].1 + CounterSum(c[1..])
  }

  function CounterGet(c: NameCounter, name: string): nat
    decreases |c|
  {
    if c == [] then 0 else if c[0].0 == name then c[0].1 else CounterGet(c[1..], name)
  }

  /** `counter[name] += 1`. */
  function Bump(c: NameCounter, name: string): (r: NameCounter)
    ensures CounterSum(r) == CounterSum(c) + 1
    ensures CounterGet(r, name) == CounterGet(c, name) + 1
    ensures forall n :: n != name ==> CounterGet(r, n) == CounterGet(c, n)
    decreases |c|
  {
    if c == [] then [(name, 1)]
    else if c[0].0 == name then [(name, c[0].1 + 1)] + c[1..]
    else
      var rest := Bump(c[1..], name);
      assert ([c[0]] + rest)[1..] == rest;
      [c[0]] + rest
  }

  /** `{"count": n, "found_in": Counter(...)}` of the index-based content summary. */
  datatype CountedTally = CountedTally(count: nat, foundIn: NameCounter)

  type CountedDict = seq<(string, CountedTally)>

  function FindCounted(d: CountedDict, k: string): CountedTally
    decreases |d|
  {
    if d == [] then CountedTally(0, [])
    else if d[0].0 == k then d[0].1
    else FindCounted(d[1..], k)
  }

  /** The counts equal the sums of their per-file counters. */
  predicate CountedBalanced(d: CountedDict)
  {
    forall i :: 0 <= i < |d| ==> d[i].1.count == CounterSum(d[i].1.foundIn)
  }

  /** `setdefault(value, {"count": 0, "found_in": Counter()})`, `count += 1`, `found_in[name] += 1`. */
  function UpsertCounted(d: CountedDict, x: string, name: string): (r: CountedDict)
    ensures FindCounted(r, x).count == FindCounted(d, x).count + 1
    ensures FindCounted(r, x).foundIn == Bump(FindCounted(d, x).foundIn, name)
    ensures forall k :: k != x ==> FindCounted(r, k) == FindCounted(d, k)
    ensures CountedBalanced(d) ==> CountedBalanced(r)
    decreases |d|
  {
    if d == [] then [(x, CountedTally(1, Bump([], name)))]
    else if d[0].0 == x then [(x, CountedTally(d[0].1.count + 1, Bump(d[0].1.foundIn, name)))] + d[1..]
    else
      var rest := UpsertCounted(d[1..], x, name);
      assert forall i :: 1 <= i < |d| ==> d[i] == d[1..][i - 1];
      [d[0]] + rest
  }

  function CountedAll(d: CountedDict, items: seq<string>, name: string): CountedDict
    decreases |items|
  {
    if items == [] then d
    else UpsertCounted(CountedAll(d, items[..|items| - 1], name), items[|items| - 1], name)
  }

  function CountedFiles(files: seq<FileData>, criterion: string): CountedDict
    decreases |files|
  {
    if files == [] then []
    else
      var f := files[|files| - 1];
      CountedAll(CountedFiles(files[..|files| - 1], criterion), Values(f, criterion), f.name)
  }

  /**
   * Counting a file's values raises a value's count and its counter entry for
   * that file by the value's occurrences, leaving other files' entries alone.
   */
  lemma {:induction false} CountedAllFind(d: CountedDict, items: seq<string>, name: string, k: string, other: string)
    requires other != name
    ensures FindCounted(CountedAll(d, items, name), k).count == FindCounted(d, k).count + multiset(items)[k]
    ensures CounterGet(FindCounted(CountedAll(d, items, name), k).foundIn, name) == CounterGet(FindCounted(d, k).foundIn, name) + multiset(items)[k]
    ensures CounterGet(FindCounted(CountedAll(d, items, name), k).foundIn, other) == CounterGet(FindCounted(d, k).foundIn, other)
    decreases |items|
  {
    if items != [] {
      var init := items[..|items| - 1];
      assert items == init + [items[|items| - 1]];
      CountedAllFind(d, init, name, k, other);
    }
  }

  lemma {:induction false} CountedFilesBalanced(files: seq<FileData>, criterion: string)
    ensures CountedBalanced(CountedFiles(files, criterion))
    decreases |files|
  {
    if files != [] {
      var f := files[|files| - 1];
      CountedFilesBalanced(files[..|files| - 1], criterion);
      CountedAllBalanced(CountedFiles(files[..|files| - 1], criterion), Values(f, criterion), f.name);
    }
  }

  lemma {:induction false} CountedAllBalanced(d: CountedDict, items: seq<string>, name: string)
    requires CountedBalanced(d)
    ensures CountedBalanced(CountedAll(d, items, name))
    decreases |items|
  {
    if items != [] {
      CountedAllBalanced(d, items[..|items| - 1], name);
    }
  }

  function CountedCount(t: CountedTally): int
  {
    t.count
  }

  /**
   * `_extract_summary_subset_content` of the index-based summariser: every
   * count equals the sum of its per-file counter, and the result is ordered
   * by count, largest first.
   */
  method ExtractCountedSubset(files: seq<FileData>, criterion: string) returns (r: CountedDict)
    ensures r == SortDictByValue(CountedFiles(files, criterion), CountedCount, true)
    ensures CountedBalanced(r)
    ensures forall i, j :: 0 <= i < j < |r| ==> r[i].1.count >= r[j].1.count
  {
    var counter: CountedDict := [];
    var i := 0;
    while i < |files|
      invariant 0 <= i <= |files|
      invariant counter == CountedFiles(files[..i], criterion)
    {
      assert files[..i + 1][..i] == files[..i];
      counter := CountCountedItems(counter, Values(files[i], criterion), files[i].name);
      i := i + 1;
    }
    assert files[..i] == files;
    CountedFilesBalanced(files, criterion);
    r := SortDictByValue(counter, CountedCount, true);
    SortedCountedBalanced(counter, r);
  }

  lemma SortedCountedBalanced(d: CountedDict, r: CountedDict)
    requires CountedBalanced(d) && multiset(r) == multiset(d)
    ensures CountedBalanced(r)
  {
    forall k | 0 <= k < |r| ensures r[k].1.count == CounterSum(r[k].1.foundIn) {
      assert r[k] in multiset(d);
      var m :| 0 <= m < |d| && d[m] == r[k];
    }
  }

  /** The counting loop of the index-based summariser, over one file's values. */
  method CountCountedItems(d: CountedDict, items: seq<string>, name: string) returns (r: CountedDict)
    ensures r == CountedAll(d, items, name)
  {
    r := d;
    var j := 0;
    while j < |items|
      invariant 0 <= j <= |items|
      invariant r == CountedAll(d, items[..j], name)
    {
      assert items[..j + 1][..j] == items[..j];
      r := UpsertCounted(r, items[j], name);
      j := j + 1;
    }
    assert items[..j] == items;
  }

  /** `generate_summary`: one subset per criterion, keyed by the criterion. */
  method GenerateSummary(files: seq<FileData>, criteria: seq<string>) returns (subsets: map<string, CountedDict>)
    ensures subsets.Keys == set c | c in criteria
    ensures forall c :: c in subsets ==> CountedBalanced(subsets[c])
    ensures forall c :: c in subsets ==> subsets[c] == SortDictByValue(CountedFiles(files, c), CountedCount, true)
  {
    subsets := map[];
    var i := 0;
    while i < |criteria|
      invariant 0 <= i <= |criteria|
      invariant subsets.Keys == set c | c in criteria[..i]
      invariant forall c :: c in subsets ==> CountedBalanced(subsets[c])
      invariant forall c :: c in subsets ==> subsets[c] == SortDictByValue(CountedFiles(files, c), CountedCount, true)
    {
      assert criteria[..i + 1] == criteria[..i] + [criteria[i]];
      var subset := ExtractCountedSubset(files, criteria[i]);
      subsets := subsets[criteria[i] := subset];
      i := i + 1;
    }
    assert criteria[..i] == criteria;
  }

  /**
   * `process_dangling_links`: the entries of `allRefs` whose key is dangling,
   * values unchanged, ordered by count, largest first.
   */
  function ProcessDanglingLinks(allRefs: TallyDict, dangling: set<string>): (r: TallyDict)
    ensures multiset(r) == multiset(DanglingEntries(allRefs, dangling))
    ensures forall p :: p in r <==> p in allRefs && p.0 in dangling
    ensures forall i, j :: 0 <= i < j < |r| ==> r[i].1.count >= r[j].1.count
  {
    var kept := DanglingEntries(allRefs, dangling);
    var r := SortByCount(kept);
    assert forall p :: p in r <==> p in multiset(kept);
    r
  }

  /** The comprehension of `process_dangling_links`. */
  function DanglingEntries(allRefs: TallyDict, dangling: set<string>): (r: TallyDict)
    ensures forall p :: p in r <==> p in allRefs && p.0 in dangling
    ensures IsSubseq(r, allRefs)
    decreases |allRefs|
  {
    if allRefs == [] then []
    else
      var rest := DanglingEntries(allRefs[1..], dangling);
      assert forall p :: p in allRefs <==> p == allRefs[0] || p in allRefs[1..];
      if allRefs[0].0 in dangling then [allRefs[0]] + rest else rest
  }

  /** `a` keeps the order of `b`, dropping elements. */
  predicate IsSubseq<T(==)>(a: seq<T>, b: seq<T>)
    decreases |b|
  {
    if b == [] then a == []
    else (a != [] && a[0] == b[0] && IsSubseq(a[1..], b[1..])) || IsSubseq(a, b[1..])
  }

  /** The result's keys are exactly the dangling links that have an entry. */
  lemma DanglingKeys(allRefs: TallyDict, dangling: set<string>, k: string)
    ensures (exists i :: 0 <= i < |ProcessDanglingLinks(allRefs, dangling)| && ProcessDanglingLinks(allRefs, dangling)[i].0 == k)
            <==> k in dangling && exists i :: 0 <= i < |allRefs| && allRefs[i].0 == k
  {
    var r := ProcessDanglingLinks(allRefs, dangling);
    if k in dangling && exists i :: 0 <= i < |allRefs| && allRefs[i].0 == k {
      var i :| 0 <= i < |allRefs| && allRefs[i].0 == k;
      assert allRefs[i] in r;
      var j :| 0 <= j < |r| && r[j] == allRefs[i];
    }
    if exists i :: 0 <= i < |r| && r[i].0 == k {
      var i :| 0 <= i < |r| && r[i].0 == k;
      assert r[i] in r;
      var j :| 0 <= j < |allRefs| && allRefs[j] == r[i];
    }
  }
}

/**
 * The oldest namespace analysis, `src/namespace.py`: statistics, the
 * frequency of each part at each level, the parts met at several depths
 * and the parts that clash with non-namespace pages, each computed from
 * scratch out of the `namespace_parts` dict.
 */
module SrcNamespace {
  import opened PyInt
  import opened NamespaceCore

  /** The dict `analyze_namespace_details` returns. */
  datatype NamespaceDetails = NamespaceDetails(
    levelDistribution: map<int, nat>,
    maxDepth: int,
    prefixFrequency: map<string, nat>,
    namespaceLengths: seq<nat>)

  // ---------------------------------------------------------------------
  // The prefix of an entry
  // ---------------------------------------------------------------------

  /**
   * The index of `sorted(parts.items(), key=lambda x: x[1])[0]`: the sort is
   * stable, so on a tie the earliest item wins.
   */
  function LowestIndex(parts: seq<Part>): (i: nat)
    requires parts != []
    ensures i < |parts|
    decreases |parts|
  {
    if |parts| == 1 then 0
    else
      var i := LowestIndex(parts[..|parts| - 1]);
      if parts[|parts| - 1].level < parts[i].level then |parts| - 1 else i
  }

  /** Item `i` is at the lowest level, and every item before it is higher. */
  predicate FirstAtLowest(parts: seq<Part>, i: int)
  {
    0 <= i < |parts| &&
    (forall j :: 0 <= j < |parts| ==> parts[i].level <= parts[j].level) &&
    (forall j :: 0 <= j < i ==> parts[i].level < parts[j].level)
  }

  /** The chosen item is the first one at the lowest level. */
  lemma {:induction false} LowestIndexSpec(parts: seq<Part>)
    requires parts != []
    ensures FirstAtLowest(parts, LowestIndex(parts))
    decreases |parts|
  {
    if |parts| > 1 {
      var init := parts[..|parts| - 1];
      LowestIndexSpec(init);
      var i := LowestIndex(init);
      assert parts[i] == init[i];
      forall j | 0 <= j < |parts| - 1
        ensures parts[j] == init[j]
      {
      }
    }
  }

  /** Only one item is the first at the lowest level. */
  lemma FirstAtLowestUnique(parts: seq<Part>, i: int, k: int)
    requires FirstAtLowest(parts, i) && FirstAtLowest(parts, k)
    ensures i == k
  {
    var a, b := parts[i].level, parts[k].level;
    assert a <= b && b <= a;
    assert i < k ==> b < a;
    assert k < i ==> a < b;
  }

  /** The prefix of an entry: the part of its first item at the lowest level. */
  function Prefix(parts: seq<Part>): string
    requires parts != []
  {
    parts[LowestIndex(parts)].part
  }

  /** How many entries, with at least one part, have prefix `p`. */
  function PrefixCount(entries: seq<Entry>, p: string): nat
    decreases |entries|
  {
    if entries == [] then 0
    else
      var e := entries[|entries| - 1];
      PrefixCount(entries[..|entries| - 1], p) + (if e.parts != [] && Prefix(e.parts) == p then 1 else 0)
  }

  /** A prefix is counted exactly when some entry has it. */
  lemma {:induction false} PrefixCountPositive(entries: seq<Entry>, p: string)
    ensures PrefixCount(entries, p) > 0 <==> exists e :: e in entries && e.parts != [] && Prefix(e.parts) == p
    decreases |entries|
  {
    if entries != [] {
      var init := entries[..|entries| - 1];
      assert entries == init + [entries[|entries| - 1]];
      PrefixCountPositive(init, p);
    }
  }

  /**
   * `analyze_namespace_details`: the level distribution and its largest
   * level, or 0; each entry's prefix counted once; and each entry's number
   * of parts, in order.
   */
  method AnalyzeNamespaceDetails(entries: seq<Entry>) returns (d: NamespaceDetails)
    ensures DistributionOf(d.levelDistribution, Occurrences(entries))
    ensures MaxDepthOf(d.maxDepth, d.levelDistribution)
    ensures forall p :: p in d.prefixFrequency <==> PrefixCount(entries, p) > 0
    ensures forall p :: p in d.prefixFrequency ==> d.prefixFrequency[p] == PrefixCount(entries, p)
    ensures |d.namespaceLengths| == |entries|
    ensures forall i :: 0 <= i < |entries| ==> d.namespaceLengths[i] == |entries[i].parts|
  {
    var lengths: seq<nat> := [];
    var prefixCounter: map<string, nat> := map[];
    for i := 0 to |entries|
      invariant |lengths| == i
      invariant forall k :: 0 <= k < i ==> lengths[k] == |entries[k].parts|
      invariant forall p :: p in prefixCounter <==> PrefixCount(entries[..i], p) > 0
      invariant forall p :: p in prefixCounter ==> prefixCounter[p] == PrefixCount(entries[..i], p)
    {
      assert entries[..i + 1][..i] == entries[..i];
      lengths := lengths + [|entries[i].parts|];
      if entries[i].parts != [] {
        var prefix := entries[i].parts[LowestIndex(entries[i].parts)].part;
        prefixCounter := prefixCounter[prefix := Get(prefixCounter, prefix, 0) + 1];
      }
    }
    assert entries[..|entries|] == entries;
    var levelDistribution := CollectDistribution(entries);
    var maxDepth := MaxDepth(levelDistribution);
    d := NamespaceDetails(levelDistribution, maxDepth, prefixCounter, lengths);
  }

  // ---------------------------------------------------------------------
  // Frequencies
  // ---------------------------------------------------------------------

  /** `frequency[part][level] += 1`, creating the part's `Counter` first. */
  function AddFrequency(m: map<string, map<int, nat>>, o: Occurrence): map<string, map<int, nat>>
  {
    var c := Get(m, o.part, map[]);
    m[o.part := c[o.level := Get(c, o.level, 0) + 1]]
  }

  /** Part `p` has a counter exactly when met; it counts, for each level, the items of `p` there. */
  lemma {:induction false} FoldFrequency(s: seq<Occurrence>, p: string, l: int)
    ensures p in Fold(AddFrequency, map[], s) <==> p in PartsOf(s)
    ensures l in Get(Fold(AddFrequency, map[], s), p, map[]) <==> l in LevelsOfPart(s, p)
    ensures Get(Get(Fold(AddFrequency, map[], s), p, map[]), l, 0) == PairCount(s, p, l)
    decreases |s|
  {
    if s != [] {
      var init := s[..|s| - 1];
      var o := s[|s| - 1];
      assert s == init + [o];
      FoldFrequency(init, p, l);
      PartsSnoc(init, o);
      LevelsOfPartSnoc(init, o, p);
    }
  }

  /** `f"{part} ({level})"`. */
  function Combined(part: string, level: int): string
  {
    part + " (" + IntToString(level) + ")"
  }

  /** Without its closing parenthesis, a key ends in the token `"(" + level`, after the part and a space. */
  lemma CombinedToken(p: string, l: int)
    ensures |Combined(p, l)| == |p| + |IntToString(l)| + 3
    ensures Combined(p, l)[..|p|] == p
    ensures LastToken(Combined(p, l)[..|Combined(p, l)| - 1]) == "(" + IntToString(l)
  {
    var d := IntToString(l);
    var k := Combined(p, l);
    NoSpaceInNumber(l);
    assert k[..|k| - 1] == p + " " + ("(" + d);
    assert forall i :: 0 <= i < |"(" + d| ==> ("(" + d)[i] != ' ' by {
      forall i | 0 <= i < |"(" + d|
        ensures ("(" + d)[i] != ' '
      {
        if i > 0 {
          assert ("(" + d)[i] == d[i - 1];
        }
      }
    }
    LastTokenAfterSpace(p, "(" + d);
  }

  /** Distinct (part, level) pairs never share a `frequency_list` key. */
  lemma CombinedInjective(p1: string, l1: int, p2: string, l2: int)
    requires Combined(p1, l1) == Combined(p2, l2)
    ensures p1 == p2 && l1 == l2
  {
    CombinedToken(p1, l1);
    CombinedToken(p2, l2);
    var d1 := IntToString(l1);
    var d2 := IntToString(l2);
    assert d1 == ("(" + d1)[1..] && d2 == ("(" + d2)[1..];
    ParseIntToString(l1);
    ParseIntToString(l2);
  }

  /** The text held under the key of part `p` at level `l`: a `"\n\t" + name` line per such item. */
  function Lines(s: seq<Occurrence>, p: string, l: int): string
    decreases |s|
  {
    if s == [] then ""
    else
      var o := s[|s| - 1];
      Lines(s[..|s| - 1], p, l) + (if o.part == p && o.level == l then "\n\t" + o.entry else "")
  }

  /** `frequency_list[combine_name] += f"\n\t{name}"`, starting from `""`. */
  function AddLine(m: map<string, string>, o: Occurrence): map<string, string>
  {
    var key := Combined(o.part, o.level);
    m[key := Get(m, key, "") + "\n\t" + o.entry]
  }

  /** Every key names a (part, level) pair met, and each pair's key holds exactly its lines. */
  lemma {:induction false} FoldLines(s: seq<Occurrence>, p: string, l: int)
    ensures Combined(p, l) in Fold(AddLine, map[], s) <==> l in LevelsOfPart(s, p)
    ensures Get(Fold(AddLine, map[], s), Combined(p, l), "") == Lines(s, p, l)
    decreases |s|
  {
    if s != [] {
      var init := s[..|s| - 1];
      var o := s[|s| - 1];
      assert s == init + [o];
      FoldLines(init, p, l);
      LevelsOfPartSnoc(init, o, p);
      if Combined(o.part, o.level) == Combined(p, l) {
        CombinedInjective(o.part, o.level, p, l);
      }
    }
  }

  /** No key is made up: each comes from some item. */
  lemma {:induction false} FoldLineKeys(s: seq<Occurrence>, k: string)
    ensures k in Fold(AddLine, map[], s) ==> exists o :: o in s && k == Combined(o.part, o.level)
    decreases |s|
  {
    if s != [] {
      var init := s[..|s| - 1];
      assert s == init + [s[|s| - 1]];
      FoldLineKeys(init, k);
    }
  }

  /** The counters of the whole stream, at every part and level. */
  lemma FrequencyAll(s: seq<Occurrence>)
    ensures Fold(AddFrequency, map[], s).Keys == PartsOf(s)
    ensures forall p :: p in Fold(AddFrequency, map[], s) ==> Fold(AddFrequency, map[], s)[p].Keys == LevelsOfPart(s, p)
    ensures forall p, l :: p in Fold(AddFrequency, map[], s) && l in Fold(AddFrequency, map[], s)[p] ==>
      Fold(AddFrequency, map[], s)[p][l] == PairCount(s, p, l)
  {
    var f := Fold(AddFrequency, map[], s);
    forall p, l
      ensures p in f <==> p in PartsOf(s)
      ensures p in f ==> (l in f[p] <==> l in LevelsOfPart(s, p))
      ensures p in f && l in f[p] ==> f[p][l] == PairCount(s, p, l)
    {
      FoldFrequency(s, p, l);
    }
  }

  /** The lines of the whole stream, at every key. */
  lemma LinesAll(s: seq<Occurrence>)
    ensures forall k :: k in Fold(AddLine, map[], s) ==> exists o :: o in s && k == Combined(o.part, o.level)
    ensures forall p, l :: Combined(p, l) in Fold(AddLine, map[], s) <==> l in LevelsOfPart(s, p)
    ensures forall p, l :: Combined(p, l) in Fold(AddLine, map[], s) ==> Fold(AddLine, map[], s)[Combined(p, l)] == Lines(s, p, l)
  {
    var f := Fold(AddLine, map[], s);
    forall p, l
      ensures Combined(p, l) in f <==> l in LevelsOfPart(s, p)
      ensures Combined(p, l) in f ==> f[Combined(p, l)] == Lines(s, p, l)
    {
      FoldLines(s, p, l);
    }
    forall k | k in f
      ensures exists o :: o in s && k == Combined(o.part, o.level)
    {
      FoldLineKeys(s, k);
    }
  }

  /**
   * `analyze_namespace_frequency`: for each part met, a counter of the
   * items of that part at each of its levels; and for each (part, level)
   * pair met, and no other, the lines naming the entries in which it occurs.
   */
  method AnalyzeNamespaceFrequency(entries: seq<Entry>)
    returns (frequency: map<string, map<int, nat>>, frequencyList: map<string, string>)
    ensures frequency.Keys == PartsOf(Occurrences(entries))
    ensures forall p :: p in frequency ==> frequency[p].Keys == LevelsOfPart(Occurrences(entries), p)
    ensures forall p, l :: p in frequency && l in frequency[p] ==> frequency[p][l] == PairCount(Occurrences(entries), p, l)
    ensures forall k :: k in frequencyList ==> exists o :: o in Occurrences(entries) && k == Combined(o.part, o.level)
    ensures forall p, l :: Combined(p, l) in frequencyList <==> l in LevelsOfPart(Occurrences(entries), p)
    ensures forall p, l :: Combined(p, l) in frequencyList ==> frequencyList[Combined(p, l)] == Lines(Occurrences(entries), p, l)
  {
    frequency := FoldEntries(AddFrequency, map[], entries);
    frequencyList := FoldEntries(AddLine, map[], entries);
    FrequencyAll(Occurrences(entries));
    LinesAll(Occurrences(entries));
  }

  /** The two results agree: a (part, level) pair has lines exactly when it is counted. */
  lemma FrequencyListMatches(s: seq<Occurrence>, p: string, l: int)
    ensures Combined(p, l) in Fold(AddLine, map[], s) <==>
      p in Fold(AddFrequency, map[], s) && l in Fold(AddFrequency, map[], s)[p]
  {
    FoldFrequency(s, p, l);
    FoldLines(s, p, l);
    if l in LevelsOfPart(s, p) {
      assert p in PartsOf(s);
    }
  }

  // ---------------------------------------------------------------------
  // Conflicts
  // ---------------------------------------------------------------------

  /**
   * `detect_non_namespace_conflicts`: each part that is a non-namespace
   * name lists every entry holding it, once per item; no other part gets a
   * key.
   */
  method DetectNonNamespaceConflicts(entries: seq<Entry>, nonNamespaceNames: set<string>)
    returns (conflicts: map<string, seq<string>>)
    ensures forall p :: p in conflicts <==> p in nonNamespaceNames && p in PartsOf(Occurrences(entries))
    ensures forall p :: p in conflicts ==> conflicts[p] == EntriesWith(Occurrences(entries), p)
  {
    conflicts := FoldEntries(ConflictStep(nonNamespaceNames), map[], entries);
    ConflictsFromEmpty(nonNamespaceNames, Occurrences(entries));
  }
}

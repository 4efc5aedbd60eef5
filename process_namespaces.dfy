/**
 * The helpers of `src/process_namespaces.py`: each builds its result from
 * scratch out of the `namespace_parts` dict, passed in as a sequence of
 * entries, and shares no state with the others.
 */
module ProcessNamespaces {
  import opened Wrappers
  import opened PyInt
  import opened NamespaceCore

  /** `extract_unique_namespace_parts`: every part key of every entry. */
  method ExtractUniqueNamespaceParts(entries: seq<Entry>) returns (r: set<string>)
    ensures forall p :: p in r <==> exists e, l :: e in entries && Part(p, l) in e.parts
  {
    r := CollectUniqueParts({}, entries);
    forall p
      ensures p in r <==> exists e, l :: e in entries && Part(p, l) in e.parts
    {
      PartsOfMembers(entries, p);
    }
  }

  /**
   * `analyze_namespace_details`: the levels met, each with the number of
   * items at it, and the largest of them, or 0.
   */
  method AnalyzeNamespaceDetails(entries: seq<Entry>) returns (maxDepth: int, levelDistribution: map<int, nat>)
    ensures forall l :: l in levelDistribution <==> exists e, p :: e in entries && Part(p, l) in e.parts
    ensures forall l :: l in levelDistribution ==> levelDistribution[l] == LevelCount(Occurrences(entries), l)
    ensures MaxDepthOf(maxDepth, levelDistribution)
  {
    levelDistribution := CollectDistribution(entries);
    maxDepth := MaxDepth(levelDistribution);
    forall l
      ensures l in levelDistribution <==> exists e, p :: e in entries && Part(p, l) in e.parts
    {
      LevelsOfMembers(entries, l);
    }
  }

  /** `unique_namespaces_per_level[level].add(part)` on a dict whose keys are fixed: a missing level raises. */
  function AddToKnownLevel(r: Result<map<int, set<string>>>, o: Occurrence): Result<map<int, set<string>>>
  {
    if r.Err? then r
    else if o.level in r.value then Ok(r.value[o.level := r.value[o.level] + {o.part}])
    else Err(KeyMissing(IntToString(o.level)))
  }

  /**
   * Adding to fixed keys succeeds exactly when every level met is a key;
   * then the keys stay and each gains the parts met at it, and otherwise
   * the error names a level that is not a key.
   */
  lemma {:induction false} FoldKnownLevels(m: map<int, set<string>>, s: seq<Occurrence>)
    ensures Fold(AddToKnownLevel, Ok(m), s).Ok? <==> forall o :: o in s ==> o.level in m
    ensures Fold(AddToKnownLevel, Ok(m), s).Ok? ==>
      Fold(AddToKnownLevel, Ok(m), s).value.Keys == m.Keys &&
      forall l :: l in m ==> Fold(AddToKnownLevel, Ok(m), s).value[l] == m[l] + PartsAtLevel(s, l)
    ensures Fold(AddToKnownLevel, Ok(m), s).Err? ==>
      exists o :: o in s && o.level !in m && Fold(AddToKnownLevel, Ok(m), s).error == KeyMissing(IntToString(o.level))
    decreases |s|
  {
    if s != [] {
      var init := s[..|s| - 1];
      var o := s[|s| - 1];
      assert s == init + [o];
      FoldKnownLevels(m, init);
      var r := Fold(AddToKnownLevel, Ok(m), init);
      if r.Ok? {
        forall l | l in m
          ensures PartsAtLevel(s, l) == PartsAtLevel(init, l) + (if o.level == l then {o.part} else {})
        {
          PartsAtLevelSnoc(init, o, l);
        }
      }
    }
  }

  /** `{i: set() for i in range(1, n + 1)}`. */
  function EmptyLevels(n: int): (m: map<int, set<string>>)
    ensures forall l :: l in m <==> 1 <= l <= n
    ensures forall l :: l in m ==> m[l] == {}
    decreases n
  {
    if n < 1 then map[] else EmptyLevels(n - 1)[n := {}]
  }

  /**
   * `get_unique_namespaces_by_level`: the keys are exactly 1 to `max_depth`,
   * each holding the parts met at that level; a part at any other level
   * raises `KeyError`.
   */
  method GetUniqueNamespacesByLevel(entries: seq<Entry>, maxDepth: int) returns (r: Result<map<int, set<string>>>)
    ensures r.Ok? <==> forall o :: o in Occurrences(entries) ==> 1 <= o.level <= maxDepth
    ensures r.Ok? ==> (forall l :: l in r.value <==> 1 <= l <= maxDepth)
    ensures r.Ok? ==> forall l :: l in r.value ==> r.value[l] == PartsAtLevel(Occurrences(entries), l)
    ensures r.Err? ==> exists o :: o in Occurrences(entries) && !(1 <= o.level <= maxDepth) && r.error == KeyMissing(IntToString(o.level))
  {
    var m := EmptyLevels(maxDepth);
    r := FoldEntries(AddToKnownLevel, Ok(m), entries);
    FoldKnownLevels(m, Occurrences(entries));
  }

  /**
   * The depth `analyze_namespace_details` reports covers every level met,
   * so when all levels are at least 1 the per-level dict built on it never
   * raises.
   */
  lemma DetailsDepthCoversLevels(entries: seq<Entry>, maxDepth: int, levelDistribution: map<int, nat>)
    requires forall l :: l in levelDistribution <==> exists e, p :: e in entries && Part(p, l) in e.parts
    requires MaxDepthOf(maxDepth, levelDistribution)
    requires forall o :: o in Occurrences(entries) ==> 1 <= o.level
    ensures forall o :: o in Occurrences(entries) ==> 1 <= o.level <= maxDepth
  {
    forall o | o in Occurrences(entries)
      ensures o.level <= maxDepth
    {
      LevelsOfMembers(entries, o.level);
      assert o.level in LevelsOf(Occurrences(entries));
      assert o.level in levelDistribution;
    }
  }

  /**
   * `detect_non_namespace_conflicts`: each part in the non-namespace names,
   * and each part in the dangling links, lists every entry holding it, once
   * per item; no other part gets a key.
   */
  method DetectNonNamespaceConflicts(entries: seq<Entry>, nonNamespace: set<string>, dangling: set<string>)
    returns (conflictsNonNamespace: map<string, seq<string>>, conflictsDangling: map<string, seq<string>>)
    ensures forall p :: p in conflictsNonNamespace <==> p in nonNamespace && p in PartsOf(Occurrences(entries))
    ensures forall p :: p in conflictsNonNamespace ==> conflictsNonNamespace[p] == EntriesWith(Occurrences(entries), p)
    ensures forall p :: p in conflictsDangling <==> p in dangling && p in PartsOf(Occurrences(entries))
    ensures forall p :: p in conflictsDangling ==> conflictsDangling[p] == EntriesWith(Occurrences(entries), p)
  {
    var s := Occurrences(entries);
    var empty: map<string, seq<string>> := map[];
    var step := Both(ConflictStep(nonNamespace), ConflictStep(dangling));
    var r := FoldEntries(step, (empty, empty), entries);
    FoldBoth(ConflictStep(nonNamespace), ConflictStep(dangling), empty, empty, s);
    ConflictsFromEmpty(nonNamespace, s);
    ConflictsFromEmpty(dangling, s);
    conflictsNonNamespace, conflictsDangling := r.0, r.1;
  }

  /**
   * `detect_parent_depth_conflicts`: a "part level" key for each level of
   * each part met at two or more levels, holding the entries with the part
   * at that level.
   */
  method DetectParentDepthConflicts(entries: seq<Entry>) returns (outputConflicts: map<string, seq<string>>)
    ensures IsSplit(outputConflicts, StreamConflicts(Occurrences(entries)))
    ensures forall k :: k in outputConflicts ==> outputConflicts[k] != []
  {
    outputConflicts := SplitFromScratch(entries);
    forall k | k in outputConflicts
      ensures outputConflicts[k] != []
    {
      var c := StreamConflicts(Occurrences(entries));
      var p, l :| p in c && l in c[p].levels && k == DepthKey(p, l);
      SplitEntriesNonEmpty(Occurrences(entries), outputConflicts, p, l);
    }
  }

  /** `visualize_namespace_hierarchy`: the tree whose root-to-node paths are the prefixes of the entries' parts. */
  method VisualizeNamespaceHierarchy(entries: seq<Entry>) returns (tree: Tree)
    ensures forall q :: HasPath(tree, q) <==> q == [] || exists e :: e in entries && q <= PartNames(e.parts)
  {
    tree := GrowTree(Tree(map[]), entries);
    forall q
      ensures HasPath(Tree(map[]), q) <==> q == []
    {
    }
  }
}

/**
 * `NamespaceAnalyzer` of `src/namespace_analyzer.py`: the same analysis
 * over the summary data, one method per step, most of them starting their
 * dict afresh; the namespace pages are those with a truthy
 * `namespace_level`.
 */
module SrcNamespaceAnalyzer {
  import Filters
  import opened Wrappers
  import opened NamespaceCore
  import opened NamespaceData

  class NamespaceAnalyzer {
    const data: seq<Page>
    const danglingLinks: set<string>
    var namespaceData: seq<Entry>
    var namespaceParts: seq<Entry>
    var uniqueNamespaceParts: set<string>
    /** `namespace_details["max_depth"]`. */
    var maxDepth: int
    /** `namespace_details["level_distribution"]`. */
    var levelDistribution: map<int, nat>
    var uniqueNamespacesPerLevel: map<int, set<string>>
    var tree: Tree
    var conflictsNonNamespace: map<string, seq<string>>
    var conflictsDangling: map<string, seq<string>>
    var conflictsParentDepth: map<string, seq<string>>
    var conflictsParentUnique: map<string, set<string>>

    constructor(data: seq<Page>, danglingLinks: set<string>)
      ensures this.data == data && this.danglingLinks == danglingLinks
      ensures namespaceData == [] && namespaceParts == [] && uniqueNamespaceParts == {}
      ensures maxDepth == 0 && levelDistribution == map[] && uniqueNamespacesPerLevel == map[] && tree == Tree(map[])
      ensures conflictsNonNamespace == map[] && conflictsDangling == map[]
      ensures conflictsParentDepth == map[] && conflictsParentUnique == map[]
    {
      this.data := data;
      this.danglingLinks := danglingLinks;
      namespaceData := [];
      namespaceParts := [];
      uniqueNamespaceParts := {};
      maxDepth := 0;
      levelDistribution := map[];
      uniqueNamespacesPerLevel := map[];
      tree := Tree(map[]);
      conflictsNonNamespace := map[];
      conflictsDangling := map[];
      conflictsParentDepth := map[];
      conflictsParentUnique := map[];
    }

    /**
     * `init_ns_parts`: every page with a truthy `namespace_level` is copied
     * into `namespace_data` unless its name is already there; then
     * `namespace_parts` is rebuilt from the entries with truthy parts.
     */
    method InitNsParts()
      modifies this`namespaceData, this`namespaceParts
      ensures namespaceData == SetDefaultAll(old(namespaceData), EntriesWhere(data, HasTruthyLevel))
      ensures namespaceParts == WithParts(namespaceData)
    {
      namespaceData := SetDefaultLoop(namespaceData, EntriesWhere(data, HasTruthyLevel));
      namespaceParts := WithParts(namespaceData);
    }

    /** `get_unique_ns_parts`: every part key joins the unique parts, which are returned. */
    method GetUniqueNsParts() returns (r: set<string>)
      modifies this`uniqueNamespaceParts
      ensures uniqueNamespaceParts == old(uniqueNamespaceParts) + PartsOf(Occurrences(namespaceParts))
      ensures r == uniqueNamespaceParts
    {
      uniqueNamespaceParts := CollectUniqueParts(uniqueNamespaceParts, namespaceParts);
      r := uniqueNamespaceParts;
    }

    /** `analyze_ns_details`: a fresh level distribution, and its largest level, or 0. */
    method AnalyzeNsDetails()
      modifies this`levelDistribution, this`maxDepth
      ensures DistributionOf(levelDistribution, Occurrences(namespaceParts))
      ensures MaxDepthOf(maxDepth, levelDistribution)
    {
      levelDistribution := CollectDistribution(namespaceParts);
      maxDepth := MaxDepth(levelDistribution);
    }

    /** `get_unique_ns_by_levels`: a fresh `defaultdict(set)` of the parts met at each level. */
    method GetUniqueNsByLevels()
      modifies this`uniqueNamespacesPerLevel
      ensures PerLevelOver(uniqueNamespacesPerLevel, map[], Occurrences(namespaceParts))
    {
      uniqueNamespacesPerLevel := CollectPerLevel(map[], namespaceParts);
    }

    /** `build_ns_tree`: each entry's parts, in order, walked into the tree it already holds. */
    method BuildNsTree()
      modifies this`tree
      ensures TreeOver(tree, old(tree), namespaceParts)
    {
      tree := GrowTree(tree, namespaceParts);
    }

    /**
     * `detect_non_ns_conflicts`: fresh dicts in which the parts that are also
     * names of pages whose `namespace_level` is `None`, or dangling links,
     * collect every entry they occur in.
     */
    method DetectNonNsConflicts()
      modifies this`conflictsNonNamespace, this`conflictsDangling
      ensures ConflictsOver(conflictsNonNamespace, map[],
        uniqueNamespaceParts * (set n | n in Filters.ListFilesWithoutKeys(AsDict(data), [NamespaceLevel])), Occurrences(namespaceParts))
      ensures ConflictsOver(conflictsDangling, map[], uniqueNamespaceParts * danglingLinks, Occurrences(namespaceParts))
    {
      var nonNsNames := Filters.ListFilesWithoutKeys(AsDict(data), [NamespaceLevel]);
      var potentialNonNs := uniqueNamespaceParts * (set n | n in nonNsNames);
      var potentialDangling := uniqueNamespaceParts * danglingLinks;
      var s := Occurrences(namespaceParts);
      var step := Both(ConflictStep(potentialNonNs), ConflictStep(potentialDangling));
      var empty: map<string, seq<string>> := map[];
      var r := FoldEntries(step, (empty, empty), namespaceParts);
      FoldBoth(ConflictStep(potentialNonNs), ConflictStep(potentialDangling), empty, empty, s);
      ConflictsAll(potentialNonNs, empty, s);
      ConflictsAll(potentialDangling, empty, s);
      conflictsNonNamespace, conflictsDangling := r.0, r.1;
    }

    /**
     * `detect_parent_depth_conflicts`: a "part level" key per level of each
     * part met at two or more levels, written over what the dict holds.
     */
    method DetectParentDepthConflicts()
      modifies this`conflictsParentDepth
      ensures SplitOver(conflictsParentDepth, old(conflictsParentDepth), StreamConflicts(Occurrences(namespaceParts)))
      ensures KeysParse(old(conflictsParentDepth)) ==> KeysParse(conflictsParentDepth)
    {
      var c := StreamConflicts(Occurrences(namespaceParts));
      var depth := SplitFromScratch(namespaceParts);
      SplitWrittenOver(depth, conflictsParentDepth, c);
      SplitKeysParse(depth, c);
      conflictsParentDepth := conflictsParentDepth + depth;
    }

    /**
     * `get_unique_parent_conflicts`: each key is assigned the level-length
     * prefixes of its pages, the level read from the key's last token; a
     * token that is not a number raises.
     */
    method GetUniqueParentConflicts() returns (err: Option<Error>)
      modifies this`conflictsParentUnique
      ensures err.None? <==> KeysParse(conflictsParentDepth)
      ensures err.Some? ==> conflictsParentUnique == old(conflictsParentUnique)
      ensures err.None? ==> conflictsParentUnique.Keys == old(conflictsParentUnique).Keys + conflictsParentDepth.Keys
      ensures err.None? ==> forall k :: k in conflictsParentDepth ==>
        conflictsParentUnique[k] == Prefixes(conflictsParentDepth[k], KeyLevel(k).value)
      ensures err.None? ==> forall k :: k in old(conflictsParentUnique) && k !in conflictsParentDepth ==>
        conflictsParentUnique[k] == old(conflictsParentUnique)[k]
    {
      var r := UniqueParentConflicts(conflictsParentDepth);
      if r.Err? {
        return Some(r.error);
      }
      conflictsParentUnique := conflictsParentUnique + r.value;
      return None;
    }
  }
}

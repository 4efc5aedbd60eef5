/**
 * `NamespaceAnalyzer` of `logseq_analyzer/namespace_analyzer.py`: the
 * namespace bookkeeping over the summary data, whose dicts and sets
 * accumulate across calls.  The class hands the name-keyed data dict to two
 * helpers written for lists of file objects; the first part of this module
 * models those two calls as written, the class models the selection the
 * rest of the class evidently intends.
 */
module NamespaceAnalyzerModel {
  import PyValue
  import Filters
  import opened Wrappers
  import opened NamespaceCore
  import opened NamespaceData

  // ---------------------------------------------------------------------
  // The two helper calls as written
  // ---------------------------------------------------------------------

  /** A key of the data dict seen as an object: a plain string, with no instance attributes. */
  function KeyObject(name: string): PyValue.Obj
  {
    PyValue.Obj(name, map[])
  }

  /**
   * `yield_files_with_keys(self.data, "namespace_level")` as written: the
   * helper iterates its argument, which for a dict gives the keys, and keeps
   * those having the summary key as an attribute.
   */
  function YieldWithLevelAsWritten(data: seq<Page>): seq<string>
    decreases |data|
  {
    if data == [] then []
    else
      var k := data[|data| - 1].name;
      YieldWithLevelAsWritten(data[..|data| - 1]) + (if PyValue.HasAttr(KeyObject(k), NamespaceLevel) then [k] else [])
  }

  /** As written, no page is ever selected. */
  lemma {:induction false} YieldWithLevelAsWrittenEmpty(data: seq<Page>)
    ensures YieldWithLevelAsWritten(data) == []
    decreases |data|
  {
    if data != [] {
      YieldWithLevelAsWrittenEmpty(data[..|data| - 1]);
    }
  }

  /**
   * `list_files_without_keys(self.data, "namespace_level")` as written: each
   * key lacks the attribute, so `file.name` is read from the string at once.
   */
  function WithoutLevelAsWritten(data: seq<Page>): Result<seq<string>>
    decreases |data|
  {
    if data == [] then Ok([])
    else
      var k := KeyObject(data[0].name);
      var rest := WithoutLevelAsWritten(data[1..]);
      if PyValue.HasAttr(k, NamespaceLevel) then rest
      else match PyValue.GetAttr(k, "name")
        case Err(e) => Err(e)
        case Ok(_) => if rest.Err? then rest else Ok([data[0].name] + rest.value)
  }

  /** As written, any non-empty data raises `AttributeError` for `name`. */
  lemma WithoutLevelAsWrittenRaises(data: seq<Page>)
    requires data != []
    ensures WithoutLevelAsWritten(data) == Err(AttributeMissing("name"))
  {
  }

  /** A page with a level and parts: missed as written, selected by the intended rule. */
  lemma NamespacePageMissedAsWritten()
    ensures var data := [Page("a/b", map[NamespaceLevel := PyValue.VInt(2)], [Part("a", 1), Part("b", 2)])];
      YieldWithLevelAsWritten(data) == [] &&
      EntriesWhere(data, HasLevel) == [Entry("a/b", [Part("a", 1), Part("b", 2)])] &&
      WithParts(SetDefaultAll([], EntriesWhere(data, HasLevel))) != []
  {
    var data := [Page("a/b", map[NamespaceLevel := PyValue.VInt(2)], [Part("a", 1), Part("b", 2)])];
    YieldWithLevelAsWrittenEmpty(data);
    var e := Entry("a/b", [Part("a", 1), Part("b", 2)]);
    assert HasLevel(data[0].record);
    assert data == [] + [data[0]];
    assert EntriesWhere(data, HasLevel) == [e];
    assert SetDefaultAll([], [e]) == [e];
    assert e in WithParts([e]);
  }

  // ---------------------------------------------------------------------
  // The class, with the intended selection
  // ---------------------------------------------------------------------

  class NamespaceAnalyzer {
    const data: seq<Page>
    const danglingLinks: set<string>
    var namespaceData: seq<Entry>
    var namespaceParts: seq<Entry>
    var uniqueNamespaceParts: set<string>
    /** `namespace_details["max_depth"]`. */
    var maxDepth: int
    /** `namespace_details["level_distribution"]`. */
    var levelDistribution: map<int, nat>
    var uniqueNamespacesPerLevel: map<int, set<string>>
    var tree: Tree
    var conflictsNonNamespace: map<string, seq<string>>
    var conflictsDangling: map<string, seq<string>>
    var conflictsParentDepth: map<string, seq<string>>
    var conflictsParentUnique: map<string, set<string>>

    constructor(data: seq<Page>, danglingLinks: set<string>)
      ensures this.data == data && this.danglingLinks == danglingLinks
      ensures namespaceData == [] && namespaceParts == [] && uniqueNamespaceParts == {}
      ensures maxDepth == 0 && levelDistribution == map[] && uniqueNamespacesPerLevel == map[] && tree == Tree(map[])
      ensures conflictsNonNamespace == map[] && conflictsDangling == map[]
      ensures conflictsParentDepth == map[] && conflictsParentUnique == map[]
    {
      this.data := data;
      this.danglingLinks := danglingLinks;
      namespaceData := [];
      namespaceParts := [];
      uniqueNamespaceParts := {};
      maxDepth := 0;
      levelDistribution := map[];
      uniqueNamespacesPerLevel := map[];
      tree := Tree(map[]);
      conflictsNonNamespace := map[];
      conflictsDangling := map[];
      conflictsParentDepth := map[];
      conflictsParentUnique := map[];
    }

    /**
     * `init_ns_parts`: every page whose `namespace_level` is set is copied
     * into `namespace_data` unless its name is already there; then
     * `namespace_parts` is rebuilt from the entries with truthy parts.
     */
    method InitNsParts()
      modifies this`namespaceData, this`namespaceParts
      ensures namespaceData == SetDefaultAll(old(namespaceData), EntriesWhere(data, HasLevel))
      ensures namespaceParts == WithParts(namespaceData)
    {
      namespaceData := SetDefaultLoop(namespaceData, EntriesWhere(data, HasLevel));
      namespaceParts := WithParts(namespaceData);
    }

    /**
     * `analyze_ns_details`: the per-level sets, the unique parts and the tree
     * grow; the level distribution is counted afresh, and the maximum depth
     * is its largest level, or 0.
     */
    method AnalyzeNsDetails()
      modifies this`uniqueNamespacesPerLevel, this`uniqueNamespaceParts, this`levelDistribution, this`maxDepth, this`tree
      ensures PerLevelOver(uniqueNamespacesPerLevel, old(uniqueNamespacesPerLevel), Occurrences(namespaceParts))
      ensures uniqueNamespaceParts == old(uniqueNamespaceParts) + PartsOf(Occurrences(namespaceParts))
      ensures DistributionOf(levelDistribution, Occurrences(namespaceParts))
      ensures MaxDepthOf(maxDepth, levelDistribution)
      ensures TreeOver(tree, old(tree), namespaceParts)
    {
      uniqueNamespacesPerLevel := CollectPerLevel(uniqueNamespacesPerLevel, namespaceParts);
      uniqueNamespaceParts := CollectUniqueParts(uniqueNamespaceParts, namespaceParts);
      levelDistribution := CollectDistribution(namespaceParts);
      tree := GrowTree(tree, namespaceParts);
      maxDepth := MaxDepth(levelDistribution);
    }

    /**
     * `detect_non_ns_conflicts`: the parts that are also names of pages
     * without a `namespace_level`, or dangling links, collect every entry
     * they occur in.
     */
    method DetectNonNsConflicts()
      modifies this`conflictsNonNamespace, this`conflictsDangling
      ensures ConflictsOver(conflictsNonNamespace, old(conflictsNonNamespace),
        uniqueNamespaceParts * (set n | n in Filters.ListFilesWithoutKeys(AsDict(data), [NamespaceLevel])), Occurrences(namespaceParts))
      ensures ConflictsOver(conflictsDangling, old(conflictsDangling), uniqueNamespaceParts * danglingLinks, Occurrences(namespaceParts))
    {
      var nonNsNames := Filters.ListFilesWithoutKeys(AsDict(data), [NamespaceLevel]);
      var potentialNonNs := uniqueNamespaceParts * (set n | n in nonNsNames);
      var potentialDangling := uniqueNamespaceParts * danglingLinks;
      var s := Occurrences(namespaceParts);
      var step := Both(ConflictStep(potentialNonNs), ConflictStep(potentialDangling));
      var r := FoldEntries(step, (conflictsNonNamespace, conflictsDangling), namespaceParts);
      FoldBoth(ConflictStep(potentialNonNs), ConflictStep(potentialDangling), conflictsNonNamespace, conflictsDangling, s);
      ConflictsAll(potentialNonNs, conflictsNonNamespace, s);
      ConflictsAll(potentialDangling, conflictsDangling, s);
      conflictsNonNamespace, conflictsDangling := r.0, r.1;
    }

    /**
     * `detect_parent_depth_conflicts`: fresh part levels and entries, then a
     * "part level" key per level of each part met at two or more levels;
     * keys already present that are not rewritten stay, and every key still
     * reads back as a level when all did before.
     */
    method DetectParentDepthConflicts()
      modifies this`conflictsParentDepth
      ensures SplitOver(conflictsParentDepth, old(conflictsParentDepth), StreamConflicts(Occurrences(namespaceParts)))
      ensures KeysParse(old(conflictsParentDepth)) ==> KeysParse(conflictsParentDepth)
    {
      var c := StreamConflicts(Occurrences(namespaceParts));
      var depth := SplitFromScratch(namespaceParts);
      SplitWrittenOver(depth, conflictsParentDepth, c);
      SplitKeysParse(depth, c);
      conflictsParentDepth := conflictsParentDepth + depth;
    }

    /**
     * `get_unique_parent_conflicts`: each key's level is read from its last
     * space-separated token, and the key is assigned the level-length
     * prefixes of its pages; a token that is not a number raises.
     */
    method GetUniqueParentConflicts() returns (err: Option<Error>)
      modifies this`conflictsParentUnique
      ensures err.None? <==> KeysParse(conflictsParentDepth)
      ensures err.Some? ==> conflictsParentUnique == old(conflictsParentUnique)
      ensures err.None? ==> conflictsParentUnique.Keys == old(conflictsParentUnique).Keys + conflictsParentDepth.Keys
      ensures err.None? ==> forall k :: k in conflictsParentDepth ==>
        conflictsParentUnique[k] == Prefixes(conflictsParentDepth[k], KeyLevel(k).value)
      ensures err.None? ==> forall k :: k in old(conflictsParentUnique) && k !in conflictsParentDepth ==>
        conflictsParentUnique[k] == old(conflictsParentUnique)[k]
    {
      var r := UniqueParentConflicts(conflictsParentDepth);
      if r.Err? {
        return Some(r.error);
      }
      conflictsParentUnique := conflictsParentUnique + r.value;
      return None;
    }
  }
}

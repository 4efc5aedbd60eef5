/**
 * `LogseqNamespaces` of the current package: the namespace bookkeeping over
 * the file index, the conflicts between namespace parts and non-namespace
 * pages or dangling links, and the parts met at several depths.
 */
module NamespacesAnalysis {
  import opened NamespaceCore

  /**
   * A file of the index as the namespace code reads it: its name, whether
   * it has namespace info, whether it is a namespace, and the truthy `parts`
   * of that info (`[]` when missing or empty).
   */
  datatype IndexFile = IndexFile(name: string, hasNsInfo: bool, isNamespace: bool, parts: seq<Part>)

  /** The files `init_ns_parts` does not skip, in index order. */
  function Namespaced(index: seq<IndexFile>): (r: seq<Entry>)
    ensures forall e :: e in r <==>
      exists f :: f in index && f.hasNsInfo && f.isNamespace && f.parts != [] && e == Entry(f.name, f.parts)
    decreases |index|
  {
    if index == [] then []
    else
      var f := index[|index| - 1];
      var init := index[..|index| - 1];
      assert index == init + [f];
      Namespaced(init) + (if f.hasNsInfo && f.isNamespace && f.parts != [] then [Entry(f.name, f.parts)] else [])
  }

  /** `non_ns_names`: the files with namespace info that are not namespaces. */
  function NonNamespaceNames(index: seq<IndexFile>): set<string>
  {
    set f | f in index && f.hasNsInfo && !f.isNamespace :: f.name
  }

  class LogseqNamespaces {
    var partLevels: map<string, set<int>>
    var partEntries: map<string, seq<Placed>>
    /** `structure.parts`: each namespaced name's parts. */
    var parts: seq<Entry>
    var uniqueParts: set<string>
    var perLevel: map<int, set<string>>
    var levelDistribution: map<int, nat>
    var maxDepth: int
    var tree: Tree
    var nonNamespace: map<string, seq<string>>
    var dangling: map<string, seq<string>>
    var parentDepth: map<string, seq<string>>
    var parentUnique: map<string, set<string>>

    constructor()
      ensures partLevels == map[] && partEntries == map[] && parts == [] && uniqueParts == {}
      ensures perLevel == map[] && levelDistribution == map[] && maxDepth == 0 && tree == Tree(map[])
      ensures nonNamespace == map[] && dangling == map[] && parentDepth == map[] && parentUnique == map[]
    {
      partLevels := map[];
      partEntries := map[];
      parts := [];
      uniqueParts := {};
      perLevel := map[];
      levelDistribution := map[];
      maxDepth := 0;
      tree := Tree(map[]);
      nonNamespace := map[];
      dangling := map[];
      parentDepth := map[];
      parentUnique := map[];
    }

    /**
     * `init_ns_parts`: for every item of every namespaced file, the part is
     * added to the unique parts and to its level's set, the level is counted
     * and added to the part's levels, the entry is recorded under the part,
     * and the parts are walked into the tree.
     */
    method InitNsParts(index: seq<IndexFile>)
      modifies this`partLevels, this`partEntries, this`parts, this`uniqueParts, this`perLevel
      modifies this`levelDistribution, this`maxDepth, this`tree
      ensures parts == AssignAll(old(parts), Namespaced(index))
      ensures uniqueParts == old(uniqueParts) + PartsOf(Occurrences(Namespaced(index)))
      ensures PerLevelOver(perLevel, old(perLevel), Occurrences(Namespaced(index)))
      ensures DistributionOf(levelDistribution, Occurrences(Namespaced(index)))
      ensures MaxDepthOf(maxDepth, levelDistribution)
      ensures PartLevelsOver(partLevels, old(partLevels), Occurrences(Namespaced(index)))
      ensures PartEntriesOver(partEntries, old(partEntries), Occurrences(Namespaced(index)))
      ensures TreeOver(tree, old(tree), Namespaced(index))
    {
      var entries := Namespaced(index);
      parts := AssignAll(parts, entries);
      uniqueParts := CollectUniqueParts(uniqueParts, entries);
      perLevel := CollectPerLevel(perLevel, entries);
      levelDistribution := CollectDistribution(entries);
      partLevels := CollectPartLevels(partLevels, entries);
      partEntries := CollectPartEntries(partEntries, entries);
      maxDepth := MaxDepth(levelDistribution);
      tree := GrowTree(tree, entries);
    }

    /**
     * `detect_non_ns_conflicts`: the parts that are also names of
     * non-namespace files, or dangling links, collect every entry of
     * `parts` they occur in.
     */
    method DetectNonNsConflicts(index: seq<IndexFile>, danglingLinks: set<string>)
      modifies this`nonNamespace, this`dangling
      ensures ConflictsOver(nonNamespace, old(nonNamespace), uniqueParts * NonNamespaceNames(index), Occurrences(parts))
      ensures ConflictsOver(dangling, old(dangling), uniqueParts * danglingLinks, Occurrences(parts))
    {
      var potentialNonNs := uniqueParts * NonNamespaceNames(index);
      var potentialDangling := uniqueParts * danglingLinks;
      var s := Occurrences(parts);
      var step := Both(ConflictStep(potentialNonNs), ConflictStep(potentialDangling));
      var r := FoldEntries(step, (nonNamespace, dangling), parts);
      FoldBoth(ConflictStep(potentialNonNs), ConflictStep(potentialDangling), nonNamespace, dangling, s);
      ConflictsAll(potentialNonNs, nonNamespace, s);
      ConflictsAll(potentialDangling, dangling, s);
      nonNamespace, dangling := r.0, r.1;
    }

    /**
     * `detect_parent_depth_conflicts`: each part recorded at two or more
     * levels gets a "part level" key per level, holding the entries with the
     * part at that level; the key's unique parents gain those entries'
     * level-length prefixes.
     */
    method DetectParentDepthConflicts()
      modifies this`parentDepth, this`parentUnique
      ensures SplitOver(parentDepth, old(parentDepth), PartConflicts(partLevels, partEntries))
      ensures ParentsOver(parentUnique, old(parentUnique), PartConflicts(partLevels, partEntries), true)
    {
      var depth, unique := DepthConflicts(partLevels, partEntries);
      SplitWrittenOver(depth, parentDepth, PartConflicts(partLevels, partEntries));
      ParentsWrittenOver(unique, parentUnique, PartConflicts(partLevels, partEntries));
      parentDepth := parentDepth + depth;
      parentUnique := MergeSets(parentUnique, unique);
    }
  }
}

/**
 * The older `LogseqNamespaces` singleton, which reads the graph's hashed
 * files directly: the same bookkeeping and conflicts as the current
 * package, keyed on the `ns_level` attribute, with the parent-depth levels
 * walked in ascending order and each key's unique parents assigned rather
 * than merged.
 */
module LegacyNamespaces {
  import PyValue
  import opened NamespaceCore
  import Filters

  /** A hashed file: its attributes, and its `ns_parts` dict (`[]` when missing or empty). */
  datatype HashedFile = HashedFile(obj: PyValue.Obj, parts: seq<Part>)

  /** The attribute that marks a namespace file. */
  const NsLevel: string := "ns_level"

  /** `yield_files_with_keys("ns_level")` with truthy `ns_parts`, as entries, in file order. */
  function Namespaced(files: seq<HashedFile>): seq<Entry>
    decreases |files|
  {
    if files == [] then []
    else
      var f := files[|files| - 1];
      Namespaced(files[..|files| - 1]) + (if PyValue.HasAttr(f.obj, NsLevel) && f.parts != [] then [Entry(f.obj.name, f.parts)] else [])
  }

  /** An entry is kept exactly when it comes from a file with `ns_level` and truthy parts. */
  lemma {:induction false} NamespacedMembers(files: seq<HashedFile>, e: Entry)
    ensures e in Namespaced(files) <==>
      exists f :: f in files && PyValue.HasAttr(f.obj, NsLevel) && f.parts != [] && e == Entry(f.obj.name, f.parts)
    decreases |files|
  {
    if files != [] {
      var f := files[|files| - 1];
      var init := files[..|files| - 1];
      assert files == init + [f];
      NamespacedMembers(init, e);
    }
  }

  /** The attribute objects of the files, in order. */
  function Objects(files: seq<HashedFile>): (r: seq<PyValue.Obj>)
    ensures |r| == |files| && forall i :: 0 <= i < |files| ==> r[i] == files[i].obj
    decreases |files|
  {
    if files == [] then [] else Objects(files[..|files| - 1]) + [files[|files| - 1].obj]
  }

  /** `list_files_without_keys(*criteria)`: the names of the files lacking every listed attribute. */
  function ListFilesWithoutKeys(files: seq<HashedFile>, criteria: seq<string>): (r: seq<string>)
    ensures forall f :: f in files && (forall j :: 0 <= j < |criteria| ==> !PyValue.HasAttr(f.obj, criteria[j])) ==> f.obj.name in r
    ensures forall n :: n in r ==> exists f :: f in files && f.obj.name == n && forall j :: 0 <= j < |criteria| ==> !PyValue.HasAttr(f.obj, criteria[j])
  {
    var objs := Objects(files);
    var r := Filters.NamesWithoutAttrs(objs, criteria);
    forall f | f in files && (forall j :: 0 <= j < |criteria| ==> !PyValue.HasAttr(f.obj, criteria[j]))
      ensures f.obj.name in r
    {
      var i :| 0 <= i < |files| && files[i] == f;
      assert objs[i] == f.obj;
    }
    forall n | n in r
      ensures exists f :: f in files && f.obj.name == n && forall j :: 0 <= j < |criteria| ==> !PyValue.HasAttr(f.obj, criteria[j])
    {
      var o :| o in objs && o.name == n && forall j :: 0 <= j < |criteria| ==> !PyValue.HasAttr(o, criteria[j]);
      var i :| 0 <= i < |objs| && objs[i] == o;
      assert files[i] in files;
    }
    r
  }

  class LogseqNamespaces {
    const hashedFiles: seq<HashedFile>
    const danglingLinks: set<string>
    var partLevels: map<string, set<int>>
    var partEntries: map<string, seq<Placed>>
    var namespaceParts: seq<Entry>
    var uniqueNamespaceParts: set<string>
    var uniqueNamespacesPerLevel: map<int, set<string>>
    var levelDistribution: map<int, nat>
    var maxDepth: int
    var tree: Tree
    var conflictsNonNamespace: map<string, seq<string>>
    var conflictsDangling: map<string, seq<string>>
    var conflictsParentDepth: map<string, seq<string>>
    var conflictsParentUnique: map<string, set<string>>

    /** The first construction: the graph's hashed files and dangling links, everything else empty. */
    constructor(files: seq<HashedFile>, dangling: set<string>)
      ensures hashedFiles == files && danglingLinks == dangling
      ensures partLevels == map[] && partEntries == map[] && namespaceParts == [] && uniqueNamespaceParts == {}
      ensures uniqueNamespacesPerLevel == map[] && levelDistribution == map[] && maxDepth == 0 && tree == Tree(map[])
      ensures conflictsNonNamespace == map[] && conflictsDangling == map[]
      ensures conflictsParentDepth == map[] && conflictsParentUnique == map[]
    {
      hashedFiles := files;
      danglingLinks := dangling;
      partLevels := map[];
      partEntries := map[];
      namespaceParts := [];
      uniqueNamespaceParts := {};
      uniqueNamespacesPerLevel := map[];
      levelDistribution := map[];
      maxDepth := 0;
      tree := Tree(map[]);
      conflictsNonNamespace := map[];
      conflictsDangling := map[];
      conflictsParentDepth := map[];
      conflictsParentUnique := map[];
    }

    /** `init_ns_parts`: the bookkeeping of every item of every file with `ns_level` and truthy `ns_parts`. */
    method InitNsParts()
      modifies this`partLevels, this`partEntries, this`namespaceParts, this`uniqueNamespaceParts
      modifies this`uniqueNamespacesPerLevel, this`levelDistribution, this`maxDepth, this`tree
      ensures namespaceParts == AssignAll(old(namespaceParts), Namespaced(hashedFiles))
      ensures uniqueNamespaceParts == old(uniqueNamespaceParts) + PartsOf(Occurrences(Namespaced(hashedFiles)))
      ensures PerLevelOver(uniqueNamespacesPerLevel, old(uniqueNamespacesPerLevel), Occurrences(Namespaced(hashedFiles)))
      ensures DistributionOf(levelDistribution, Occurrences(Namespaced(hashedFiles)))
      ensures MaxDepthOf(maxDepth, levelDistribution)
      ensures PartLevelsOver(partLevels, old(partLevels), Occurrences(Namespaced(hashedFiles)))
      ensures PartEntriesOver(partEntries, old(partEntries), Occurrences(Namespaced(hashedFiles)))
      ensures TreeOver(tree, old(tree), Namespaced(hashedFiles))
    {
      var entries := Namespaced(hashedFiles);
      namespaceParts := AssignAll(namespaceParts, entries);
      uniqueNamespaceParts := CollectUniqueParts(uniqueNamespaceParts, entries);
      uniqueNamespacesPerLevel := CollectPerLevel(uniqueNamespacesPerLevel, entries);
      levelDistribution := CollectDistribution(entries);
      partLevels := CollectPartLevels(partLevels, entries);
      partEntries := CollectPartEntries(partEntries, entries);
      maxDepth := MaxDepth(levelDistribution);
      tree := GrowTree(tree, entries);
    }

    /** `detect_non_ns_conflicts`: candidates are the unique parts named by a file without `ns_level`, or dangling. */
    method DetectNonNsConflicts()
      modifies this`conflictsNonNamespace, this`conflictsDangling
      ensures ConflictsOver(conflictsNonNamespace, old(conflictsNonNamespace),
        uniqueNamespaceParts * (set n | n in ListFilesWithoutKeys(hashedFiles, [NsLevel])), Occurrences(namespaceParts))
      ensures ConflictsOver(conflictsDangling, old(conflictsDangling),
        uniqueNamespaceParts * danglingLinks, Occurrences(namespaceParts))
    {
      var nonNsNames := ListFilesWithoutKeys(hashedFiles, [NsLevel]);
      var potentialNonNs := uniqueNamespaceParts * (set n | n in nonNsNames);
      var potentialDangling := uniqueNamespaceParts * danglingLinks;
      var s := Occurrences(namespaceParts);
      var step := Both(ConflictStep(potentialNonNs), ConflictStep(potentialDangling));
      var r := FoldEntries(step, (conflictsNonNamespace, conflictsDangling), namespaceParts);
      FoldBoth(ConflictStep(potentialNonNs), ConflictStep(potentialDangling), conflictsNonNamespace, conflictsDangling, s);
      ConflictsAll(potentialNonNs, conflictsNonNamespace, s);
      ConflictsAll(potentialDangling, conflictsDangling, s);
      conflictsNonNamespace, conflictsDangling := r.0, r.1;
    }

    /** `detect_parent_depth_conflicts`: each key's entries and unique parents are assigned. */
    method DetectParentDepthConflicts()
      modifies this`conflictsParentDepth, this`conflictsParentUnique
      ensures SplitOver(conflictsParentDepth, old(conflictsParentDepth), PartConflicts(partLevels, partEntries))
      ensures ParentsOver(conflictsParentUnique, old(conflictsParentUnique), PartConflicts(partLevels, partEntries), false)
    {
      var depth, unique := DepthConflicts(partLevels, partEntries);
      SplitWrittenOver(depth, conflictsParentDepth, PartConflicts(partLevels, partEntries));
      ParentsWrittenOver(unique, conflictsParentUnique, PartConflicts(partLevels, partEntries));
      conflictsParentDepth := conflictsParentDepth + depth;
      conflictsParentUnique := conflictsParentUnique + unique;
    }
  }
}

/**
 * Node classification: every variant of `determine_node_type` in the
 * repository, which maps a file's content and back-link flags to one of the
 * graph-role tags.
 */
module NodeType {

  datatype Tag =
    | Branch
    | Leaf
    | Root
    | OrphanGraph
    | OrphanTrue
    | OrphanNamespace
    | OrphanNamespaceTrue
    | Other

  /**
   * The decision tree of the current package (and, identically, of the older
   * `src` package): content and back-link flags decide a role; "other" is
   * never produced.
   */
  function Classify(hasContent: bool, isBacklinked: bool, isBacklinkedNs: bool, hasBacklinks: bool): (t: Tag)
    ensures t != Other
    ensures hasContent ==> (t == Branch <==> isBacklinked && hasBacklinks)
    ensures hasContent ==> (t == Leaf <==> isBacklinked && !hasBacklinks)
    ensures hasContent ==> (t == Root <==> !isBacklinked && hasBacklinks)
    ensures hasContent && !isBacklinked && !hasBacklinks ==>
              t == (if isBacklinkedNs then OrphanNamespace else OrphanGraph)
    ensures !hasContent ==>
              t == (if isBacklinked then Leaf
                    else if isBacklinkedNs then OrphanNamespaceTrue else OrphanTrue)
    ensures t in {OrphanNamespace, OrphanNamespaceTrue} ==> isBacklinkedNs && !isBacklinked
  {
    if hasContent then
      if isBacklinked then
        if hasBacklinks then Branch else Leaf
      else if hasBacklinks then Root
      else if isBacklinkedNs then OrphanNamespace
      else OrphanGraph
    else if !isBacklinked then
      if isBacklinkedNs then OrphanNamespaceTrue else OrphanTrue
    else Leaf
  }

  /** The key of the lookup table: (has_content, is_backlinked, is_backlinked_by_ns_only, has_backlinks). */
  type Flags = (bool, bool, bool, bool)

  /** The twelve explicit entries of the table-driven `determine_node_type`. */
  const NodeTable: map<Flags, Tag> := map[
    (true, true, true, true) := Branch,
    (true, true, false, true) := Branch,
    (true, true, true, false) := Leaf,
    (true, true, false, false) := Leaf,
    (false, true, true, false) := Leaf,
    (false, true, false, false) := Leaf,
    (true, false, true, true) := Root,
    (true, false, false, true) := Root,
    (true, false, true, false) := OrphanNamespace,
    (false, false, true, false) := OrphanNamespaceTrue,
    (true, false, false, false) := OrphanGraph,
    (false, false, false, false) := OrphanTrue
  ]

  /**
   * `NodeTable.get(key, "other")`: "other" comes back exactly for the four
   * keys without content but with outgoing links; on every other key the
   * table agrees with the decision tree.
   */
  function TableLookup(hasContent: bool, isBacklinked: bool, isBacklinkedNs: bool, hasBacklinks: bool): (t: Tag)
    ensures t == Other <==> !hasContent && hasBacklinks
    ensures t != Other ==> t == Classify(hasContent, isBacklinked, isBacklinkedNs, hasBacklinks)
  {
    var key := (hasContent, isBacklinked, isBacklinkedNs, hasBacklinks);
    if key in NodeTable then NodeTable[key] else Other
  }

  /**
   * The three-flag variant of the older summary code: no namespace flag, so
   * it never yields the namespace orphans and never "other"; it is the
   * decision tree with the namespace flag off.
   */
  function ClassifyNoNamespace(hasContent: bool, isBacklinked: bool, hasBacklinks: bool): (t: Tag)
    ensures t != Other && t != OrphanNamespace && t != OrphanNamespaceTrue
    ensures t == Classify(hasContent, isBacklinked, false, hasBacklinks)
    ensures !hasContent ==> t == (if isBacklinked then Leaf else OrphanTrue)
  {
    if hasContent then
      if isBacklinked then
        if hasBacklinks then Branch else Leaf
      else if hasBacklinks then Root else OrphanGraph
    else if !isBacklinked then OrphanTrue
    else Leaf
  }

  /** The five role flags of the first script: (orphan_true, orphan_graph, root, leaf, branch). */
  datatype RoleFlags = RoleFlags(orphanTrue: bool, orphanGraph: bool, root: bool, leaf: bool, branch: bool)

  function CountTrue(f: RoleFlags): nat
  {
    (if f.orphanTrue then 1 else 0) + (if f.orphanGraph then 1 else 0) + (if f.root then 1 else 0)
    + (if f.leaf then 1 else 0) + (if f.branch then 1 else 0)
  }

  /**
   * The five-boolean variant: exactly one flag is raised, and it names the
   * role the three-flag classifier gives.
   */
  function ClassifyFlags(hasContent: bool, isBacklinked: bool, hasLinks: bool): (f: RoleFlags)
    ensures CountTrue(f) == 1
    ensures f.orphanTrue <==> ClassifyNoNamespace(hasContent, isBacklinked, hasLinks) == OrphanTrue
    ensures f.orphanGraph <==> ClassifyNoNamespace(hasContent, isBacklinked, hasLinks) == OrphanGraph
    ensures f.root <==> ClassifyNoNamespace(hasContent, isBacklinked, hasLinks) == Root
    ensures f.leaf <==> ClassifyNoNamespace(hasContent, isBacklinked, hasLinks) == Leaf
    ensures f.branch <==> ClassifyNoNamespace(hasContent, isBacklinked, hasLinks) == Branch
  {
    var none := RoleFlags(false, false, false, false, false);
    if hasContent then
      if isBacklinked then
        if hasLinks then none.(branch := true) else none.(leaf := true)
      else if hasLinks then none.(root := true) else none.(orphanGraph := true)
    else if !isBacklinked then none.(orphanTrue := true)
    else none.(leaf := true)
  }
}

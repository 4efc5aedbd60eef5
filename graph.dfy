/**
 * The graph builder of the current package: after every file is indexed,
 * `post_processing_content` folds each file's extracted references into the
 * link tallies and the sets of linked names, propagates namespace children to
 * root and parent pages, and derives the dangling links; then
 * `process_summary_data` decides each file's back-link flags, consuming names
 * from those sets, and its node type.
 *
 * Files are given in index order; the attributes the graph code writes on
 * them (`ns_level`, `ns_children`, `ns_size`, `is_backlinked`,
 * `is_backlinked_by_ns_only`, `node_type`) are kept by position.
 *
 * The namespace branch of `post_processing_content` and the node-type lookup
 * of `process_summary_data` are reached only for files whose initialisation
 * stored the file type and processed name, that is, with the corrected
 * `FileName.InitIntendedSetsNamespace`; as written, `init_file_data` drops
 * them.  A `GFile` takes those fields as free inputs.
 */
module Graph {
  import opened Wrappers
  import opened NodeType
  import opened Backlinks
  import opened Tally
  import FileIndexModel
  import PyList

  /** What the graph code reads of a file: its name, extracted data, name data and flags. */
  datatype GFile = GFile(
    name: string,
    data: map<string, seq<string>>,
    isNamespace: bool,
    nsLevel: int,
    nsRoot: string,
    nsParent: Option<string>,
    nsParentFull: string,
    fileType: string,
    hasContent: bool,
    hasBacklinks: bool)

  /** The name data only sets truthy attributes: a present `ns_parent` is non-empty. */
  predicate NameDataOk(f: GFile)
  {
    f.nsParent.Some? ==> f.nsParent.value != []
  }

  /** `file.data.get(key, [])`. */
  function DataGet(f: GFile, key: string): seq<string>
  {
    if key in f.data then f.data[key] else []
  }

  /** The criteria whose values count as linked references, in the order they are listed. */
  const RefKeys: seq<string> := [
    "aliases", "draws", "page_references", "tags", "tagged_backlinks",
    "properties_page_builtin", "properties_page_user",
    "properties_block_builtin", "properties_block_user"
  ]

  /** The listed criteria's values, concatenated in order. */
  function Gathered(f: GFile, keys: seq<string>): seq<string>
    decreases |keys|
  {
    if keys == [] then [] else DataGet(f, keys[0]) + Gathered(f, keys[1..])
  }

  /** A gathered value is a value of one of the listed criteria. */
  lemma {:induction false} GatheredMembers(f: GFile, keys: seq<string>, x: string)
    ensures x in Gathered(f, keys) <==> exists k :: 0 <= k < |keys| && x in DataGet(f, keys[k])
    decreases |keys|
  {
    if keys != [] {
      GatheredMembers(f, keys[1..], x);
      assert forall k :: 1 <= k < |keys| ==> keys[k] == keys[1..][k - 1];
    }
  }

  /** The `if item` filter of the flattening comprehension. */
  function NonEmpty(s: seq<string>): seq<string>
    decreases |s|
  {
    if s == [] then [] else (if s[0] != [] then [s[0]] else []) + NonEmpty(s[1..])
  }

  /** The filter keeps every occurrence of each non-empty item and drops the empty ones. */
  lemma {:induction false} NonEmptyCount(s: seq<string>, x: string)
    ensures multiset(NonEmpty(s))[x] == if x == [] then 0 else multiset(s)[x]
    decreases |s|
  {
    if s != [] {
      NonEmptyCount(s[1..], x);
      assert s == [s[0]] + s[1..];
    }
  }

  /** `getattr(file, "ns_parent", "")`. */
  function ParentOrEmpty(f: GFile): string
  {
    if f.nsParent.Some? then f.nsParent.value else ""
  }

  /** The flattened, filtered `linked_references` list of one file. */
  function LinkedReferences(f: GFile): seq<string>
  {
    NonEmpty(Gathered(f, RefKeys) + [ParentOrEmpty(f)])
  }

  /**
   * The file's linked references are every non-empty value of the listed
   * criteria plus its namespace parent, each occurrence kept.
   */
  lemma LinkedReferencesCount(f: GFile, x: string)
    ensures multiset(LinkedReferences(f))[x] ==
              if x == [] then 0
              else multiset(Gathered(f, RefKeys))[x] + (if f.nsParent == Some(x) then 1 else 0)
  {
    var g := Gathered(f, RefKeys);
    NonEmptyCountSnoc(g, ParentOrEmpty(f), x);
  }

  lemma NonEmptyCountSnoc(g: seq<string>, p: string, x: string)
    ensures multiset(NonEmpty(g + [p]))[x] == if x == [] then 0 else multiset(g)[x] + (if p == x then 1 else 0)
  {
    NonEmptyCount(g + [p], x);
    assert multiset(g + [p]) == multiset(g) + multiset{p};
  }

  /** The namespace parent is always among the linked references, so removing it cannot raise. */
  lemma ParentIsLinked(f: GFile)
    requires NameDataOk(f) && f.nsParent.Some?
    ensures f.nsParent.value in LinkedReferences(f)
  {
    LinkedReferencesCount(f, f.nsParent.value);
    assert multiset(LinkedReferences(f))[f.nsParent.value] > 0;
  }

  /** The references that go into `unique_linked_references`: one occurrence of the parent removed. */
  function UniqueRefs(f: GFile): seq<string>
  {
    if f.nsParent.Some? then PyList.RemoveFirst(LinkedReferences(f), f.nsParent.value)
    else LinkedReferences(f)
  }

  /**
   * A linked reference reaches `unique_linked_references` unless it is the
   * namespace parent linked only through the namespace itself.
   */
  lemma UniqueRefsMembers(f: GFile, x: string)
    requires NameDataOk(f)
    ensures x in UniqueRefs(f) <==>
              x in LinkedReferences(f) && (f.nsParent != Some(x) || multiset(LinkedReferences(f))[x] >= 2)
  {
    if f.nsParent.Some? {
      ParentIsLinked(f);
      RemoveFirstMembers(LinkedReferences(f), f.nsParent.value, x);
    }
  }

  /** Removing one occurrence of `p` loses `p` only when it occurred once. */
  lemma RemoveFirstMembers(refs: seq<string>, p: string, x: string)
    requires p in refs
    ensures x in PyList.RemoveFirst(refs, p) <==> x in refs && (p != x || multiset(refs)[x] >= 2)
  {
    PyList.RemoveFirstCount(refs, p);
    var u := PyList.RemoveFirst(refs, p);
    assert multiset(u) == multiset(refs) - multiset{p};
    assert multiset(u)[x] == if x == p then multiset(refs)[x] - 1 else multiset(refs)[x];
    assert x in u <==> multiset(u)[x] > 0;
    assert x in refs <==> multiset(refs)[x] > 0;
  }

  function Elems(s: seq<string>): set<string>
  {
    set x | x in s
  }

  /** `set(files.name)`: the keys of the index's name map. */
  function NamesOf(files: seq<GFile>): set<string>
  {
    set i | 0 <= i < |files| :: files[i].name
  }

  /** The namespace attributes other files write on a file; `None` is an absent attribute. */
  datatype NsAttrs = NsAttrs(level: Option<int>, children: Option<set<string>>, size: Option<int>)

  function ChildrenOf(a: NsAttrs): set<string>
  {
    if a.children.Some? then a.children.value else {}
  }

  /** `process_ns_size`. */
  function ProcessNsSize(a: NsAttrs): int
  {
    if a.size.None? then |ChildrenOf(a)| else a.size.value + 1
  }

  /**
   * One root or parent update: the level is set only when absent, the child
   * is added to `ns_children`, and the size comes from `process_ns_size`.
   */
  function AddChild(a: NsAttrs, child: string, level: int): NsAttrs
  {
    var b := NsAttrs(if a.level.None? then Some(level) else a.level, Some(ChildrenOf(a) + {child}), a.size);
    b.(size := Some(ProcessNsSize(b)))
  }

  /** The two generations of the graph builder: this package's and the older `logseq_graph` module. */
  datatype Version = Current | Legacy

  /** How a root or parent update sets the level and the size. */
  datatype NsRule =
    | IfAbsent   // the level only when absent, the size by `process_ns_size`
    | Overwrite  // the level always, the size as the number of children
    | AtLeast    // the larger of the level and the previous one (0 when absent), the size as the number of children

  /** The rule for the root's files, and the rule for the parent's files. */
  function RootRule(v: Version): NsRule
  {
    if v == Current then IfAbsent else Overwrite
  }

  function ParentRule(v: Version): NsRule
  {
    if v == Current then IfAbsent else AtLeast
  }

  /** One root or parent update under a rule: the child is always added to `ns_children`. */
  function ApplyRule(rule: NsRule, a: NsAttrs, child: string, level: int): NsAttrs
  {
    match rule
    case IfAbsent => AddChild(a, child, level)
    case Overwrite =>
      var c := ChildrenOf(a) + {child};
      NsAttrs(Some(level), Some(c), Some(|c|))
    case AtLeast =>
      var prev := if a.level.Some? then a.level.value else 0;
      var c := ChildrenOf(a) + {child};
      NsAttrs(Some(if level > prev then level else prev), Some(c), Some(|c|))
  }

  /**
   * The older rules keep `ns_size` equal to the number of children whatever
   * the file held before, and never lower a parent's level.
   */
  lemma LegacyRulesKeepSize(a: NsAttrs, child: string, level: int)
    ensures SizeOk(ApplyRule(Overwrite, a, child, level)) && SizeOk(ApplyRule(AtLeast, a, child, level))
    ensures ApplyRule(Overwrite, a, child, level).level == Some(level)
    ensures a.level.Some? ==> ApplyRule(AtLeast, a, child, level).level.value >= a.level.value
    ensures ApplyRule(AtLeast, a, child, level).level.value >= level
  {
  }

  /** A level, once set, is never overwritten; an absent one takes the given value. */
  lemma LevelSetOnce(a: NsAttrs, child: string, level: int)
    ensures AddChild(a, child, level).level == if a.level.Some? then a.level else Some(level)
    ensures AddChild(a, child, level).children == Some(ChildrenOf(a) + {child})
  {
  }

  /** The attributes a file's own name data gives it: its `ns_level` when namespaced. */
  function InitialNs(f: GFile): NsAttrs
  {
    NsAttrs(if f.isNamespace then Some(f.nsLevel) else None, None, None)
  }

  /** `ns_size` agrees with the number of children. */
  predicate SizeOk(a: NsAttrs)
  {
    if a.children.Some? then a.size == Some(|a.children.value|) else a.size.None?
  }

  /** Adding a new child keeps the size equal to the number of children. */
  lemma SizeCountsNewChildren(a: NsAttrs, child: string, level: int)
    requires SizeOk(a) && child !in ChildrenOf(a)
    ensures SizeOk(AddChild(a, child, level))
  {
    var r := AddChild(a, child, level);
    assert |ChildrenOf(a) + {child}| == |ChildrenOf(a)| + 1;
  }

  /** Adding a child the set already holds still bumps the size: it then exceeds the number of children. */
  lemma SizeDriftsOnRepeat(a: NsAttrs, child: string, level: int)
    requires SizeOk(a) && child in ChildrenOf(a)
    ensures AddChild(a, child, level).children == a.children
    ensures AddChild(a, child, level).size == Some(|ChildrenOf(a)| + 1)
  {
    assert ChildrenOf(a) + {child} == ChildrenOf(a);
  }

  /** `index.get(name)`: the positions of the files with that name, in index order. */
  function Positions(files: seq<GFile>, name: string): (r: seq<int>)
    ensures forall j :: j in r <==> 0 <= j < |files| && files[j].name == name
    ensures forall a :: 0 <= a < |r| ==> 0 <= r[a] < |files|
    ensures forall a, b :: 0 <= a < b < |r| ==> r[a] < r[b]
    decreases |files|
  {
    if files == [] then []
    else
      var init := files[..|files| - 1];
      var rest := Positions(init, name);
      assert forall j :: 0 <= j < |init| ==> init[j] == files[j];
      rest + (if files[|files| - 1].name == name then [|files| - 1] else [])
  }

  /** Every file named `target` gets the update; the others keep their attributes. */
  function UpdateNamed(files: seq<GFile>, ns: seq<NsAttrs>, target: string, child: string, level: int, rule: NsRule): (r: seq<NsAttrs>)
  {
    seq(|ns|, j requires 0 <= j < |ns| => if j < |files| && files[j].name == target then ApplyRule(rule, ns[j], child, level) else ns[j])
  }

  /** The `for ns_root_file in index.get(...)` loops, over the files of one name. */
  method UpdateFiles(files: seq<GFile>, ns: seq<NsAttrs>, target: string, child: string, level: int, rule: NsRule) returns (r: seq<NsAttrs>)
    requires |ns| == |files|
    ensures r == UpdateNamed(files, ns, target, child, level, rule)
  {
    var list := Positions(files, target);
    r := ns;
    var k := 0;
    while k < |list|
      invariant 0 <= k <= |list|
      invariant |r| == |ns|
      invariant forall j :: 0 <= j < |r| ==> r[j] == if j in list[..k] then ApplyRule(rule, ns[j], child, level) else ns[j]
    {
      var j := list[k];
      assert 0 <= j < |r|;
      assert list[..k + 1] == list[..k] + [j];
      assert j !in list[..k];
      r := r[j := ApplyRule(rule, r[j], child, level)];
      k := k + 1;
    }
    assert list[..k] == list;
  }

  /** The set accumulators of `post_processing_content`. */
  datatype ContentState = ContentState(unique: set<string>, uniqueNs: set<string>, aliases: set<string>)

  /** Each file's `UniqueRefs`, by position. */
  function UniqueRefsOf(files: seq<GFile>): (r: seq<seq<string>>)
    ensures |r| == |files|
  {
    seq(|files|, i requires 0 <= i < |files| => UniqueRefs(files[i]))
  }

  /** Each file's `LinkedReferences`, by position. */
  function LinkedOf(files: seq<GFile>): (r: seq<seq<string>>)
    ensures |r| == |files|
  {
    seq(|files|, i requires 0 <= i < |files| => LinkedReferences(files[i]))
  }

  /**
   * One iteration of the file loop of `post_processing_content`, on the sets;
   * `uniq` holds each file's references with the parent removed.
   */
  function ContentStep(files: seq<GFile>, uniq: seq<seq<string>>, s: ContentState, i: int): ContentState
    requires 0 <= i < |files| == |uniq|
  {
    var f := files[i];
    ContentState(
      s.unique + Elems(uniq[i]),
      if f.isNamespace then s.uniqueNs + {f.nsRoot, f.name} else s.uniqueNs,
      s.aliases + Elems(DataGet(f, "aliases")))
  }

  /** The file loop over the first `n` files, on the sets. */
  function ContentFold(files: seq<GFile>, uniq: seq<seq<string>>, s: ContentState, n: int): ContentState
    requires 0 <= n <= |files| == |uniq|
    decreases n
  {
    if n == 0 then s else ContentStep(files, uniq, ContentFold(files, uniq, s, n - 1), n - 1)
  }

  /**
   * `post_processing_content_namespaces` for the file at position `i`, on the
   * namespace attributes: the root's files gain the child at level 1, and so
   * do the parent's files, at one level up, when the level exceeds 2.
   */
  function NsPost(files: seq<GFile>, ns: seq<NsAttrs>, i: int, v: Version): seq<NsAttrs>
    requires 0 <= i < |files|
  {
    var f := files[i];
    var ns1 := UpdateNamed(files, ns, f.nsRoot, f.name, 1, RootRule(v));
    if f.nsLevel <= 2 then ns1 else UpdateNamed(files, ns1, f.nsParentFull, f.name, f.nsLevel - 1, ParentRule(v))
  }

  /** The namespace attributes after the first `n` files. */
  function NsFold(files: seq<GFile>, ns: seq<NsAttrs>, n: int, v: Version): seq<NsAttrs>
    requires 0 <= n <= |files|
    decreases n
  {
    if n == 0 then ns
    else if files[n - 1].isNamespace then NsPost(files, NsFold(files, ns, n - 1, v), n - 1, v)
    else NsFold(files, ns, n - 1, v)
  }

  /**
   * The tallies of the file loop over the first `n` files: each file's linked
   * references (`linked`, by position), found in its name.
   */
  function TallyFold(files: seq<GFile>, linked: seq<seq<string>>, all: TallyDict, n: int): TallyDict
    requires 0 <= n <= |files| == |linked|
    decreases n
  {
    if n == 0 then all else TallyAll(TallyFold(files, linked, all, n - 1), linked[n - 1], files[n - 1].name)
  }

  /** The accumulators of the file loop: the sets, the namespace attributes and the tallies. */
  datatype LoopAcc = LoopAcc(s: ContentState, ns: seq<NsAttrs>, all: TallyDict)

  /** The accumulators after the first `n` files. */
  function LoopFold(files: seq<GFile>, acc0: LoopAcc, n: int, v: Version): LoopAcc
    requires 0 <= n <= |files|
  {
    LoopAcc(ContentFold(files, UniqueRefsOf(files), acc0.s, n), NsFold(files, acc0.ns, n, v), TallyFold(files, LinkedOf(files), acc0.all, n))
  }

  /** One iteration of the file loop: namespace propagation, the tallies, and the sets. */
  method ContentIteration(files: seq<GFile>, i: int, acc: LoopAcc, ghost acc0: LoopAcc, v: Version) returns (acc': LoopAcc)
    requires 0 <= i < |files| && |acc0.ns| == |files| && acc == LoopFold(files, acc0, i, v)
    ensures acc' == LoopFold(files, acc0, i + 1, v)
  {
    var ns := NsIteration(files, i, acc.ns, acc0.ns, v);
    var all := TallyIteration(files, i, acc.all, acc0.all);
    var s := SetsIteration(files, i, acc.s, acc0.s);
    acc' := LoopAcc(s, ns, all);
  }

  /** The namespace propagation of one file. */
  method NsIteration(files: seq<GFile>, i: int, ns: seq<NsAttrs>, ghost ns0: seq<NsAttrs>, v: Version) returns (ns': seq<NsAttrs>)
    requires 0 <= i < |files| && |ns0| == |files| && ns == NsFold(files, ns0, i, v)
    ensures ns' == NsFold(files, ns0, i + 1, v)
  {
    NsFoldLength(files, ns0, i, v);
    var f := files[i];
    ns' := ns;
    if f.isNamespace {
      ns' := UpdateFiles(files, ns', f.nsRoot, f.name, 1, RootRule(v));
      if f.nsLevel > 2 {
        ns' := UpdateFiles(files, ns', f.nsParentFull, f.name, f.nsLevel - 1, ParentRule(v));
      }
    }
  }

  /** The tallies of one file's linked references. */
  method TallyIteration(files: seq<GFile>, i: int, all: TallyDict, ghost all0: TallyDict) returns (all': TallyDict)
    requires 0 <= i < |files| && all == TallyFold(files, LinkedOf(files), all0, i)
    ensures all' == TallyFold(files, LinkedOf(files), all0, i + 1)
  {
    var f := files[i];
    var refs := LinkedReferences(f);
    assert refs == LinkedOf(files)[i];
    all' := CountItems(all, refs, f.name);
  }

  /** The link sets gain one file's references, namespace names and aliases. */
  method SetsIteration(files: seq<GFile>, i: int, s: ContentState, ghost s0: ContentState) returns (s': ContentState)
    requires 0 <= i < |files| && s == ContentFold(files, UniqueRefsOf(files), s0, i)
    ensures s' == ContentFold(files, UniqueRefsOf(files), s0, i + 1)
  {
    var f := files[i];
    var uniqueNs := s.uniqueNs;
    if f.isNamespace {
      uniqueNs := uniqueNs + {f.nsRoot, f.name};
    }
    var aliases := DataGet(f, "aliases");
    var unique := UniqueRefs(f);
    assert unique == UniqueRefsOf(files)[i];
    s' := ContentState(s.unique + Elems(unique), uniqueNs, s.aliases + Elems(aliases));
  }

  /** The namespace updates keep one entry per file. */
  lemma {:induction false} NsFoldLength(files: seq<GFile>, ns: seq<NsAttrs>, n: int, v: Version)
    requires 0 <= n <= |files|
    ensures |NsFold(files, ns, n, v)| == |ns|
  {
    if n > 0 { NsFoldLength(files, ns, n - 1, v); }
  }

  /** The loop of `post_processing_content`. */
  method ContentLoop(files: seq<GFile>, acc0: LoopAcc, v: Version) returns (acc: LoopAcc)
    requires |acc0.ns| == |files|
    ensures acc == LoopFold(files, acc0, |files|, v)
  {
    acc := acc0;
    var i := 0;
    while i < |files|
      invariant 0 <= i <= |files|
      invariant acc == LoopFold(files, acc0, i, v)
    {
      acc := ContentIteration(files, i, acc, acc0, v);
      i := i + 1;
    }
  }

  /** The number of times `k` occurs among the linked references of the first `n` files. */
  function RefOccurrences(linked: seq<seq<string>>, n: int, k: string): nat
    requires 0 <= n <= |linked|
    decreases n
  {
    if n == 0 then 0 else RefOccurrences(linked, n - 1, k) + multiset(linked[n - 1])[k]
  }

  /**
   * Every linked item is tallied once per occurrence per file, namespace
   * parent included, and each tally's count is the length of its `found_in`.
   */
  lemma {:induction false} ContentTallies(files: seq<GFile>, linked: seq<seq<string>>, all: TallyDict, n: int, k: string)
    requires 0 <= n <= |files| == |linked|
    requires Balanced(all)
    ensures Find(TallyFold(files, linked, all, n), k).count == Find(all, k).count + RefOccurrences(linked, n, k)
    ensures Balanced(TallyFold(files, linked, all, n))
    decreases n
  {
    if n > 0 {
      ContentTallies(files, linked, all, n - 1, k);
      var prev := TallyFold(files, linked, all, n - 1);
      TallyAllFind(prev, linked[n - 1], files[n - 1].name, k);
      TallyAllBalanced(prev, linked[n - 1], files[n - 1].name);
    }
  }

  /**
   * `unique_linked_references` gains exactly each file's references with one
   * occurrence of its namespace parent removed; `unique_linked_references_ns`
   * gains exactly the roots and names of namespaced files; the aliases are
   * every file's aliases.
   */
  lemma {:induction false} ContentSets(files: seq<GFile>, uniq: seq<seq<string>>, s: ContentState, n: int, x: string)
    requires 0 <= n <= |files| == |uniq|
    ensures x in ContentFold(files, uniq, s, n).unique <==> x in s.unique || exists i :: 0 <= i < n && x in uniq[i]
    ensures x in ContentFold(files, uniq, s, n).uniqueNs <==>
              x in s.uniqueNs || exists i :: 0 <= i < n && files[i].isNamespace && (x == files[i].nsRoot || x == files[i].name)
    ensures x in ContentFold(files, uniq, s, n).aliases <==> x in s.aliases || exists i :: 0 <= i < n && x in DataGet(files[i], "aliases")
    decreases n
  {
    if n > 0 {
      ContentSets(files, uniq, s, n - 1, x);
    }
  }

  /** The dangling links: linked names that are neither an indexed file's name nor an alias. */
  function DanglingLinks(s: ContentState, names: set<string>): (d: set<string>)
    ensures forall x :: x in d <==> (x in s.unique || x in s.uniqueNs) && x !in names && x !in s.aliases
  {
    (s.unique + s.uniqueNs) - names - s.aliases
  }

  /** A dangling link is linked by some file, names no file and is no file's alias. */
  lemma DanglingIsLinkedUnnamed(files: seq<GFile>, s: ContentState, x: string)
    requires s.unique == {} && s.uniqueNs == {} && s.aliases == {}
    ensures x in DanglingLinks(ContentFold(files, UniqueRefsOf(files), s, |files|), NamesOf(files)) <==>
              (exists i :: 0 <= i < |files| && (x in UniqueRefsOf(files)[i] || (files[i].isNamespace && (x == files[i].nsRoot || x == files[i].name))))
              && (forall i :: 0 <= i < |files| ==> files[i].name != x && x !in DataGet(files[i], "aliases"))
  {
    DanglingFromSets(files, UniqueRefsOf(files), s, x);
  }

  lemma DanglingFromSets(files: seq<GFile>, uniq: seq<seq<string>>, s: ContentState, x: string)
    requires |uniq| == |files|
    requires s.unique == {} && s.uniqueNs == {} && s.aliases == {}
    ensures x in DanglingLinks(ContentFold(files, uniq, s, |files|), NamesOf(files)) <==>
              (exists i :: 0 <= i < |files| && (x in uniq[i] || (files[i].isNamespace && (x == files[i].nsRoot || x == files[i].name))))
              && (forall i :: 0 <= i < |files| ==> files[i].name != x && x !in DataGet(files[i], "aliases"))
  {
    ContentSets(files, uniq, s, |files|, x);
    if forall i :: 0 <= i < |files| ==> files[i].name != x {
      assert x !in NamesOf(files);
    }
  }

  /**
   * The namespace step with a level of at most 2 touches only the root's
   * files; deeper namespaces also give the parent's files the child.
   */
  lemma NsPostTargets(files: seq<GFile>, ns: seq<NsAttrs>, i: int, j: int, v: Version)
    requires 0 <= i < |files| && |ns| == |files| && 0 <= j < |files|
    ensures |NsPost(files, ns, i, v)| == |files|
    ensures var f := files[i];
            files[j].name != f.nsRoot && (f.nsLevel <= 2 || files[j].name != f.nsParentFull) ==> NsPost(files, ns, i, v)[j] == ns[j]
    ensures var f := files[i];
            files[j].name == f.nsRoot ==> f.name in ChildrenOf(NsPost(files, ns, i, v)[j])
    ensures var f := files[i];
            f.nsLevel > 2 && files[j].name == f.nsParentFull ==> f.name in ChildrenOf(NsPost(files, ns, i, v)[j])
  {
  }

  /** The per-file results of `process_summary_data`, and the sets it consumes names from. */
  datatype SummaryState = SummaryState(
    unique: set<string>,
    uniqueNs: set<string>,
    backlinked: seq<bool>,
    nsOnly: seq<bool>,
    nodeType: seq<Tag>)

  predicate SummaryShape(s: SummaryState, n: int)
  {
    |s.backlinked| == n && |s.nsOnly| == n && |s.nodeType| == n
  }

  /** The journal and page types, the only files whose node type is recomputed. */
  predicate IsJournalOrPage(f: GFile)
  {
    f.fileType == "journal" || f.fileType == "page"
  }

  /**
   * One iteration of `process_summary_data`: a flag is decided by consuming
   * the name from its set (in this package only while the flag is still
   * false), a file found both ways loses the explicit flag, and journals and
   * pages get the table lookup for their node type; the older module resets
   * every other node type to "other".
   */
  function SummaryStep(files: seq<GFile>, s: SummaryState, i: int, v: Version): (r: SummaryState)
    requires 0 <= i < |files| && SummaryShape(s, |files|)
    ensures SummaryShape(r, |files|)
  {
    var f := files[i];
    var c1 := if v == Legacy || !s.backlinked[i] then Consume(s.unique, f.name) else (true, s.unique);
    var c2 := if v == Legacy || !s.nsOnly[i] then Consume(s.uniqueNs, f.name) else (true, s.uniqueNs);
    var bl := if c1.0 && c2.0 then false else c1.0;
    var nt := if IsJournalOrPage(f) then TableLookup(f.hasContent, bl, c2.0, f.hasBacklinks)
              else if v == Legacy then Other else s.nodeType[i];
    SummaryState(c1.1, c2.1, s.backlinked[i := bl], s.nsOnly[i := c2.0], s.nodeType[i := nt])
  }

  function SummaryFold(files: seq<GFile>, s: SummaryState, n: int, v: Version): (r: SummaryState)
    requires 0 <= n <= |files| && SummaryShape(s, |files|)
    ensures SummaryShape(r, |files|)
    decreases n
  {
    if n == 0 then s else SummaryStep(files, SummaryFold(files, s, n - 1, v), n - 1, v)
  }

  /** The loop of `process_summary_data`. */
  method SummaryLoop(files: seq<GFile>, s0: SummaryState, v: Version) returns (s: SummaryState)
    requires SummaryShape(s0, |files|)
    ensures s == SummaryFold(files, s0, |files|, v)
  {
    s := s0;
    var i := 0;
    while i < |files|
      invariant 0 <= i <= |files|
      invariant s == SummaryFold(files, s0, i, v)
    {
      var f := files[i];
      var unique, uniqueNs := s.unique, s.uniqueNs;
      var bl, nsOnly := s.backlinked[i], s.nsOnly[i];
      if v == Legacy || !bl {
        var c := Consume(unique, f.name);
        bl, unique := c.0, c.1;
      }
      if v == Legacy || !nsOnly {
        var c := Consume(uniqueNs, f.name);
        nsOnly, uniqueNs := c.0, c.1;
      }
      if bl && nsOnly {
        bl := false;
      }
      var nt := s.nodeType[i];
      if v == Legacy {
        nt := Other;
      }
      if IsJournalOrPage(f) {
        nt := TableLookup(f.hasContent, bl, nsOnly, f.hasBacklinks);
      }
      s := SummaryState(unique, uniqueNs, s.backlinked[i := bl], s.nsOnly[i := nsOnly], s.nodeType[i := nt]);
      i := i + 1;
    }
  }

  /**
   * After the loop no processed file is both explicitly and namespace
   * back-linked; a file that is not a journal or a page keeps its node type,
   * and a journal or page gets the table lookup of its final flags; the
   * files not yet processed are untouched; the sets only lose names.
   */
  lemma {:induction false} SummaryFlags(files: seq<GFile>, s: SummaryState, n: int, v: Version)
    requires 0 <= n <= |files| && SummaryShape(s, |files|)
    ensures var r := SummaryFold(files, s, n, v);
            forall i :: 0 <= i < n ==> !(r.backlinked[i] && r.nsOnly[i])
    ensures var r := SummaryFold(files, s, n, v);
            forall i :: 0 <= i < n ==>
              r.nodeType[i] == if IsJournalOrPage(files[i])
                               then TableLookup(files[i].hasContent, r.backlinked[i], r.nsOnly[i], files[i].hasBacklinks)
                               else if v == Legacy then Other else s.nodeType[i]
    ensures var r := SummaryFold(files, s, n, v);
            forall i :: n <= i < |files| ==> r.backlinked[i] == s.backlinked[i] && r.nsOnly[i] == s.nsOnly[i] && r.nodeType[i] == s.nodeType[i]
    ensures SummaryFold(files, s, n, v).unique <= s.unique && SummaryFold(files, s, n, v).uniqueNs <= s.uniqueNs
    decreases n
  {
    if n > 0 {
      SummaryFlags(files, s, n - 1, v);
    }
  }

  /**
   * A file whose name is consumed when it is reached is back-linked iff its
   * name is still in the set, and the name leaves both sets.
   */
  lemma SummaryConsumes(files: seq<GFile>, s: SummaryState, i: int, v: Version)
    requires 0 <= i < |files| && SummaryShape(s, |files|)
    requires v == Legacy || (!s.backlinked[i] && !s.nsOnly[i])
    ensures var r := SummaryStep(files, s, i, v);
            files[i].name !in r.unique && files[i].name !in r.uniqueNs
            && r.nsOnly[i] == (files[i].name in s.uniqueNs)
            && r.backlinked[i] == (files[i].name in s.unique && files[i].name !in s.uniqueNs)
  {
  }

  /** What `post_processing_content` writes: the tallies, the dangling links, the two sets and the namespace attributes. */
  datatype GraphLinks = GraphLinks(all: TallyDict, dangling: set<string>, unique: set<string>, uniqueNs: set<string>, ns: seq<NsAttrs>)

  /**
   * `post_processing_content` on values: the file loop from the current sets
   * (aliases from empty), then the tallies sorted by count and the dangling links.
   */
  function PostContent(files: seq<GFile>, g: GraphLinks, v: Version): GraphLinks
    requires |g.ns| == |files|
  {
    var acc := LoopFold(files, LoopAcc(ContentState(g.unique, g.uniqueNs, {}), g.ns, g.all), |files|, v);
    GraphLinks(SortByCount(acc.all), DanglingLinks(acc.s, NamesOf(files)), acc.s.unique, acc.s.uniqueNs, acc.ns)
  }

  /** The file loop of `post_processing_content` and the results drawn from it. */
  method CurrentContent(files: seq<GFile>, g: GraphLinks) returns (r: GraphLinks)
    requires |g.ns| == |files|
    ensures r == PostContent(files, g, Current)
  {
    var acc := ContentLoop(files, LoopAcc(ContentState(g.unique, g.uniqueNs, {}), g.ns, g.all), Current);
    r := GraphLinks(SortByCount(acc.all), DanglingLinks(acc.s, NamesOf(files)), acc.s.unique, acc.s.uniqueNs, acc.ns);
  }

  /** The graph singleton: its link tallies and sets, and the per-file attributes it writes. */
  class LogseqGraph {
    var allLinkedReferences: TallyDict
    var danglingLinks: set<string>
    var uniqueLinkedReferences: set<string>
    var uniqueLinkedReferencesNs: set<string>
    var ns: seq<NsAttrs>
    var isBacklinked: seq<bool>
    var isBacklinkedByNsOnly: seq<bool>
    var nodeType: seq<Tag>

    /**
     * Empty tallies and sets; each file starts with the attributes its own
     * processing gave it: its own `ns_level` when namespaced, no flags, "other".
     */
    constructor(files: seq<GFile>)
      ensures allLinkedReferences == [] && danglingLinks == {}
      ensures uniqueLinkedReferences == {} && uniqueLinkedReferencesNs == {}
      ensures |ns| == |files| && |isBacklinked| == |files| && |isBacklinkedByNsOnly| == |files| && |nodeType| == |files|
      ensures forall i :: 0 <= i < |files| ==>
                ns[i] == InitialNs(files[i]) && !isBacklinked[i] && !isBacklinkedByNsOnly[i] && nodeType[i] == Other
    {
      allLinkedReferences := [];
      danglingLinks := {};
      uniqueLinkedReferences := {};
      uniqueLinkedReferencesNs := {};
      ns := seq(|files|, i requires 0 <= i < |files| => InitialNs(files[i]));
      isBacklinked := seq(|files|, i => false);
      isBacklinkedByNsOnly := seq(|files|, i => false);
      nodeType := seq(|files|, i => Other);
    }

    /** The fields `post_processing_content` writes. */
    function Links(): GraphLinks
      reads this
    {
      GraphLinks(allLinkedReferences, danglingLinks, uniqueLinkedReferences, uniqueLinkedReferencesNs, ns)
    }

    /**
     * `post_processing_content`: the tallies sorted by count, largest first,
     * the linked-name sets, the namespace attributes, and the dangling links.
     */
    method PostProcessingContent(files: seq<GFile>)
      modifies this`allLinkedReferences, this`danglingLinks, this`uniqueLinkedReferences, this`uniqueLinkedReferencesNs, this`ns
      requires |ns| == |files|
      ensures Links() == PostContent(files, old(Links()), Current)
    {
      var g := CurrentContent(files, Links());
      SetLinks(g);
    }

    method SetLinks(g: GraphLinks)
      modifies this`allLinkedReferences, this`danglingLinks, this`uniqueLinkedReferences, this`uniqueLinkedReferencesNs, this`ns
      ensures Links() == g
    {
      allLinkedReferences := g.all;
      danglingLinks := g.dangling;
      uniqueLinkedReferences := g.unique;
      uniqueLinkedReferencesNs := g.uniqueNs;
      ns := g.ns;
    }

    /** The fields `process_summary_data` reads and writes. */
    function Summary(): SummaryState
      reads this
    {
      SummaryState(uniqueLinkedReferences, uniqueLinkedReferencesNs, isBacklinked, isBacklinkedByNsOnly, nodeType)
    }

    /** `process_summary_data`: the back-link flags and node types, consuming names from the sets. */
    method ProcessSummaryData(files: seq<GFile>)
      modifies this`uniqueLinkedReferences, this`uniqueLinkedReferencesNs, this`isBacklinked, this`isBacklinkedByNsOnly, this`nodeType
      requires SummaryShape(Summary(), |files|)
      ensures Summary() == SummaryFold(files, old(Summary()), |files|, Current)
      ensures forall i :: 0 <= i < |files| ==> !(isBacklinked[i] && isBacklinkedByNsOnly[i])
    {
      var s0 := Summary();
      var r := SummaryLoop(files, s0, Current);
      SummaryFlags(files, s0, |files|, Current);
      uniqueLinkedReferences := r.unique;
      uniqueLinkedReferencesNs := r.uniqueNs;
      isBacklinked := r.backlinked;
      isBacklinkedByNsOnly := r.nsOnly;
      nodeType := r.nodeType;
    }
  }
}

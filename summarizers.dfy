/**
 * The two summarisers of `analysis/summarizers.py`.  `LogseqFileSummarizer`
 * files every name of the index into `defaultdict(list)` buckets by file
 * type, node type and extension, and into five flag buckets that it sorts at
 * the end; `LogseqContentSummarizer` keeps, per file name, the size,
 * timestamp, namespace and bullet records of the last file so named, and a
 * per-criterion report built by a counting helper.  Dicts are maps: the
 * order of their keys is not modelled.
 */
module Summarizers {
  import opened Order

  // ---------------------------------------------------------------------
  // LogseqFileSummarizer
  // ---------------------------------------------------------------------

  /** What the file summariser reads of one file of the index. */
  datatype SFile = SFile(name: string, fileType: string, nodeType: string, suffix: string,
                         backlinked: bool, backlinkedNsOnly: bool, isHls: bool,
                         hasContent: bool, hasBacklinks: bool)

  /** A `defaultdict(list)` of names. */
  type Buckets = map<string, seq<string>>

  /** `d[k]` on a `defaultdict(list)`, without creating the key. */
  function Get(m: Buckets, k: string): seq<string>
  {
    if k in m then m[k] else []
  }

  /** `d[k].append(v)`: the key is created when missing, and `v` goes at the end of its list. */
  function Append(m: Buckets, k: string, v: string): Buckets
  {
    m[k := Get(m, k) + [v]]
  }

  /** The three per-file attributes a name is bucketed by. */
  datatype Field = FileType | NodeType | Extension

  function Sel(f: SFile, field: Field): string
  {
    match field
    case FileType => f.fileType
    case NodeType => f.nodeType
    case Extension => f.suffix
  }

  /** The names of the files whose `field` is `k`, in index order. */
  function NamesWith(files: seq<SFile>, field: Field, k: string): seq<string>
    decreases |files|
  {
    if files == [] then []
    else
      var f := files[|files| - 1];
      NamesWith(files[..|files| - 1], field, k) + (if Sel(f, field) == k then [f.name] else [])
  }

  /** The buckets of `field` after the files are appended, in order, to `m`. */
  function Group(m: Buckets, files: seq<SFile>, field: Field): Buckets
    decreases |files|
  {
    if files == [] then m
    else
      var f := files[|files| - 1];
      Append(Group(m, files[..|files| - 1], field), Sel(f, field), f.name)
  }

  /**
   * Grouping creates a key for each value of the field met, and a bucket's
   * new entries are the names of the files with that value, in order.
   */
  lemma GroupSpec(m: Buckets, files: seq<SFile>, field: Field)
    ensures forall k :: k in Group(m, files, field) <==> k in m || exists i :: 0 <= i < |files| && Sel(files[i], field) == k
    ensures forall k :: k in Group(m, files, field) ==> Group(m, files, field)[k] == Get(m, k) + NamesWith(files, field, k)
  {
    GroupKeys(m, files, field);
    GroupValues(m, files, field);
  }

  /** The keys after grouping: those of `m` and the values of the field met. */
  lemma {:induction false} GroupKeys(m: Buckets, files: seq<SFile>, field: Field)
    ensures forall k :: k in Group(m, files, field) <==> k in m || exists i :: 0 <= i < |files| && Sel(files[i], field) == k
    decreases |files|
  {
    if files != [] {
      var n := |files| - 1;
      var init := files[..n];
      GroupKeys(m, init, field);
      forall k
        ensures k in Group(m, files, field) <==> k in m || exists i :: 0 <= i < |files| && Sel(files[i], field) == k
      {
        SelExistsSnoc(files, init, field, k);
      }
    }
  }

  /** Some file of a list has value `k` when some earlier file or the last one has it. */
  lemma SelExistsSnoc(files: seq<SFile>, init: seq<SFile>, field: Field, k: string)
    requires files != [] && init == files[..|files| - 1]
    ensures (exists i :: 0 <= i < |files| && Sel(files[i], field) == k) <==>
      (exists i :: 0 <= i < |init| && Sel(init[i], field) == k) || Sel(files[|files| - 1], field) == k
  {
    var n := |files| - 1;
    if exists i :: 0 <= i < |files| && Sel(files[i], field) == k {
      var i :| 0 <= i < |files| && Sel(files[i], field) == k;
      if i < n {
        assert init[i] == files[i];
      }
    }
    if exists i :: 0 <= i < |init| && Sel(init[i], field) == k {
      var i :| 0 <= i < |init| && Sel(init[i], field) == k;
      assert files[i] == init[i];
    }
  }

  /** Each bucket after grouping: its old entries, then the names of the files with that value. */
  lemma GroupValues(m: Buckets, files: seq<SFile>, field: Field)
    ensures forall k :: k in Group(m, files, field) ==> Group(m, files, field)[k] == Get(m, k) + NamesWith(files, field, k)
  {
    forall k | k in Group(m, files, field)
      ensures Group(m, files, field)[k] == Get(m, k) + NamesWith(files, field, k)
    {
      GroupGet(m, files, field, k);
    }
  }

  /** The same, read with `Get`, for every key. */
  lemma {:induction false} GroupGet(m: Buckets, files: seq<SFile>, field: Field, k: string)
    ensures Get(Group(m, files, field), k) == Get(m, k) + NamesWith(files, field, k)
    decreases |files|
  {
    if files == [] {
      assert Get(m, k) + [] == Get(m, k);
    } else {
      var n := |files| - 1;
      var f := files[n];
      var tail := if Sel(f, field) == k then [f.name] else [];
      GroupGet(m, files[..n], field, k);
      assert Get(Group(m, files, field), k) == Get(Group(m, files[..n], field), k) + tail;
      assert NamesWith(files, field, k) == NamesWith(files[..n], field, k) + tail;
      assert Get(m, k) + NamesWith(files[..n], field, k) + tail == Get(m, k) + (NamesWith(files[..n], field, k) + tail);
    }
  }

  /** A value no file has selects no name. */
  lemma {:induction false} NamesWithNone(files: seq<SFile>, field: Field, k: string)
    requires forall i :: 0 <= i < |files| ==> Sel(files[i], field) != k
    ensures NamesWith(files, field, k) == []
    decreases |files|
  {
    if files != [] {
      var init := files[..|files| - 1];
      forall i | 0 <= i < |init|
        ensures Sel(init[i], field) != k
      {
        assert init[i] == files[i];
      }
      NamesWithNone(init, field, k);
    }
  }

  /** Grouping one more file of a list appends it to the buckets of the files before it. */
  lemma GroupSnoc(m: Buckets, files: seq<SFile>, i: int, field: Field)
    requires 0 <= i < |files|
    ensures Group(m, files[..i + 1], field) == Append(Group(m, files[..i], field), Sel(files[i], field), files[i].name)
  {
    assert files[..i + 1][..i] == files[..i];
  }

  /** The total length of the buckets of `files` named by `ks`. */
  function SumLen(files: seq<SFile>, field: Field, ks: seq<string>): nat
    decreases |ks|
  {
    if ks == [] then 0 else SumLen(files, field, ks[..|ks| - 1]) + |NamesWith(files, field, ks[|ks| - 1])|
  }

  /** The number of times `x` occurs in `ks`. */
  function Occ(ks: seq<string>, x: string): nat
    decreases |ks|
  {
    if ks == [] then 0 else Occ(ks[..|ks| - 1], x) + (if ks[|ks| - 1] == x then 1 else 0)
  }

  predicate Distinct(ks: seq<string>)
  {
    forall i, j :: 0 <= i < j < |ks| ==> ks[i] != ks[j]
  }

  /** A key listed once occurs once. */
  lemma {:induction false} OccDistinct(ks: seq<string>, x: string)
    requires Distinct(ks)
    ensures Occ(ks, x) == (if x in ks then 1 else 0)
    decreases |ks|
  {
    if ks != [] {
      var init := ks[..|ks| - 1];
      OccDistinct(init, x);
      if ks[|ks| - 1] == x {
        forall j | 0 <= j < |init|
          ensures init[j] != x
        {
          assert ks[j] != ks[|ks| - 1];
        }
      } else {
        assert x in ks <==> x in init by {
          if x in ks {
            var j :| 0 <= j < |ks| && ks[j] == x;
            assert j < |ks| - 1;
            assert init[j] == x;
          }
        }
      }
    }
  }

  /** One more file lengthens the listed buckets once for each time its value is listed. */
  lemma {:induction false} SumLenSnoc(files: seq<SFile>, f: SFile, field: Field, ks: seq<string>)
    ensures SumLen(files + [f], field, ks) == SumLen(files, field, ks) + Occ(ks, Sel(f, field))
    decreases |ks|
  {
    if ks != [] {
      SumLenSnoc(files, f, field, ks[..|ks| - 1]);
      assert (files + [f])[..|files|] == files;
    }
  }

  /**
   * Each file lands in exactly one bucket: over any list of distinct keys
   * that takes in every value met, the buckets' lengths add up to the
   * number of files.
   */
  lemma {:induction false} BucketsTotal(files: seq<SFile>, field: Field, ks: seq<string>)
    requires Distinct(ks)
    requires forall i :: 0 <= i < |files| ==> Sel(files[i], field) in ks
    ensures SumLen(files, field, ks) == |files|
    decreases |files|
  {
    if files == [] {
      SumLenEmpty(field, ks);
    } else {
      var n := |files| - 1;
      assert files == files[..n] + [files[n]];
      BucketsTotal(files[..n], field, ks);
      SumLenSnoc(files[..n], files[n], field, ks);
      OccDistinct(ks, Sel(files[n], field));
    }
  }

  lemma {:induction false} SumLenEmpty(field: Field, ks: seq<string>)
    ensures SumLen([], field, ks) == 0
    decreases |ks|
  {
    if ks != [] {
      SumLenEmpty(field, ks[..|ks| - 1]);
    }
  }

  /** The `SummaryFile` members naming the general buckets, in the order the flags are checked. */
  datatype SummaryFile = Backlinked | BacklinkedNsOnly | IsHls | HasContent | HasBacklinks

  /** The general buckets. */
  type GeneralBuckets = map<SummaryFile, seq<string>>

  function GetG(m: GeneralBuckets, k: SummaryFile): seq<string>
  {
    if k in m then m[k] else []
  }

  /** The flag a general bucket is named after. */
  function Flag(f: SFile, k: SummaryFile): bool
  {
    match k
    case Backlinked => f.backlinked
    case BacklinkedNsOnly => f.backlinkedNsOnly
    case IsHls => f.isHls
    case HasContent => f.hasContent
    case HasBacklinks => f.hasBacklinks
  }

  /** The names of the files with flag `k`, in index order. */
  function FlagNames(files: seq<SFile>, k: SummaryFile): seq<string>
    decreases |files|
  {
    if files == [] then []
    else
      var f := files[|files| - 1];
      FlagNames(files[..|files| - 1], k) + (if Flag(f, k) then [f.name] else [])
  }

  /** `if flag: general[k].append(v)`. */
  function AppendIf(m: GeneralBuckets, c: bool, k: SummaryFile, v: string): GeneralBuckets
  {
    if c then m[k := GetG(m, k) + [v]] else m
  }

  /** The five flag tests for one file. */
  function GeneralStep(m: GeneralBuckets, f: SFile): GeneralBuckets
  {
    var m1 := AppendIf(m, f.backlinked, Backlinked, f.name);
    var m2 := AppendIf(m1, f.backlinkedNsOnly, BacklinkedNsOnly, f.name);
    var m3 := AppendIf(m2, f.isHls, IsHls, f.name);
    var m4 := AppendIf(m3, f.hasContent, HasContent, f.name);
    AppendIf(m4, f.hasBacklinks, HasBacklinks, f.name)
  }

  /** The general buckets after each file is checked, in order, into `m`. */
  function General(m: GeneralBuckets, files: seq<SFile>): GeneralBuckets
    decreases |files|
  {
    if files == [] then m else GeneralStep(General(m, files[..|files| - 1]), files[|files| - 1])
  }

  /** Testing one more file of a list tests it into the buckets of the files before it. */
  lemma GeneralSnoc(m: GeneralBuckets, files: seq<SFile>, i: int)
    requires 0 <= i < |files|
    ensures General(m, files[..i + 1]) == GeneralStep(General(m, files[..i]), files[i])
  {
    assert files[..i + 1][..i] == files[..i];
  }

  /** One file's tests append its name to exactly the buckets of the flags it has. */
  lemma GeneralStepSpec(m: GeneralBuckets, f: SFile)
    ensures forall k :: k in GeneralStep(m, f) <==> k in m || Flag(f, k)
    ensures forall k :: k in GeneralStep(m, f) ==> GeneralStep(m, f)[k] == GetG(m, k) + (if Flag(f, k) then [f.name] else [])
  {
    forall k
      ensures k in GeneralStep(m, f) <==> k in m || Flag(f, k)
      ensures k in GeneralStep(m, f) ==> GeneralStep(m, f)[k] == GetG(m, k) + (if Flag(f, k) then [f.name] else [])
    {
      var m1 := AppendIf(m, f.backlinked, Backlinked, f.name);
      var m2 := AppendIf(m1, f.backlinkedNsOnly, BacklinkedNsOnly, f.name);
      var m3 := AppendIf(m2, f.isHls, IsHls, f.name);
      var m4 := AppendIf(m3, f.hasContent, HasContent, f.name);
      AppendIfSpec(m, f.backlinked, Backlinked, f.name, k);
      AppendIfSpec(m1, f.backlinkedNsOnly, BacklinkedNsOnly, f.name, k);
      AppendIfSpec(m2, f.isHls, IsHls, f.name, k);
      AppendIfSpec(m3, f.hasContent, HasContent, f.name, k);
      AppendIfSpec(m4, f.hasBacklinks, HasBacklinks, f.name, k);
    }
  }

  /** A conditional append touches only bucket `k`, and only when `c` holds. */
  lemma AppendIfSpec(m: GeneralBuckets, c: bool, k: SummaryFile, v: string, j: SummaryFile)
    ensures j in AppendIf(m, c, k, v) <==> j in m || (c && j == k)
    ensures GetG(AppendIf(m, c, k, v), j) == if c && j == k then GetG(m, j) + [v] else GetG(m, j)
  {
  }

  /**
   * A general bucket is created only for a flag some file has, and its new
   * entries are the names of the files with that flag, in order.
   */
  lemma {:induction false} GeneralSpec(m: GeneralBuckets, files: seq<SFile>)
    ensures forall k :: k in General(m, files) <==> k in m || exists i :: 0 <= i < |files| && Flag(files[i], k)
    ensures forall k :: k in General(m, files) ==> General(m, files)[k] == GetG(m, k) + FlagNames(files, k)
    decreases |files|
  {
    if files != [] {
      var n := |files| - 1;
      var init := files[..n];
      GeneralSpec(m, init);
      var g := General(m, init);
      GeneralStepSpec(g, files[n]);
      forall k
        ensures k in General(m, files) <==> k in m || exists i :: 0 <= i < |files| && Flag(files[i], k)
      {
        FlagExistsSnoc(files, init, k);
      }
      forall k | k in General(m, files)
        ensures General(m, files)[k] == GetG(m, k) + FlagNames(files, k)
      {
        assert GetG(g, k) == GetG(m, k) + FlagNames(init, k) by {
          if k !in g {
            FlagNamesNone(init, k);
          }
        }
      }
    }
  }

  /** Some file has the flag iff one before the last does or the last one does. */
  lemma FlagExistsSnoc(files: seq<SFile>, init: seq<SFile>, k: SummaryFile)
    requires files != [] && init == files[..|files| - 1]
    ensures (exists i :: 0 <= i < |files| && Flag(files[i], k)) <==>
      (exists i :: 0 <= i < |init| && Flag(init[i], k)) || Flag(files[|files| - 1], k)
  {
    var n := |files| - 1;
    if exists i :: 0 <= i < |files| && Flag(files[i], k) {
      var i :| 0 <= i < |files| && Flag(files[i], k);
      if i < n {
        assert init[i] == files[i];
      }
    }
    if exists i :: 0 <= i < |init| && Flag(init[i], k) {
      var i :| 0 <= i < |init| && Flag(init[i], k);
      assert files[i] == init[i];
    }
  }

  /** A flag no file has selects no name. */
  lemma {:induction false} FlagNamesNone(files: seq<SFile>, k: SummaryFile)
    requires forall i :: 0 <= i < |files| ==> !Flag(files[i], k)
    ensures FlagNames(files, k) == []
    decreases |files|
  {
    if files != [] {
      var init := files[..|files| - 1];
      forall i | 0 <= i < |init|
        ensures !Flag(init[i], k)
      {
        assert init[i] == files[i];
      }
      FlagNamesNone(init, k);
    }
  }

  /** The names `FlagNames` selects are exactly those of the files with the flag. */
  lemma {:induction false} FlagNamesMembers(files: seq<SFile>, k: SummaryFile, x: string)
    ensures x in FlagNames(files, k) <==> exists i :: 0 <= i < |files| && files[i].name == x && Flag(files[i], k)
    decreases |files|
  {
    if files != [] {
      var n := |files| - 1;
      var init := files[..n];
      FlagNamesMembers(init, k, x);
      if exists i :: 0 <= i < |files| && files[i].name == x && Flag(files[i], k) {
        var i :| 0 <= i < |files| && files[i].name == x && Flag(files[i], k);
        if i < n {
          assert init[i] == files[i];
        }
      }
      if exists i :: 0 <= i < |init| && init[i].name == x && Flag(init[i], k) {
        var i :| 0 <= i < |init| && init[i].name == x && Flag(init[i], k);
        assert files[i] == init[i];
      }
    }
  }

  /** `general[k] = sorted(v)` for every key: each list ascending and a permutation of what it held. */
  function SortValues(m: GeneralBuckets): (r: GeneralBuckets)
    ensures r.Keys == m.Keys
    ensures forall k :: k in r ==> Sorted(r[k]) && multiset(r[k]) == multiset(m[k])
  {
    map k | k in m :: Sort(m[k])
  }

  /** The sorting loop over the keys of the general buckets. */
  method SortBuckets(m: GeneralBuckets) returns (r: GeneralBuckets)
    ensures r == SortValues(m)
  {
    r := m;
    var todo := m.Keys;
    while todo != {}
      invariant todo <= m.Keys && r.Keys == m.Keys
      invariant forall k :: k in r ==> r[k] == (if k in todo then m[k] else Sort(m[k]))
      decreases |todo|
    {
      var k :| k in todo;
      r := r[k := Sort(r[k])];
      todo := todo - {k};
    }
  }

  /**
   * From empty buckets, after sorting: a general bucket for flag `k` lists
   * a name iff some file of that name has the flag, and it exists iff some
   * file has the flag.
   */
  lemma GeneralContains(files: seq<SFile>, k: SummaryFile, x: string)
    ensures var g := SortValues(General(map[], files));
      (k in g <==> exists i :: 0 <= i < |files| && Flag(files[i], k)) &&
      (k in g ==> (x in g[k] <==> exists i :: 0 <= i < |files| && files[i].name == x && Flag(files[i], k)))
  {
    GeneralSpec(map[], files);
    FlagNamesMembers(files, k, x);
    var g0 := General(map[], files);
    if k in g0 {
      var g := SortValues(g0);
      assert x in g[k] <==> x in multiset(g[k]);
      assert x in g0[k] <==> x in multiset(g0[k]);
    }
  }

  /** The five `if flag: general[k].append(name)` tests of one file. */
  method TestFlags(gen0: GeneralBuckets, f: SFile) returns (gen: GeneralBuckets)
    ensures gen == GeneralStep(gen0, f)
  {
    gen := gen0;
    if f.backlinked {
      gen := gen[Backlinked := GetG(gen, Backlinked) + [f.name]];
    }
    if f.backlinkedNsOnly {
      gen := gen[BacklinkedNsOnly := GetG(gen, BacklinkedNsOnly) + [f.name]];
    }
    if f.isHls {
      gen := gen[IsHls := GetG(gen, IsHls) + [f.name]];
    }
    if f.hasContent {
      gen := gen[HasContent := GetG(gen, HasContent) + [f.name]];
    }
    if f.hasBacklinks {
      gen := gen[HasBacklinks := GetG(gen, HasBacklinks) + [f.name]];
    }
  }

  /** The loop of the file summariser, on values: the three grouped dicts and the general buckets, before sorting. */
  method SummariseFiles(index: seq<SFile>, ft0: Buckets, nt0: Buckets, ex0: Buckets, gen0: GeneralBuckets)
    returns (ft: Buckets, nt: Buckets, ex: Buckets, gen: GeneralBuckets)
    ensures ft == Group(ft0, index, FileType)
    ensures nt == Group(nt0, index, NodeType)
    ensures ex == Group(ex0, index, Extension)
    ensures gen == General(gen0, index)
  {
    ft, nt, ex, gen := ft0, nt0, ex0, gen0;
    var i := 0;
    while i < |index|
      invariant 0 <= i <= |index|
      invariant ft == Group(ft0, index[..i], FileType)
      invariant nt == Group(nt0, index[..i], NodeType)
      invariant ex == Group(ex0, index[..i], Extension)
      invariant gen == General(gen0, index[..i])
    {
      var f := index[i];
      GroupSnoc(ft0, index, i, FileType);
      GroupSnoc(nt0, index, i, NodeType);
      GroupSnoc(ex0, index, i, Extension);
      GeneralSnoc(gen0, index, i);
      ft := Append(ft, f.fileType, f.name);
      nt := Append(nt, f.nodeType, f.name);
      ex := Append(ex, f.suffix, f.name);
      gen := TestFlags(gen, f);
      i := i + 1;
    }
    assert index[..i] == index;
  }

  /** The file summariser, which summarises on creation. */
  class LogseqFileSummarizer {
    const index: seq<SFile>
    var general: GeneralBuckets
    var filetypes: Buckets
    var nodetypes: Buckets
    var extensions: Buckets

    /** The dataclass fields start as empty `defaultdict`s, then `__post_init__` summarises. */
    constructor(index: seq<SFile>)
      ensures this.index == index
      ensures filetypes == Group(map[], index, FileType)
      ensures nodetypes == Group(map[], index, NodeType)
      ensures extensions == Group(map[], index, Extension)
      ensures general == SortValues(General(map[], index))
    {
      this.index := index;
      general, filetypes, nodetypes, extensions := map[], map[], map[], map[];
      new;
      GenerateSummary();
    }

    /**
     * `generate_summary`: each file's name is appended to its type, node
     * type and extension buckets and to the buckets of its flags; then every
     * general bucket is sorted.
     */
    method GenerateSummary()
      modifies this`general, this`filetypes, this`nodetypes, this`extensions
      ensures filetypes == Group(old(filetypes), index, FileType)
      ensures nodetypes == Group(old(nodetypes), index, NodeType)
      ensures extensions == Group(old(extensions), index, Extension)
      ensures general == SortValues(General(old(general), index))
    {
      var ft, nt, ex, gen := SummariseFiles(index, filetypes, nodetypes, extensions, general);
      filetypes, nodetypes, extensions := ft, nt, ex;
      general := SortBuckets(gen);
    }
  }

  // ---------------------------------------------------------------------
  // LogseqContentSummarizer
  // ---------------------------------------------------------------------

  /**
   * What the content summariser reads of one file: its name, its data
   * items and its four info records, whose insides it does not look at.
   */
  datatype CFile<D, S, T, N, B> = CFile(name: string, data: seq<(string, D)>, size: S, timestamp: T, namespace: N, bullet: B)

  /** The position of the last of the first `n` names equal to `k`, or -1. */
  function LastIndex(names: seq<string>, k: string, n: int): (r: int)
    requires 0 <= n <= |names|
    ensures -1 <= r < n
    decreases n
  {
    if n == 0 then -1 else if names[n - 1] == k then n - 1 else LastIndex(names, k, n - 1)
  }

  /** `LastIndex` finds the last occurrence, and finds one exactly when there is one. */
  lemma {:induction false} LastIndexSpec(names: seq<string>, k: string, n: int)
    requires 0 <= n <= |names|
    ensures LastIndex(names, k, n) >= 0 <==> k in names[..n]
    ensures LastIndex(names, k, n) >= 0 ==>
      names[LastIndex(names, k, n)] == k && forall j :: LastIndex(names, k, n) < j < n ==> names[j] != k
    decreases n
  {
    if n > 0 {
      LastIndexSpec(names, k, n - 1);
      assert names[..n] == names[..n - 1] + [names[n - 1]];
    }
  }

  /** `d[name] = value` for the first `n` pairs, in order: each name keyed once, to its last value. */
  function ByName<X>(names: seq<string>, vals: seq<X>, n: int): (m: map<string, X>)
    requires |names| == |vals| && 0 <= n <= |names|
    ensures forall k :: k in m <==> k in names[..n]
  {
    map k | k in names[..n] :: vals[LastIndexIn(names, k, n)]
  }

  /** `LastIndex` of a name that is met. */
  function LastIndexIn(names: seq<string>, k: string, n: int): (r: nat)
    requires 0 <= n <= |names| && k in names[..n]
    ensures r < n && names[r] == k && forall j :: r < j < n ==> names[j] != k
  {
    LastIndexSpec(names, k, n);
    LastIndex(names, k, n)
  }

  /** One more assignment rebinds its name and leaves the others. */
  lemma ByNameSnoc<X>(names: seq<string>, vals: seq<X>, n: int)
    requires |names| == |vals| && 0 <= n < |names|
    ensures ByName(names, vals, n + 1) == ByName(names, vals, n)[names[n] := vals[n]]
  {
    var a := ByName(names, vals, n + 1);
    var b := ByName(names, vals, n)[names[n] := vals[n]];
    assert names[..n + 1] == names[..n] + [names[n]];
    forall k | k in a
      ensures k in b && a[k] == b[k]
    {
      if k != names[n] {
        var i := LastIndexIn(names, k, n + 1);
        var i' := LastIndexIn(names, k, n);
        assert i < n;
        var a, b := names[i], names[i'];
        assert i' < i ==> a != k;
        assert i < i' ==> b != k;
      }
    }
  }

  function Names<D, S, T, N, B>(files: seq<CFile<D, S, T, N, B>>): (r: seq<string>)
    ensures |r| == |files|
  {
    seq(|files|, i requires 0 <= i < |files| => files[i].name)
  }

  /** `d.get(k, {})` for a report. */
  function GetOr<R>(m: map<string, R>, k: string, empty: R): R
  {
    if k in m then m[k] else empty
  }

  /**
   * The per-criterion report after the data items of the files are folded
   * in; the counting helper `get_count_and_foundin_data` is `count`.
   */
  function ReportItems<D, R>(report: map<string, R>, items: seq<(string, D)>, name: string, count: (R, D, string) -> R, empty: R): map<string, R>
    decreases |items|
  {
    if items == [] then report
    else
      var r := ReportItems(report, items[..|items| - 1], name, count, empty);
      var (k, v) := items[|items| - 1];
      r[k := count(GetOr(r, k, empty), v, name)]
  }

  function Report<D, S, T, N, B, R>(report: map<string, R>, files: seq<CFile<D, S, T, N, B>>, count: (R, D, string) -> R, empty: R): map<string, R>
    decreases |files|
  {
    if files == [] then report
    else
      var f := files[|files| - 1];
      ReportItems(Report(report, files[..|files| - 1], count, empty), f.data, f.name, count, empty)
  }

  /** The data keys of a file's items. */
  lemma {:induction false} ReportItemsKeys<D, R>(report: map<string, R>, items: seq<(string, D)>, name: string, count: (R, D, string) -> R, empty: R)
    ensures forall k :: k in ReportItems(report, items, name, count, empty) <==> k in report || exists i :: 0 <= i < |items| && items[i].0 == k
    decreases |items|
  {
    if items != [] {
      var init := items[..|items| - 1];
      ReportItemsKeys(report, init, name, count, empty);
      forall k
        ensures k in ReportItems(report, items, name, count, empty) <==> k in report || exists i :: 0 <= i < |items| && items[i].0 == k
      {
        if exists i :: 0 <= i < |items| && items[i].0 == k {
          var i :| 0 <= i < |items| && items[i].0 == k;
          if i < |init| {
            assert init[i] == items[i];
          }
        }
        if exists i :: 0 <= i < |init| && init[i].0 == k {
          var i :| 0 <= i < |init| && init[i].0 == k;
          assert items[i] == init[i];
        }
      }
    }
  }

  /** Some file has a data item under `k`. */
  predicate HasDataKey<D, S, T, N, B>(files: seq<CFile<D, S, T, N, B>>, k: string)
  {
    exists i, j :: 0 <= i < |files| && 0 <= j < |files[i].data| && files[i].data[j].0 == k
  }

  /** `report.setdefault(k, {})`: the report gains a key for every data key of every file, and no other. */
  lemma {:induction false} ReportKeys<D, S, T, N, B, R>(report: map<string, R>, files: seq<CFile<D, S, T, N, B>>, count: (R, D, string) -> R, empty: R)
    ensures forall k :: k in Report(report, files, count, empty) <==> k in report || HasDataKey(files, k)
    decreases |files|
  {
    if files != [] {
      var n := |files| - 1;
      var init := files[..n];
      ReportKeys(report, init, count, empty);
      ReportItemsKeys(Report(report, init, count, empty), files[n].data, files[n].name, count, empty);
      forall k
        ensures HasDataKey(files, k) <==> HasDataKey(init, k) || exists j :: 0 <= j < |files[n].data| && files[n].data[j].0 == k
      {
        if HasDataKey(files, k) {
          var i, j :| 0 <= i < |files| && 0 <= j < |files[i].data| && files[i].data[j].0 == k;
          if i < n {
            assert init[i] == files[i];
          }
        }
        if HasDataKey(init, k) {
          var i, j :| 0 <= i < |init| && 0 <= j < |init[i].data| && init[i].data[j].0 == k;
          assert files[i] == init[i];
        }
      }
    }
  }

  /** The loop over one file's data items. */
  method FoldItems<D, R>(report: map<string, R>, items: seq<(string, D)>, name: string, count: (R, D, string) -> R, empty: R)
    returns (r: map<string, R>)
    ensures r == ReportItems(report, items, name, count, empty)
  {
    r := report;
    var j := 0;
    while j < |items|
      invariant 0 <= j <= |items|
      invariant r == ReportItems(report, items[..j], name, count, empty)
    {
      assert items[..j + 1][..j] == items[..j];
      var (k, v) := items[j];
      r := r[k := count(GetOr(r, k, empty), v, name)];
      j := j + 1;
    }
    assert items[..j] == items;
  }

  /** The content summariser, which summarises on creation. */
  /** The loop of the content summariser, on values: the report and the four info reports. */
  method SummariseContent<D, S, T, N, B, R>(index: seq<CFile<D, S, T, N, B>>, count: (R, D, string) -> R, empty: R,
                                            report0: map<string, R>)
    returns (report: map<string, R>, sz: map<string, S>, ts: map<string, T>, ns: map<string, N>, bt: map<string, B>)
    ensures report == Report(report0, index, count, empty)
    ensures sz == ByName(Names(index), seq(|index|, i requires 0 <= i < |index| => index[i].size), |index|)
    ensures ts == ByName(Names(index), seq(|index|, i requires 0 <= i < |index| => index[i].timestamp), |index|)
    ensures ns == ByName(Names(index), seq(|index|, i requires 0 <= i < |index| => index[i].namespace), |index|)
    ensures bt == ByName(Names(index), seq(|index|, i requires 0 <= i < |index| => index[i].bullet), |index|)
  {
    var names := Names(index);
    var sizes := seq(|index|, i requires 0 <= i < |index| => index[i].size);
    var stamps := seq(|index|, i requires 0 <= i < |index| => index[i].timestamp);
    var spaces := seq(|index|, i requires 0 <= i < |index| => index[i].namespace);
    var bullets := seq(|index|, i requires 0 <= i < |index| => index[i].bullet);
    report, sz, ts, ns, bt := report0, map[], map[], map[], map[];
    var i := 0;
    while i < |index|
      invariant 0 <= i <= |index|
      invariant report == Report(report0, index[..i], count, empty)
      invariant sz == ByName(names, sizes, i) && ts == ByName(names, stamps, i)
      invariant ns == ByName(names, spaces, i) && bt == ByName(names, bullets, i)
    {
      var f := index[i];
      assert index[..i + 1][..i] == index[..i];
      report := FoldItems(report, f.data, f.name, count, empty);
      ByNameSnoc(names, sizes, i);
      ByNameSnoc(names, stamps, i);
      ByNameSnoc(names, spaces, i);
      ByNameSnoc(names, bullets, i);
      sz := sz[f.name := f.size];
      ts := ts[f.name := f.timestamp];
      ns := ns[f.name := f.namespace];
      bt := bt[f.name := f.bullet];
      i := i + 1;
    }
    assert index[..i] == index;
  }

  class LogseqContentSummarizer<D, S, T, N, B, R> {
    const index: seq<CFile<D, S, T, N, B>>
    const count: (R, D, string) -> R
    const empty: R
    var report: map<string, R>
    var sizeReport: map<string, S>
    var timestampReport: map<string, T>
    var namespaceReport: map<string, N>
    var bulletReport: map<string, B>

    /**
     * The dataclass fields start empty, then `__post_init__` summarises;
     * its `sort_report` only reorders the keys of each report entry.
     */
    constructor(index: seq<CFile<D, S, T, N, B>>, count: (R, D, string) -> R, empty: R)
      ensures this.index == index && this.count == count && this.empty == empty
      ensures report == Report(map[], index, count, empty)
      ensures sizeReport == ByName(Names(index), seq(|index|, i requires 0 <= i < |index| => index[i].size), |index|)
      ensures timestampReport == ByName(Names(index), seq(|index|, i requires 0 <= i < |index| => index[i].timestamp), |index|)
      ensures namespaceReport == ByName(Names(index), seq(|index|, i requires 0 <= i < |index| => index[i].namespace), |index|)
      ensures bulletReport == ByName(Names(index), seq(|index|, i requires 0 <= i < |index| => index[i].bullet), |index|)
    {
      this.index := index;
      this.count := count;
      this.empty := empty;
      report := map[];
      sizeReport, timestampReport, namespaceReport, bulletReport := map[], map[], map[], map[];
      new;
      GenerateSummary();
    }

    /**
     * `generate_summary`: the report gains each data item of each file
     * through the counting helper, and the four info reports are rebuilt,
     * each file name keyed to the records of the last file of that name.
     */
    method GenerateSummary()
      modifies this`report, this`sizeReport, this`timestampReport, this`namespaceReport, this`bulletReport
      ensures report == Report(old(report), index, count, empty)
      ensures sizeReport == ByName(Names(index), seq(|index|, i requires 0 <= i < |index| => index[i].size), |index|)
      ensures timestampReport == ByName(Names(index), seq(|index|, i requires 0 <= i < |index| => index[i].timestamp), |index|)
      ensures namespaceReport == ByName(Names(index), seq(|index|, i requires 0 <= i < |index| => index[i].namespace), |index|)
      ensures bulletReport == ByName(Names(index), seq(|index|, i requires 0 <= i < |index| => index[i].bullet), |index|)
    {
      var rep, sz, ts, ns, bt := SummariseContent(index, count, empty, report);
      report := rep;
      sizeReport, timestampReport, namespaceReport, bulletReport := sz, ts, ns, bt;
    }
  }

  /**
   * An info report keys each file name once, to the records of the last
   * file with that name.
   */
  lemma LastFileWins<X>(names: seq<string>, vals: seq<X>, k: string)
    requires |names| == |vals| && k in names
    ensures var m := ByName(names, vals, |names|);
      k in m &&
      exists i :: 0 <= i < |names| && names[i] == k && m[k] == vals[i] && forall j :: i < j < |names| ==> names[j] != k
  {
    assert names[..|names|] == names;
    var i := LastIndexIn(names, k, |names|);
  }
}

/**
 * The older graph builder, `logseq_graph.LogseqGraph`: the files are kept by
 * hash, a key of processed name, parent directory and suffix, here the slot
 * that key was first stored in, with a name map `names_to_hashes`; the
 * content pass, namespace propagation and summary pass follow the same plan as the current package with the older rules, and
 * `handle_assets` marks the asset files that some file mentions.
 */
module LegacyGraph {
  import opened Wrappers
  import opened NodeType
  import opened PyStr
  import opened Tally
  import opened Graph

  /** `names_to_hashes`: each name's hashes in the order the files were read; a hash is the slot of a stored file. */
  type NameMap = map<string, seq<int>>

  /** `LogseqFileHash`'s key: files with the same processed name, parent directory and suffix are one hash. */
  datatype FileKey = FileKey(name: string, parent: string, suffix: Option<string>)

  /** A file as read, with the parts of its key that the graph's view of a file does not keep. */
  datatype LFile = LFile(file: GFile, parent: string, suffix: Option<string>)

  function Key(f: LFile): FileKey
  {
    FileKey(f.file.name, f.parent, f.suffix)
  }

  /** `names_to_hashes[name].append(hash)` on the `defaultdict(list)`. */
  function AppendName(m: NameMap, name: string, h: int): NameMap
  {
    m[name := (if name in m then m[name] else []) + [h]]
  }

  /** The first slot from `i` on that holds key `k`, or `|keys|` when none does. */
  function SlotFrom(keys: seq<FileKey>, k: FileKey, i: nat): (r: nat)
    requires i <= |keys|
    ensures i <= r <= |keys|
    ensures r < |keys| ==> keys[r] == k
    ensures forall j :: i <= j < r ==> keys[j] != k
    decreases |keys| - i
  {
    if i == |keys| then i
    else if keys[i] == k then i
    else SlotFrom(keys, k, i + 1)
  }

  /** The slot that holds key `k`, or `|keys|` when no stored file has it. */
  function Slot(keys: seq<FileKey>, k: FileKey): (r: nat)
    ensures r <= |keys|
    ensures r < |keys| ==> keys[r] == k
    ensures forall i :: 0 <= i < r ==> keys[i] != k
  {
    SlotFrom(keys, k, 0)
  }

  /** The per-slot fields `process_graph_files` and the later passes write. */
  datatype Hashed = Hashed(files: seq<GFile>, keys: seq<FileKey>, namesToHashes: NameMap, ns: seq<NsAttrs>,
                           backlinked: seq<bool>, nsOnly: seq<bool>, nodeType: seq<Tag>)

  /** The graph before any file is read. */
  const Empty := Hashed([], [], map[], [], [], [], [])

  /** Each key is stored in one slot at most, as in a dict. */
  predicate KeysDistinct(keys: seq<FileKey>)
  {
    forall a, b :: 0 <= a < b < |keys| ==> keys[a] != keys[b]
  }

  /** The name map indexes the stored files: every name lists some slot, and a name lists a slot iff the file there has that name. */
  ghost predicate Indexes(m: NameMap, files: seq<GFile>)
  {
    (forall name :: name in m ==> m[name] != [])
    && (forall name :: name in m ==> forall h :: h in m[name] ==> 0 <= h < |files| && files[h].name == name)
    && (forall h :: 0 <= h < |files| ==> files[h].name in m && h in m[files[h].name])
  }

  /** One entry per slot in every per-file field. */
  predicate Shaped(h: Hashed)
  {
    |h.keys| == |h.files| && |h.ns| == |h.files| && |h.backlinked| == |h.files|
    && |h.nsOnly| == |h.files| && |h.nodeType| == |h.files|
  }

  /** Each slot's key holds the name of the file in it. */
  predicate KeysName(keys: seq<FileKey>, files: seq<GFile>)
    requires |keys| == |files|
  {
    forall j :: 0 <= j < |files| ==> keys[j].name == files[j].name
  }

  /** A graph as `process_graph_files` leaves it: shaped, one slot per key naming its file, and an index of the names. */
  ghost predicate Wellformed(h: Hashed)
  {
    Shaped(h) && KeysDistinct(h.keys) && KeysName(h.keys, h.files) && Indexes(h.namesToHashes, h.files)
  }

  /** The keys of an index are the names of the files. */
  lemma IndexKeys(m: NameMap, files: seq<GFile>)
    requires Indexes(m, files)
    ensures m.Keys == NamesOf(files)
  {
    forall name | name in m
      ensures name in NamesOf(files)
    {
      var h := m[name][0];
      assert h in m[name];
      assert files[h].name == name;
    }
    forall name | name in NamesOf(files)
      ensures name in m
    {
      var h :| 0 <= h < |files| && files[h].name == name;
    }
  }

  /** Listing a slot again under its own file's name, after a file of that name replaced it, keeps the index. */
  lemma IndexesReplace(m: NameMap, files: seq<GFile>, j: int, f: GFile)
    requires Indexes(m, files) && 0 <= j < |files| && files[j].name == f.name
    ensures Indexes(AppendName(m, f.name, j), files[j := f])
  {
    var files' := files[j := f];
    var m' := AppendName(m, f.name, j);
    assert f.name in m && m'[f.name] == m[f.name] + [j];
    assert m'.Keys == m.Keys;
    forall name, h | name in m' && h in m'[name]
      ensures 0 <= h < |files'| && files'[h].name == name
    {
      if name != f.name {
        assert m'[name] == m[name];
      }
      if name != f.name || h != j {
        assert name in m'.Keys;
        assert name in m && h in m[name];
        assert files'[h].name == files[h].name;
      }
    }
    forall h | 0 <= h < |files'|
      ensures files'[h].name in m' && h in m'[files'[h].name]
    {
      var name := files[h].name;
      assert files'[h].name == name;
      assert name in m && h in m[name];
      if name != f.name {
        assert m'[name] == m[name];
      }
    }
  }

  /** Listing a new slot under the name of the file appended there keeps the index. */
  lemma IndexesAppend(m: NameMap, files: seq<GFile>, f: GFile)
    requires Indexes(m, files)
    ensures Indexes(AppendName(m, f.name, |files|), files + [f])
  {
    var files' := files + [f];
    var m' := AppendName(m, f.name, |files|);
    assert m'.Keys == m.Keys + {f.name};
    assert m'[f.name] == (if f.name in m then m[f.name] else []) + [|files|];
    forall name, h | name in m' && h in m'[name]
      ensures 0 <= h < |files'| && files'[h].name == name
    {
      if name != f.name {
        assert m'[name] == m[name];
      }
      if name != f.name || h != |files| {
        assert name in m'.Keys;
        assert name in m && h in m[name];
        assert files'[h] == files[h];
      }
    }
    forall h | 0 <= h < |files'|
      ensures files'[h].name in m' && h in m'[files'[h].name]
    {
      if h < |files| {
        var name := files[h].name;
        assert files'[h] == files[h];
        assert name in m && h in m[name];
        if name != f.name {
          assert m'[name] == m[name];
        }
      }
    }
  }

  lemma DistinctAppend(keys: seq<FileKey>, k: FileKey)
    requires KeysDistinct(keys) && k !in keys
    ensures KeysDistinct(keys + [k])
  {
  }

  /** Writing new namespace attributes, one per slot, keeps the graph well formed. */
  lemma WellformedNs(h: Hashed, ns: seq<NsAttrs>)
    requires Wellformed(h) && |ns| == |h.files|
    ensures Wellformed(h.(ns := ns))
  {
  }

  /**
   * One iteration of `process_graph_files`. A file whose key is stored
   * replaces the file in that slot (`data[hash]` and `hashed_files[hash]`
   * are overwritten and the new object's attributes start afresh), and the
   * slot is appended to its name's list once more; any other file takes a
   * new slot.
   */
  function ReadOne(h: Hashed, f: LFile): (r: Hashed)
    requires Shaped(h)
    ensures Shaped(r)
    ensures r.keys == if Slot(h.keys, Key(f)) < |h.keys| then h.keys else h.keys + [Key(f)]
    ensures Key(f) in r.keys
  {
    var j := Slot(h.keys, Key(f));
    var m := AppendName(h.namesToHashes, f.file.name, j);
    if j < |h.files| then
      Hashed(h.files[j := f.file], h.keys, m, h.ns[j := InitialNs(f.file)],
             h.backlinked[j := false], h.nsOnly[j := false], h.nodeType[j := Other])
    else
      Hashed(h.files + [f.file], h.keys + [Key(f)], m, h.ns + [InitialNs(f.file)],
             h.backlinked + [false], h.nsOnly + [false], h.nodeType + [Other])
  }

  /** Reading a file keeps the graph well formed. */
  lemma ReadOneWellformed(h: Hashed, f: LFile)
    requires Wellformed(h)
    ensures Wellformed(ReadOne(h, f))
  {
    var j := Slot(h.keys, Key(f));
    if j < |h.files| {
      IndexesReplace(h.namesToHashes, h.files, j, f.file);
    } else {
      IndexesAppend(h.namesToHashes, h.files, f.file);
      DistinctAppend(h.keys, Key(f));
    }
  }

  /** The slot of the file's key holds that file; every other slot keeps its file. */
  lemma ReadOneFile(h: Hashed, f: LFile, j: int)
    requires Shaped(h) && KeysDistinct(h.keys) && 0 <= j < |ReadOne(h, f).files|
    ensures ReadOne(h, f).files[j] == if ReadOne(h, f).keys[j] == Key(f) then f.file else h.files[j]
  {
  }

  /** The first `n` iterations of `process_graph_files`. */
  function ReadAll(h: Hashed, input: seq<LFile>, n: nat): (r: Hashed)
    requires Shaped(h) && n <= |input|
    ensures Shaped(r)
    decreases n
  {
    if n == 0 then h else ReadOne(ReadAll(h, input, n - 1), input[n - 1])
  }

  lemma ReadAllNext(h: Hashed, input: seq<LFile>, n: nat)
    requires Shaped(h) && n < |input|
    ensures ReadAll(h, input, n + 1) == ReadOne(ReadAll(h, input, n), input[n])
  {
  }

  /** Reading files keeps the graph well formed. */
  lemma {:induction false} ReadAllWellformed(h: Hashed, input: seq<LFile>, n: nat)
    requires Wellformed(h) && n <= |input|
    ensures Wellformed(ReadAll(h, input, n))
    decreases n
  {
    if n > 0 {
      var m: nat := n - 1;
      ReadAllWellformed(h, input, m);
      ReadOneWellformed(ReadAll(h, input, m), input[m]);
      ReadAllNext(h, input, m);
    }
  }

  /** Every key read has a slot, and every slot holds a key that was stored or read. */
  lemma {:induction false} ReadAllKeys(h: Hashed, input: seq<LFile>, n: nat)
    requires Shaped(h) && n <= |input|
    ensures forall k :: 0 <= k < n ==> Key(input[k]) in ReadAll(h, input, n).keys
    ensures forall key :: key in ReadAll(h, input, n).keys ==> key in h.keys || exists k :: 0 <= k < n && Key(input[k]) == key
    decreases n
  {
    if n > 0 {
      var m: nat := n - 1;
      ReadAllKeys(h, input, m);
      var p := ReadAll(h, input, m);
      var r := ReadAll(h, input, n);
      assert r.keys == p.keys || r.keys == p.keys + [Key(input[m])];
      forall key | key in r.keys
        ensures key in h.keys || exists k :: 0 <= k < n && Key(input[k]) == key
      {
        if key !in p.keys {
          assert Key(input[m]) == key;
        }
      }
    }
  }

  /** With distinct keys, the slot holding a key is the one `Slot` finds. */
  lemma SlotUnique(keys: seq<FileKey>, k: FileKey, j: int)
    requires KeysDistinct(keys) && 0 <= j < |keys| && keys[j] == k
    ensures Slot(keys, k) == j
  {
  }

  /** Two files with one key are one hash: the second replaces the first, and its name lists that slot twice. */
  lemma SameKeyCollapses(a: LFile, b: LFile)
    requires Key(a) == Key(b)
    ensures ReadAll(Empty, [a, b], 2).files == [b.file]
    ensures ReadAll(Empty, [a, b], 2).namesToHashes == map[a.file.name := [0, 0]]
  {
    assert ReadAll(Empty, [a, b], 0) == Empty;
    var r1 := ReadAll(Empty, [a, b], 1);
    assert r1 == ReadOne(Empty, a);
    assert r1.keys == [Key(a)] && r1.files == [a.file];
    assert [] + [0] == [0] && [0] + [0] == [0, 0];
    assert r1.namesToHashes == map[a.file.name := [0]];
    assert Slot(r1.keys, Key(b)) == 0;
  }

  /** The first `n` files read sit in the first `n` slots, in reading order, and no other slot is taken. */
  ghost predicate InReadingOrder(h: Hashed, input: seq<LFile>, n: nat)
  {
    n <= |input| && |h.files| == n && |h.keys| == n
    && forall k :: 0 <= k < n ==> h.keys[k] == Key(input[k]) && h.files[k] == input[k].file
  }

  /** Each name lists exactly the slots of its files, in slot order. */
  ghost predicate HashesArePositions(h: Hashed)
  {
    forall name :: name in h.namesToHashes ==> h.namesToHashes[name] == Positions(h.files, name)
  }

  /** The keys of the first files read, stored in reading order, do not hold the next file's key. */
  lemma FreshKey(p: Hashed, input: seq<LFile>, n: nat)
    requires 0 < n <= |input| && InReadingOrder(p, input, n - 1) && KeysDistinct(KeysRead(input))
    ensures Key(input[n - 1]) !in p.keys
  {
    forall k | 0 <= k < n - 1
      ensures p.keys[k] != Key(input[n - 1])
    {
      assert KeysRead(input)[k] != KeysRead(input)[n - 1];
    }
  }

  /** A file with a new key takes the next slot. */
  lemma SlotsStep(p: Hashed, f: LFile, input: seq<LFile>, n: nat)
    requires Shaped(p) && Key(f) !in p.keys && 0 < n <= |input| && input[n - 1] == f && InReadingOrder(p, input, n - 1)
    ensures InReadingOrder(ReadOne(p, f), input, n)
  {
  }

  /** A file with a new key keeps every name's hashes equal to its positions. */
  lemma FreshKeyPositions(p: Hashed, f: LFile)
    requires Shaped(p) && Indexes(p.namesToHashes, p.files) && Key(f) !in p.keys && HashesArePositions(p)
    ensures HashesArePositions(ReadOne(p, f))
  {
    var r := ReadOne(p, f);
    assert Slot(p.keys, Key(f)) == |p.files|;
    assert r.files == p.files + [f.file];
    forall name | name in r.namesToHashes
      ensures r.namesToHashes[name] == Positions(r.files, name)
    {
      PositionsSnoc(p.files, f.file, name);
      if name == f.file.name && name !in p.namesToHashes {
        PositionsNone(p.files, name);
      }
    }
  }

  /** A well-formed graph holding the first `n` files read, each in its own slot, whose hashes are the files' positions. */
  ghost predicate DistinctRead(h: Hashed, input: seq<LFile>, n: nat)
  {
    Wellformed(h) && InReadingOrder(h, input, n) && HashesArePositions(h)
  }

  lemma DistinctStep(p: Hashed, input: seq<LFile>, n: nat)
    requires 0 < n <= |input| && KeysDistinct(KeysRead(input)) && DistinctRead(p, input, n - 1)
    ensures DistinctRead(ReadOne(p, input[n - 1]), input, n)
  {
    FreshKey(p, input, n);
    SlotsStep(p, input[n - 1], input, n);
    FreshKeyPositions(p, input[n - 1]);
    ReadOneWellformed(p, input[n - 1]);
  }

  /**
   * When no two files read share a key, every file takes its own slot, in
   * reading order, and each name lists exactly the slots of its files: the
   * hashes are the positions of the files.
   */
  lemma {:induction false} DistinctKeysRead(input: seq<LFile>, n: nat)
    requires n <= |input|
    requires KeysDistinct(KeysRead(input))
    ensures DistinctRead(ReadAll(Empty, input, n), input, n)
    decreases n
  {
    if n > 0 {
      var m: nat := n - 1;
      DistinctKeysRead(input, m);
      DistinctStep(ReadAll(Empty, input, m), input, n);
    }
  }

  /** The keys of the files read, in reading order. */
  function KeysRead(input: seq<LFile>): (r: seq<FileKey>)
    ensures |r| == |input| && forall k :: 0 <= k < |input| ==> r[k] == Key(input[k])
  {
    seq(|input|, k requires 0 <= k < |input| => Key(input[k]))
  }

  /** A file appended at the end adds its slot to its own name's positions only. */
  lemma PositionsSnoc(files: seq<GFile>, f: GFile, name: string)
    ensures Positions(files + [f], name) == Positions(files, name) + (if f.name == name then [|files|] else [])
  {
    assert (files + [f])[..|files|] == files;
  }

  lemma PositionsNone(files: seq<GFile>, name: string)
    requires forall j :: 0 <= j < |files| ==> files[j].name != name
    ensures Positions(files, name) == []
  {
  }

  /**
   * A namespace propagation under the older rules keeps every file's
   * `ns_size` equal to the number of its children, whatever it held before.
   */
  lemma {:induction false} LegacySizeAlwaysCounts(files: seq<GFile>, ns: seq<NsAttrs>, n: int, j: int)
    requires 0 <= n <= |files| && 0 <= j < |ns|
    requires SizeOk(ns[j])
    ensures |NsFold(files, ns, n, Legacy)| == |ns|
    ensures SizeOk(NsFold(files, ns, n, Legacy)[j])
    decreases n
  {
    NsFoldLength(files, ns, n, Legacy);
    if n > 0 {
      LegacySizeAlwaysCounts(files, ns, n - 1, j);
      var prev := NsFold(files, ns, n - 1, Legacy);
      if files[n - 1].isNamespace {
        var f := files[n - 1];
        LegacyRulesKeepSize(prev[j], f.name, 1);
        var ns1 := UpdateNamed(files, prev, f.nsRoot, f.name, 1, Overwrite);
        assert SizeOk(ns1[j]);
        if f.nsLevel > 2 {
          LegacyRulesKeepSize(ns1[j], f.name, f.nsLevel - 1);
        }
      }
    }
  }

  /** An `is_backlinked` asset hit: a mention holding the asset's name or the mentioning file's name. */
  predicate AnyMention(mentions: seq<string>, assetName: string, fileName: string)
  {
    exists k :: 0 <= k < |mentions| && (Contains(mentions[k], assetName) || Contains(mentions[k], fileName))
  }

  /** The innermost loop of `handle_assets`, which stops at the first hit. */
  method FindMention(mentions: seq<string>, assetName: string, fileName: string) returns (found: bool)
    ensures found == AnyMention(mentions, assetName, fileName)
  {
    found := false;
    var k := 0;
    while k < |mentions|
      invariant 0 <= k <= |mentions|
      invariant forall j :: 0 <= j < k ==> !(Contains(mentions[j], assetName) || Contains(mentions[j], fileName))
    {
      if Contains(mentions[k], assetName) || Contains(mentions[k], fileName) {
        found := true;
        return;
      }
      k := k + 1;
    }
  }

  /** The file at position `p` holds an asset mention of the file at position `h`. */
  predicate Hit(files: seq<GFile>, p: int, h: int)
    requires 0 <= h < |files| && 0 <= p < |files|
  {
    AnyMention(DataGet(files[p], "assets"), files[h].name, files[p].name)
  }

  /** The file at position `p` has asset mentions and mentions the file at position `h`, which is named in the asset subset. */
  predicate MarkedBy(files: seq<GFile>, assetNames: seq<string>, h: int, p: int)
    requires 0 <= h < |files| && 0 <= p < |files|
  {
    DataGet(files[p], "assets") != [] && files[h].name in assetNames && Hit(files, p, h)
  }

  /**
   * The flags after `handle_assets`: a flag already true stays true, and a
   * false one becomes true iff some file with asset mentions mentions it.
   */
  function MarkAssets(files: seq<GFile>, assetNames: seq<string>, bl: seq<bool>): (r: seq<bool>)
    requires |bl| == |files|
    ensures |r| == |bl|
  {
    seq(|bl|, h requires 0 <= h < |bl| => bl[h] || exists p :: 0 <= p < |files| && MarkedBy(files, assetNames, h, p))
  }

  /** The loop over the files named `asset`, for the mentions of the file at position `p`. */
  method MarkHashes(files: seq<GFile>, p: int, asset: string, hashes: seq<int>, bl: seq<bool>) returns (r: seq<bool>)
    requires 0 <= p < |files| && |bl| == |files|
    requires forall h :: h in hashes <==> 0 <= h < |files| && files[h].name == asset
    ensures |r| == |bl|
    ensures forall h :: 0 <= h < |r| ==> r[h] == (bl[h] || (files[h].name == asset && Hit(files, p, h)))
  {
    r := bl;
    var k := 0;
    while k < |hashes|
      invariant 0 <= k <= |hashes| && |r| == |bl|
      invariant forall h :: 0 <= h < |r| ==> r[h] == (bl[h] || (h in hashes[..k] && Hit(files, p, h)))
    {
      var h := hashes[k];
      assert h in hashes;
      assert hashes[..k + 1] == hashes[..k] + [h];
      if !r[h] {
        var found := FindMention(DataGet(files[p], "assets"), files[h].name, files[p].name);
        if found {
          r := r[h := true];
        }
      }
      k := k + 1;
    }
    assert hashes[..k] == hashes;
  }

  /** `if asset in names_to_hashes` and the loop over that name's files. */
  method MarkAsset(files: seq<GFile>, m: NameMap, p: int, asset: string, bl: seq<bool>) returns (r: seq<bool>)
    requires 0 <= p < |files| && |bl| == |files| && Indexes(m, files)
    ensures |r| == |bl|
    ensures forall h :: 0 <= h < |r| ==> r[h] == (bl[h] || (files[h].name == asset && Hit(files, p, h)))
  {
    if asset in m && m[asset] != [] {
      r := MarkHashes(files, p, asset, m[asset], bl);
    } else {
      r := bl;
    }
  }

  /** The loop over the asset subset, for the file at position `p`. */
  method MarkFromFile(files: seq<GFile>, m: NameMap, p: int, assetNames: seq<string>, bl: seq<bool>) returns (r: seq<bool>)
    requires 0 <= p < |files| && |bl| == |files| && Indexes(m, files)
    ensures |r| == |bl|
    ensures forall h :: 0 <= h < |r| ==> r[h] == (bl[h] || (files[h].name in assetNames && Hit(files, p, h)))
  {
    r := bl;
    var a := 0;
    while a < |assetNames|
      invariant 0 <= a <= |assetNames| && |r| == |bl|
      invariant forall h :: 0 <= h < |r| ==> r[h] == (bl[h] || (files[h].name in assetNames[..a] && Hit(files, p, h)))
    {
      var asset := assetNames[a];
      assert assetNames[..a + 1] == assetNames[..a] + [asset];
      ghost var prev := r;
      r := MarkAsset(files, m, p, asset, r);
      forall h | 0 <= h < |r|
        ensures r[h] == (bl[h] || (files[h].name in assetNames[..a + 1] && Hit(files, p, h)))
      {
        assert files[h].name in assetNames[..a + 1] <==> files[h].name in assetNames[..a] || files[h].name == asset;
        assert r[h] == (prev[h] || (files[h].name == asset && Hit(files, p, h)));
      }
      a := a + 1;
    }
    assert assetNames[..a] == assetNames;
  }

  /** The loop over the files of `handle_assets`. */
  method MarkAll(files: seq<GFile>, m: NameMap, assetNames: seq<string>, bl: seq<bool>) returns (r: seq<bool>)
    requires |bl| == |files| && Indexes(m, files)
    ensures r == MarkAssets(files, assetNames, bl)
  {
    r := bl;
    var p := 0;
    while p < |files|
      invariant 0 <= p <= |files| && |r| == |bl|
      invariant forall h :: 0 <= h < |r| ==> r[h] == (bl[h] || exists q :: 0 <= q < p && MarkedBy(files, assetNames, h, q))
    {
      ghost var prev := r;
      if DataGet(files[p], "assets") != [] {
        r := MarkFromFile(files, m, p, assetNames, r);
      }
      forall h | 0 <= h < |r|
        ensures r[h] == (bl[h] || exists q :: 0 <= q < p + 1 && MarkedBy(files, assetNames, h, q))
      {
        assert r[h] == (prev[h] || MarkedBy(files, assetNames, h, p));
        assert (exists q :: 0 <= q < p + 1 && MarkedBy(files, assetNames, h, q))
               <==> (exists q :: 0 <= q < p && MarkedBy(files, assetNames, h, q)) || MarkedBy(files, assetNames, h, p);
      }
      p := p + 1;
    }
  }

  /** `list_files_with_keys_and_values(file_type="asset", ...)`: asset names in reading order, optionally by flag. */
  function AssetNamesWith(files: seq<GFile>, bl: seq<bool>, flag: Option<bool>): seq<string>
    requires |bl| == |files|
    decreases |files|
  {
    if files == [] then []
    else
      var n := |files| - 1;
      var rest := AssetNamesWith(files[..n], bl[..n], flag);
      if files[n].fileType == "asset" && (flag.None? || bl[n] == flag.value) then rest + [files[n].name] else rest
  }

  /** The back-linked and the not back-linked asset lists split the asset files between them. */
  lemma {:induction false} AssetsPartition(files: seq<GFile>, bl: seq<bool>)
    requires |bl| == |files|
    ensures multiset(AssetNamesWith(files, bl, Some(true))) + multiset(AssetNamesWith(files, bl, Some(false)))
            == multiset(AssetNamesWith(files, bl, None))
    ensures |AssetNamesWith(files, bl, Some(true))| + |AssetNamesWith(files, bl, Some(false))|
            == |AssetNamesWith(files, bl, None)|
    decreases |files|
  {
    if files != [] {
      var n := |files| - 1;
      AssetsPartition(files[..n], bl[..n]);
    }
  }

  /** The content pass on values, with the dangling links taken against the keys of the name map. */
  method LegacyContent(files: seq<GFile>, g: GraphLinks, names: set<string>) returns (r: GraphLinks)
    requires |g.ns| == |files| && names == NamesOf(files)
    ensures r == PostContent(files, g, Legacy)
    ensures |r.ns| == |files|
  {
    var acc := ContentLoop(files, LoopAcc(ContentState(g.unique, g.uniqueNs, {}), g.ns, g.all), Legacy);
    NsFoldLength(files, g.ns, |files|, Legacy);
    r := GraphLinks(SortByCount(acc.all), DanglingLinks(acc.s, names), acc.s.unique, acc.s.uniqueNs, acc.ns);
  }

  /** The graph singleton of the older module. */
  class LogseqGraph {
    var files: seq<GFile>
    var keys: seq<FileKey>
    var namesToHashes: NameMap
    var allLinkedReferences: TallyDict
    var danglingLinks: set<string>
    var uniqueLinkedReferences: set<string>
    var uniqueLinkedReferencesNs: set<string>
    var ns: seq<NsAttrs>
    var isBacklinked: seq<bool>
    var isBacklinkedByNsOnly: seq<bool>
    var nodeType: seq<Tag>
    var assetsBacklinked: seq<string>
    var assetsNotBacklinked: seq<string>

    /** One attribute entry and one distinct key per slot, and the name map indexes exactly the stored files. */
    ghost predicate Valid()
      reads this`files, this`keys, this`namesToHashes, this`ns, this`isBacklinked, this`isBacklinkedByNsOnly, this`nodeType
    {
      Wellformed(Hashed(files, keys, namesToHashes, ns, isBacklinked, isBacklinkedByNsOnly, nodeType))
    }

    constructor()
      ensures Valid() && files == [] && namesToHashes == map[]
      ensures allLinkedReferences == [] && danglingLinks == {} && uniqueLinkedReferences == {} && uniqueLinkedReferencesNs == {}
      ensures assetsBacklinked == [] && assetsNotBacklinked == []
    {
      files := [];
      keys := [];
      namesToHashes := map[];
      allLinkedReferences := [];
      danglingLinks := {};
      uniqueLinkedReferences := {};
      uniqueLinkedReferencesNs := {};
      ns := [];
      isBacklinked := [];
      isBacklinkedByNsOnly := [];
      nodeType := [];
      assetsBacklinked := [];
      assetsNotBacklinked := [];
    }

    function HashedView(): Hashed
      reads this`files, this`keys, this`namesToHashes, this`ns, this`isBacklinked, this`isBacklinkedByNsOnly, this`nodeType
    {
      Hashed(files, keys, namesToHashes, ns, isBacklinked, isBacklinkedByNsOnly, nodeType)
    }

    /** `process_graph_files`: the files are read one at a time, each into the slot of its key. */
    method ProcessGraphFiles(input: seq<LFile>)
      modifies this`files, this`keys, this`namesToHashes, this`ns, this`isBacklinked, this`isBacklinkedByNsOnly, this`nodeType
      requires Valid()
      ensures HashedView() == ReadAll(old(HashedView()), input, |input|)
      ensures Valid()
    {
      ghost var h0 := HashedView();
      ghost var cur := h0;
      var i := 0;
      while i < |input|
        invariant 0 <= i <= |input|
        invariant HashedView() == cur && Shaped(cur)
        invariant cur == ReadAll(h0, input, i)
      {
        ReadAllNext(h0, input, i);
        cur := ReadOne(cur, input[i]);
        ReadFile(input[i]);
        i := i + 1;
      }
      ReadAllWellformed(h0, input, i);
    }

    /** One iteration of the reading loop: the file's key picks its slot. */
    method ReadFile(f: LFile)
      modifies this`files, this`keys, this`namesToHashes, this`ns, this`isBacklinked, this`isBacklinkedByNsOnly, this`nodeType
      requires Shaped(HashedView())
      ensures HashedView() == ReadOne(old(HashedView()), f)
    {
      var j := Slot(keys, Key(f));
      namesToHashes := AppendName(namesToHashes, f.file.name, j);
      if j < |files| {
        files := files[j := f.file];
        ns := ns[j := InitialNs(f.file)];
        isBacklinked := isBacklinked[j := false];
        isBacklinkedByNsOnly := isBacklinkedByNsOnly[j := false];
        nodeType := nodeType[j := Other];
      } else {
        files := files + [f.file];
        keys := keys + [Key(f)];
        ns := ns + [InitialNs(f.file)];
        isBacklinked := isBacklinked + [false];
        isBacklinkedByNsOnly := isBacklinkedByNsOnly + [false];
        nodeType := nodeType + [Other];
      }
    }

    function Links(): GraphLinks
      reads this
    {
      GraphLinks(allLinkedReferences, danglingLinks, uniqueLinkedReferences, uniqueLinkedReferencesNs, ns)
    }

    /**
     * `post_processing_content` with `post_processing_content_namespaces` of
     * the older module: the same tallies and sets, roots always set to level
     * 1, parents raised to one above the child, sizes counted afresh, and the
     * dangling links taken against the keys of `names_to_hashes`.
     */
    method PostProcessingContent()
      modifies this`allLinkedReferences, this`danglingLinks, this`uniqueLinkedReferences, this`uniqueLinkedReferencesNs, this`ns
      requires Valid()
      ensures Links() == PostContent(files, old(Links()), Legacy)
      ensures Valid()
    {
      IndexKeys(namesToHashes, files);
      var g := LegacyContent(files, Links(), namesToHashes.Keys);
      ghost var h := HashedView().(ns := g.ns);
      WellformedNs(HashedView(), g.ns);
      SetLinks(g);
      assert HashedView() == h;
    }

    /** Stores the content pass's results. */
    method SetLinks(g: GraphLinks)
      modifies this`allLinkedReferences, this`danglingLinks, this`uniqueLinkedReferences, this`uniqueLinkedReferencesNs, this`ns
      ensures Links() == g
    {
      allLinkedReferences := g.all;
      danglingLinks := g.dangling;
      uniqueLinkedReferences := g.unique;
      uniqueLinkedReferencesNs := g.uniqueNs;
      ns := g.ns;
    }

    function Summary(): SummaryState
      reads this
    {
      SummaryState(uniqueLinkedReferences, uniqueLinkedReferencesNs, isBacklinked, isBacklinkedByNsOnly, nodeType)
    }

    /**
     * `process_summary_data` of the older module: both flags always decided
     * by consuming the name, never both true, and "other" unless a journal or
     * a page, which get the table lookup.
     */
    method ProcessSummaryData()
      modifies this`uniqueLinkedReferences, this`uniqueLinkedReferencesNs, this`isBacklinked, this`isBacklinkedByNsOnly, this`nodeType
      requires Valid()
      ensures Summary() == SummaryFold(files, old(Summary()), |files|, Legacy)
      ensures forall i :: 0 <= i < |files| ==> !(isBacklinked[i] && isBacklinkedByNsOnly[i])
      ensures forall i :: 0 <= i < |files| && !IsJournalOrPage(files[i]) ==> nodeType[i] == Other
      ensures Valid()
    {
      var s0 := Summary();
      var r := SummaryLoop(files, s0, Legacy);
      SummaryFlags(files, s0, |files|, Legacy);
      SetSummary(r);
    }

    method SetSummary(r: SummaryState)
      modifies this`uniqueLinkedReferences, this`uniqueLinkedReferencesNs, this`isBacklinked, this`isBacklinkedByNsOnly, this`nodeType
      requires Valid() && SummaryShape(r, |files|)
      ensures Summary() == r && Valid()
    {
      uniqueLinkedReferences := r.unique;
      uniqueLinkedReferencesNs := r.uniqueNs;
      isBacklinked := r.backlinked;
      isBacklinkedByNsOnly := r.nsOnly;
      nodeType := r.nodeType;
    }

    /**
     * `handle_assets`, given the stored `___is_filetype_asset` subset: flags
     * are only ever set, then the asset files are listed by flag.
     */
    method HandleAssets(assetSubset: seq<string>)
      modifies this`isBacklinked, this`assetsBacklinked, this`assetsNotBacklinked
      requires Valid()
      ensures isBacklinked == MarkAssets(files, assetSubset, old(isBacklinked))
      ensures assetsBacklinked == AssetNamesWith(files, isBacklinked, Some(true))
      ensures assetsNotBacklinked == AssetNamesWith(files, isBacklinked, Some(false))
      ensures Valid()
    {
      isBacklinked := MarkAll(files, namesToHashes, assetSubset, isBacklinked);
      assetsBacklinked := AssetNamesWith(files, isBacklinked, Some(true));
      assetsNotBacklinked := AssetNamesWith(files, isBacklinked, Some(false));
    }
  }
}

/**
 * `FileIndex`: the multi-index of the graph's files.  A file object is
 * identified by its path parts (its `__eq__` and `__hash__` read nothing
 * else); its processed name and its file path are functions of the path, so
 * they are carried with the parts in `FileId`.
 */
module FileIndexModel {
  import opened Wrappers
  import opened PyValue
  import opened Filters
  import opened PyList

  datatype FileId = FileId(parts: seq<string>, name: string, filePath: string)

  /** The four maps: `files`, `hash_to_file`, `name_to_files`, `path_to_file`. */
  datatype IndexState = IndexState(
    files: set<FileId>,
    hashToFile: map<FileId, FileId>,
    nameToFiles: map<string, seq<FileId>>,
    pathToFile: map<string, FileId>)

  /** The keys `get` and `remove` dispatch on: a file, an int, a str, a Path, anything else. */
  datatype Key = FileKey(file: FileId) | HashKey(hash: int) | NameKey(name: string) | PathKey(path: string) | OtherKey

  /** What `get` returns: a single file or None (int and Path keys), or a list (str keys). */
  datatype Found = MaybeFile(file: Option<FileId>) | FileList(list: seq<FileId>)

  predicate NoDup<T(==)>(s: seq<T>)
  {
    forall i, j :: 0 <= i < j < |s| ==> s[i] != s[j]
  }

  /** `name_to_files[name]` of a `defaultdict(list)` read without inserting. */
  function NameList(s: IndexState, name: string): seq<FileId>
  {
    if name in s.nameToFiles then s.nameToFiles[name] else []
  }

  /**
   * What every operation keeps: the file set and the hash map agree, every
   * file is listed under its name and its path, name lists hold files of that
   * name, and the path map points at files with that path.
   */
  ghost predicate Consistent(s: IndexState)
  {
    (forall f :: f in s.files <==> f in s.hashToFile)
    && (forall f :: f in s.hashToFile ==> s.hashToFile[f] == f)
    && (forall f :: f in s.files ==> f.name in s.nameToFiles && f in s.nameToFiles[f.name])
    && (forall f :: f in s.files ==> f.filePath in s.pathToFile && s.pathToFile[f.filePath] == f)
    && (forall p :: p in s.pathToFile ==> s.pathToFile[p] in s.files && s.pathToFile[p].filePath == p)
    && (forall n, k :: n in s.nameToFiles && 0 <= k < |s.nameToFiles[n]| ==> s.nameToFiles[n][k].name == n)
  }

  /** The mutual consistency the index is meant to have: name lists are exact, duplicate-free and non-empty. */
  ghost predicate Valid(s: IndexState)
  {
    Consistent(s)
    && (forall n :: n in s.nameToFiles ==> s.nameToFiles[n] != [] && NoDup(s.nameToFiles[n]))
    && (forall n, k :: n in s.nameToFiles && 0 <= k < |s.nameToFiles[n]| ==> s.nameToFiles[n][k] in s.files)
  }

  /** No other indexed file has the path of `f` (one file per path on disk). */
  ghost predicate PathFree(s: IndexState, f: FileId)
  {
    forall g :: g in s.files && g.filePath == f.filePath ==> g == f
  }

  /** `add`: the file goes into all four maps; its name list always grows by one. */
  function AddState(s: IndexState, f: FileId): IndexState
  {
    IndexState(s.files + {f}, s.hashToFile[f := f], s.nameToFiles[f.name := NameList(s, f.name) + [f]], s.pathToFile[f.filePath := f])
  }

  function IdsOf(fs: seq<FileId>): set<FileId>
  {
    set k | 0 <= k < |fs| :: fs[k]
  }

  function PathsOf(fs: seq<FileId>): set<string>
  {
    set k | 0 <= k < |fs| :: fs[k].filePath
  }

  /** Drop `f` from the file set, the hash map and the path map. */
  function Unindex(s: IndexState, f: FileId): IndexState
  {
    IndexState(s.files - {f}, s.hashToFile - {f}, s.nameToFiles, s.pathToFile - {f.filePath})
  }

  /** Take one occurrence of `f` out of its name list, dropping the key once the list is empty. */
  function Unlist(s: IndexState, f: FileId): IndexState
  {
    var rest := RemoveFirst(NameList(s, f.name), f);
    IndexState(s.files, s.hashToFile, if rest == [] then s.nameToFiles - {f.name} else s.nameToFiles[f.name := rest], s.pathToFile)
  }

  /**
   * The `for file in files` loop of `remove(str)`: `files.remove(file)` raises
   * `KeyError` (reported as `false`) for a file that is no longer indexed.
   */
  function UnindexAll(s: IndexState, fs: seq<FileId>): (r: (IndexState, bool))
    decreases |fs|
  {
    if fs == [] then (s, true)
    else
      var (t, ok) := UnindexAll(s, fs[..|fs| - 1]);
      var f := fs[|fs| - 1];
      if !ok then (t, false)
      else if f !in t.files then (t, false)
      else (Unindex(t, f), true)
  }

  /** `remove(key)`: the new maps, and `false` when it raised. */
  function RemoveState(s: IndexState, key: Key): (IndexState, bool)
  {
    match key
    case FileKey(f) => if f in s.files then (Unlist(Unindex(s, f), f), true) else (s, true)
    case HashKey(_) => (s, true)
    case NameKey(n) =>
      var popped := IndexState(s.files, s.hashToFile, s.nameToFiles - {n}, s.pathToFile);
      UnindexAll(popped, NameList(s, n))
    case PathKey(p) => if p in s.pathToFile then (Unlist(Unindex(s, s.pathToFile[p]), s.pathToFile[p]), true) else (s, true)
    case OtherKey => (s, true)
  }

  /** `getattr(file, key) == expected` for every criterion, evaluated left to right as `all` does. */
  function MatchesAll(attrs: map<string, Val>, criteria: Criteria): (r: Result<bool>)
    ensures r == Ok(true) <==> forall j :: 0 <= j < |criteria| ==> criteria[j].0 in attrs && PyEq(attrs[criteria[j].0], criteria[j].1)
    ensures r.Err? ==> exists j :: 0 <= j < |criteria| && criteria[j].0 !in attrs
    decreases |criteria|
  {
    if criteria == [] then Ok(true)
    else
      var (key, expected) := criteria[0];
      if key !in attrs then Err(AttributeMissing(key))
      else if !PyEq(attrs[key], expected) then Ok(false)
      else
        var rest := MatchesAll(attrs, criteria[1..]);
        assert forall j :: 1 <= j < |criteria| ==> criteria[j] == criteria[1..][j - 1];
        rest
  }

  /** The files, in iteration order, matching every criterion; the first `AttributeError` propagates. */
  function MatchingFiles(order: seq<FileId>, attrsOf: map<FileId, map<string, Val>>, criteria: Criteria): (r: Result<seq<FileId>>)
    requires forall f :: f in order ==> f in attrsOf
    ensures r.Ok? ==> IsSubsequence(r.value, order)
    ensures r.Ok? ==> forall f :: f in r.value <==> f in order && MatchesAll(attrsOf[f], criteria) == Ok(true)
    ensures r.Err? ==> exists f :: f in order && MatchesAll(attrsOf[f], criteria).Err?
    decreases |order|
  {
    if order == [] then Ok([])
    else
      var m := MatchesAll(attrsOf[order[0]], criteria);
      var rest := MatchingFiles(order[1..], attrsOf, criteria);
      assert order == [order[0]] + order[1..];
      if m.Err? then Err(m.error)
      else if rest.Err? then Err(rest.error)
      else if m.value then Ok([order[0]] + rest.value)
      else Ok(rest.value)
  }

  /** A result with `p` put in front of its list, errors passing through. */
  function PrependOk(p: seq<FileId>, r: Result<seq<FileId>>): Result<seq<FileId>>
  {
    if r.Err? then r else Ok(p + r.value)
  }

  class FileIndex {
    var files: set<FileId>
    var hashToFile: map<FileId, FileId>
    var nameToFiles: map<string, seq<FileId>>
    var pathToFile: map<string, FileId>

    function State(): IndexState
      reads this
    {
      IndexState(files, hashToFile, nameToFiles, pathToFile)
    }

    constructor()
      ensures State() == IndexState({}, map[], map[], map[])
      ensures Valid(State())
    {
      files, hashToFile, nameToFiles, pathToFile := {}, map[], map[], map[];
    }

    /** `__len__`. */
    function Len(): (n: nat)
      reads this
      ensures Consistent(State()) ==> n == |hashToFile|
    {
      assert Consistent(State()) ==> files == hashToFile.Keys;
      |files|
    }

    /** `add`: the file lands in all four maps. */
    method Add(f: FileId)
      modifies this
      ensures State() == AddState(old(State()), f)
      ensures f in files && f in hashToFile && hashToFile[f] == f
      ensures f.name in nameToFiles && f in nameToFiles[f.name]
      ensures f.filePath in pathToFile && pathToFile[f.filePath] == f
    {
      files := files + {f};
      hashToFile := hashToFile[f := f];
      var list := if f.name in nameToFiles then nameToFiles[f.name] else [];
      nameToFiles := nameToFiles[f.name := list + [f]];
      pathToFile := pathToFile[f.filePath := f];
    }

    /** `add` guarded by membership, so the name list never holds a duplicate. */
    method AddOnce(f: FileId)
      modifies this
      ensures State() == AddOnceState(old(State()), f)
    {
      if f !in files {
        Add(f);
      }
    }

    /** `get(key)`: `[]` for an unknown name, `None` for every int, `TypeError` for other keys. */
    function Get(key: Key): (r: Result<Found>)
      reads this
      ensures key.HashKey? ==> r == Ok(MaybeFile(None))
      ensures key.NameKey? ==> r == Ok(FileList(NameList(State(), key.name)))
      ensures key.NameKey? && Consistent(State()) ==> forall g :: g in r.value.list ==> g.name == key.name
      ensures key.PathKey? ==> r == Ok(MaybeFile(if key.path in pathToFile then Some(pathToFile[key.path]) else None))
      ensures key.FileKey? || key.OtherKey? ==> r == Err(TypeMismatch("key"))
    {
      match key
      case HashKey(_) => Ok(MaybeFile(None))
      case NameKey(n) => Ok(FileList(if n in nameToFiles then nameToFiles[n] else []))
      case PathKey(p) => Ok(MaybeFile(if p in pathToFile then Some(pathToFile[p]) else None))
      case _ => Err(TypeMismatch("key"))
    }

    /** `remove(key)`; `ok` is false when the name branch raised `KeyError` part-way. */
    method Remove(key: Key) returns (ok: bool)
      requires Consistent(State())
      modifies this
      ensures (State(), ok) == RemoveState(old(State()), key)
    {
      ok := true;
      match key {
        case FileKey(f) =>
          if f in files {
            files := files - {f};
            hashToFile := hashToFile - {f};
            var rest := RemoveFirst(nameToFiles[f.name], f);
            nameToFiles := if rest == [] then nameToFiles - {f.name} else nameToFiles[f.name := rest];
            pathToFile := pathToFile - {f.filePath};
          }
        case HashKey(_) =>
        case NameKey(n) =>
          var list := if n in nameToFiles then nameToFiles[n] else [];
          nameToFiles := nameToFiles - {n};
          ok := UnindexLoop(list);
        case PathKey(p) =>
          if p in pathToFile {
            var f := pathToFile[p];
            pathToFile := pathToFile - {p};
            files := files - {f};
            hashToFile := hashToFile - {f};
            var rest := RemoveFirst(nameToFiles[f.name], f);
            nameToFiles := if rest == [] then nameToFiles - {f.name} else nameToFiles[f.name := rest];
          }
        case OtherKey =>
      }
    }

    /** The loop of `remove(str)`, stopping at the first file that raises. */
    method UnindexLoop(list: seq<FileId>) returns (ok: bool)
      modifies this
      ensures (State(), ok) == UnindexAll(old(State()), list)
    {
      ok := true;
      var i := 0;
      while i < |list|
        invariant 0 <= i <= |list|
        invariant (State(), ok) == UnindexAll(old(State()), list[..i])
        invariant !ok ==> (State(), ok) == UnindexAll(old(State()), list)
      {
        assert list[..i + 1][..i] == list[..i];
        var f := list[i];
        if f !in files {
          ok := false;
          UnindexAllStops(old(State()), list, i + 1);
          return;
        }
        files := files - {f};
        hashToFile := hashToFile - {f};
        pathToFile := pathToFile - {f.filePath};
        i := i + 1;
      }
      assert list[..i] == list;
    }

    /**
     * `list_files_with_keys_and_values`, with `order` the iteration order of
     * `files`: every indexed file once, and nothing else. On success the
     * result is exactly the indexed files matching every criterion.
     */
    method ListFilesWithKeysAndValues(order: seq<FileId>, attrsOf: map<FileId, map<string, Val>>, criteria: Criteria)
      returns (r: Result<seq<FileId>>)
      requires NoDup(order) && forall f :: f in order <==> f in files
      requires forall f :: f in order ==> f in attrsOf
      ensures r == MatchingFiles(order, attrsOf, criteria)
      ensures r.Ok? ==> forall f :: f in r.value <==> f in files && MatchesAll(attrsOf[f], criteria) == Ok(true)
    {
      r := SelectMatching(order, attrsOf, criteria);
    }
  }

  /** One step of `MatchingFiles` from position `i`. */
  lemma MatchingStep(order: seq<FileId>, attrsOf: map<FileId, map<string, Val>>, criteria: Criteria, i: nat)
    requires forall f :: f in order ==> f in attrsOf
    requires i < |order|
    ensures var m := MatchesAll(attrsOf[order[i]], criteria);
      MatchingFiles(order[i..], attrsOf, criteria) ==
        if m.Err? then Err(m.error)
        else if m.value then PrependOk([order[i]], MatchingFiles(order[i + 1..], attrsOf, criteria))
        else MatchingFiles(order[i + 1..], attrsOf, criteria)
  {
    assert order[i..][1..] == order[i + 1..];
  }

  lemma PrependOkNil(r: Result<seq<FileId>>)
    ensures PrependOk([], r) == r
  {
    if r.Ok? {
      assert [] + r.value == r.value;
    }
  }

  lemma PrependOkAssoc(p: seq<FileId>, q: seq<FileId>, r: Result<seq<FileId>>)
    ensures PrependOk(p, PrependOk(q, r)) == PrependOk(p + q, r)
  {
    if r.Ok? {
      assert p + (q + r.value) == (p + q) + r.value;
    }
  }

  /** The loop of `list_files_with_keys_and_values`. */
  method SelectMatching(order: seq<FileId>, attrsOf: map<FileId, map<string, Val>>, criteria: Criteria)
    returns (r: Result<seq<FileId>>)
    requires forall f :: f in order ==> f in attrsOf
    ensures r == MatchingFiles(order, attrsOf, criteria)
  {
    var result := [];
    var i := 0;
    assert order[0..] == order;
    var all := MatchingFiles(order, attrsOf, criteria);
    PrependOkNil(all);
    while i < |order|
      invariant 0 <= i <= |order|
      invariant all == PrependOk(result, MatchingFiles(order[i..], attrsOf, criteria))
    {
      MatchingStep(order, attrsOf, criteria, i);
      var m := MatchesAll(attrsOf[order[i]], criteria);
      if m.Err? {
        return Err(m.error);
      }
      var rest := MatchingFiles(order[i + 1..], attrsOf, criteria);
      if m.value {
        PrependOkAssoc(result, [order[i]], rest);
        result := result + [order[i]];
      }
      i := i + 1;
    }
    assert order[i..] == [];
    assert result + [] == result;
    return Ok(result);
  }

  /** Once the removal loop has raised, later files change nothing. */
  lemma {:induction false} UnindexAllStops(s: IndexState, fs: seq<FileId>, i: nat)
    requires 0 < i <= |fs|
    requires !UnindexAll(s, fs[..i]).1
    ensures UnindexAll(s, fs) == UnindexAll(s, fs[..i])
    decreases |fs| - i
  {
    if i < |fs| {
      assert fs[..i + 1][..i] == fs[..i];
      UnindexAllStops(s, fs, i + 1);
    } else {
      assert fs[..i] == fs;
    }
  }

  /** The corrected `add`: a file already indexed is not listed a second time. */
  function AddOnceState(s: IndexState, f: FileId): IndexState
  {
    if f in s.files then s else AddState(s, f)
  }

  /** `add` keeps the index consistent and puts the file in all four maps. */
  lemma AddConsistent(s: IndexState, f: FileId)
    requires Consistent(s) && PathFree(s, f)
    ensures Consistent(AddState(s, f))
    ensures var t := AddState(s, f);
      f in t.files && t.hashToFile[f] == f && f in t.nameToFiles[f.name] && t.pathToFile[f.filePath] == f
  {
    var t := AddState(s, f);
    forall n, k | n in t.nameToFiles && 0 <= k < |t.nameToFiles[n]| ensures t.nameToFiles[n][k].name == n {
      if n == f.name && k < |NameList(s, f.name)| {
        assert t.nameToFiles[n][k] == NameList(s, f.name)[k];
      }
    }
    forall g | g in t.files ensures g.name in t.nameToFiles && g in t.nameToFiles[g.name] {
      if g != f && g.name == f.name {
        assert g in NameList(s, f.name);
      }
    }
  }

  /** Adding a file that is not yet indexed keeps the index exact. */
  lemma AddAbsentValid(s: IndexState, f: FileId)
    requires Valid(s) && PathFree(s, f) && f !in s.files
    ensures Valid(AddState(s, f))
  {
    AddConsistent(s, f);
    var t := AddState(s, f);
    var l := NameList(s, f.name);
    assert f !in l;
    forall n | n in t.nameToFiles ensures t.nameToFiles[n] != [] && NoDup(t.nameToFiles[n]) {
      if n == f.name {
        assert t.nameToFiles[n] == l + [f];
        forall i, j | 0 <= i < j < |l + [f]| ensures (l + [f])[i] != (l + [f])[j] {
          if j == |l| {
            assert (l + [f])[i] == l[i];
          } else {
            assert (l + [f])[i] == l[i] && (l + [f])[j] == l[j];
          }
        }
      }
    }
    forall n, k | n in t.nameToFiles && 0 <= k < |t.nameToFiles[n]| ensures t.nameToFiles[n][k] in t.files {
      if n == f.name && k < |l| {
        assert t.nameToFiles[n][k] == l[k];
      }
    }
  }

  /** Adding a file that is already indexed leaves the file set alone but lists it a second time. */
  lemma AddPresentDuplicates(s: IndexState, f: FileId)
    requires f in s.files
    ensures AddState(s, f).files == s.files
    ensures AddState(s, f).nameToFiles[f.name] == NameList(s, f.name) + [f]
  {
  }

  lemma {:induction false} RemoveFirstNoDup<T>(s: seq<T>, x: T)
    requires NoDup(s)
    ensures NoDup(RemoveFirst(s, x)) && x !in RemoveFirst(s, x)
    ensures forall y :: y in RemoveFirst(s, x) ==> y in s
    decreases |s|
  {
    if s != [] {
      var tail := s[1..];
      assert NoDup(tail) by {
        forall i, j | 0 <= i < j < |tail| ensures tail[i] != tail[j] {
          assert tail[i] == s[i + 1] && tail[j] == s[j + 1];
        }
      }
      assert s[0] !in tail by {
        forall j | 0 <= j < |tail| ensures tail[j] != s[0] {
          assert tail[j] == s[j + 1];
        }
      }
      RemoveFirstNoDup(tail, x);
      if s[0] != x {
        var rest := RemoveFirst(tail, x);
        var r := [s[0]] + rest;
        forall i, j | 0 <= i < j < |r| ensures r[i] != r[j] {
          assert r[j] == rest[j - 1];
          if i > 0 {
            assert r[i] == rest[i - 1];
          } else {
            assert r[j] in rest;
          }
        }
        forall y | y in r ensures y in s {
          if y != s[0] {
            assert y in rest;
            assert y in tail;
          }
        }
      }
    }
  }

  /** Removing an indexed file takes it out of all four maps and keeps the index exact. */
  lemma RemoveFileValid(s: IndexState, f: FileId)
    requires Valid(s) && f in s.files
    ensures RemoveState(s, FileKey(f)).1
    ensures var t := RemoveState(s, FileKey(f)).0;
      Valid(t) && f !in t.files && f !in t.hashToFile && f.filePath !in t.pathToFile
      && f !in NameList(t, f.name) && t.files == s.files - {f}
  {
    var u := Unindex(s, f);
    var t := Unlist(u, f);
    var l := NameList(s, f.name);
    RemoveFirstNoDup(l, f);
    forall p | p in t.pathToFile ensures t.pathToFile[p] in t.files && t.pathToFile[p].filePath == p {
      assert t.pathToFile[p] == s.pathToFile[p];
    }
    forall g | g in t.files ensures g.name in t.nameToFiles && g in t.nameToFiles[g.name] {
      if g.name == f.name {
        RemoveFirstKeeps(l, f, g);
      }
    }
    forall n, k | n in t.nameToFiles && 0 <= k < |t.nameToFiles[n]| ensures t.nameToFiles[n][k].name == n && t.nameToFiles[n][k] in t.files {
      if n == f.name {
        var r := RemoveFirst(l, f);
        assert r[k] in r;
        assert r[k] in l;
        var m :| 0 <= m < |l| && l[m] == r[k];
      }
    }
  }

  /** Removing an absent file changes nothing. */
  lemma RemoveAbsentFile(s: IndexState, f: FileId)
    requires f !in s.files
    ensures RemoveState(s, FileKey(f)) == (s, true)
  {
  }

  /** The removal loop over files of one exact list takes them all out of the three maps. */
  lemma {:induction false} UnindexAllValid(s: IndexState, fs: seq<FileId>)
    requires NoDup(fs) && forall k :: 0 <= k < |fs| ==> fs[k] in s.files
    ensures UnindexAll(s, fs).1
    ensures var t := UnindexAll(s, fs).0;
      t.files == s.files - IdsOf(fs)
      && t.hashToFile == s.hashToFile - IdsOf(fs)
      && t.pathToFile == s.pathToFile - PathsOf(fs)
      && t.nameToFiles == s.nameToFiles
    decreases |fs|
  {
    if fs != [] {
      var init := fs[..|fs| - 1];
      forall k | 0 <= k < |init| ensures init[k] in s.files {
        assert init[k] == fs[k];
      }
      assert NoDup(init) by {
        forall i, j | 0 <= i < j < |init| ensures init[i] != init[j] {
          assert init[i] == fs[i] && init[j] == fs[j];
        }
      }
      UnindexAllValid(s, init);
      var last := fs[|fs| - 1];
      assert IdsOf(fs) == IdsOf(init) + {last} by {
        forall x | x in IdsOf(fs) ensures x in IdsOf(init) + {last} {
          var k :| 0 <= k < |fs| && fs[k] == x;
          if k < |init| {
            assert init[k] == x;
          }
        }
      }
      assert PathsOf(fs) == PathsOf(init) + {last.filePath} by {
        forall x | x in PathsOf(fs) ensures x in PathsOf(init) + {last.filePath} {
          var k :| 0 <= k < |fs| && fs[k].filePath == x;
          if k < |init| {
            assert init[k].filePath == x;
          }
        }
      }
      forall k | 0 <= k < |init| ensures init[k] != last {
        assert init[k] == fs[k];
      }
    }
  }

  /** `remove(name)` on an exact index takes every file of that name out of every map. */
  lemma RemoveNameValid(s: IndexState, n: string)
    requires Valid(s)
    ensures RemoveState(s, NameKey(n)).1
    ensures var t := RemoveState(s, NameKey(n)).0;
      Valid(t) && n !in t.nameToFiles && (forall g :: g in t.files <==> g in s.files && g.name != n)
  {
    var l := NameList(s, n);
    var popped := IndexState(s.files, s.hashToFile, s.nameToFiles - {n}, s.pathToFile);
    forall k | 0 <= k < |l| ensures l[k] in popped.files {
    }
    UnindexAllValid(popped, l);
    var t := UnindexAll(popped, l).0;
    assert NameRemoved(s, n, t);
    GoneIsNamed(s, n);
    RemovedPaths(s, n, t);
    RemovedFilesPaths(s, n, t);
    RemovedLists(s, n, t);
  }

  /** The state `remove(name)` leaves: the name's files out of the file set, the hash and path maps, and its key gone. */
  ghost predicate NameRemoved(s: IndexState, n: string, t: IndexState)
  {
    var l := NameList(s, n);
    t.files == s.files - IdsOf(l) && t.hashToFile == s.hashToFile - IdsOf(l)
    && t.pathToFile == s.pathToFile - PathsOf(l) && t.nameToFiles == s.nameToFiles - {n}
  }

  /** On an exact index the files listed under a name are exactly the files of that name. */
  lemma GoneIsNamed(s: IndexState, n: string)
    requires Valid(s)
    ensures forall g :: g in s.files ==> (g in IdsOf(NameList(s, n)) <==> g.name == n)
  {
    var l := NameList(s, n);
    forall g | g in s.files ensures g in IdsOf(l) <==> g.name == n {
      if g.name == n {
        assert g in l;
        var k :| 0 <= k < |l| && l[k] == g;
      }
    }
  }

  lemma RemovedPaths(s: IndexState, n: string, t: IndexState)
    requires Valid(s) && NameRemoved(s, n, t)
    ensures forall p :: p in t.pathToFile ==> t.pathToFile[p] in t.files && t.pathToFile[p].filePath == p
  {
    var l := NameList(s, n);
    forall p | p in t.pathToFile ensures t.pathToFile[p] in t.files && t.pathToFile[p].filePath == p {
      var g := s.pathToFile[p];
      assert t.pathToFile[p] == g;
      forall k | 0 <= k < |l| ensures l[k] != g {
        assert l[k].filePath in PathsOf(l);
      }
    }
  }

  lemma RemovedFilesPaths(s: IndexState, n: string, t: IndexState)
    requires Valid(s) && NameRemoved(s, n, t)
    ensures forall g :: g in t.files ==> g.filePath in t.pathToFile && t.pathToFile[g.filePath] == g
  {
    var l := NameList(s, n);
    forall g | g in t.files ensures g.filePath in t.pathToFile && t.pathToFile[g.filePath] == g {
      forall k | 0 <= k < |l| ensures l[k].filePath != g.filePath {
        assert l[k] in IdsOf(l);
        assert s.pathToFile[l[k].filePath] == l[k];
      }
    }
  }

  lemma RemovedLists(s: IndexState, n: string, t: IndexState)
    requires Valid(s) && NameRemoved(s, n, t)
    ensures forall m, k :: m in t.nameToFiles && 0 <= k < |t.nameToFiles[m]| ==> t.nameToFiles[m][k] in t.files
  {
    GoneIsNamed(s, n);
    forall m, k | m in t.nameToFiles && 0 <= k < |t.nameToFiles[m]| ensures t.nameToFiles[m][k] in t.files {
      assert t.nameToFiles[m][k] in s.files;
    }
  }

  /**
   * Adding an indexed file a second time and then removing it once leaves a
   * stale entry: the file is gone from the file set but still listed under its
   * name, so `get(name)` returns a removed file.
   */
  lemma AddTwiceRemoveOnceLeavesStale(s: IndexState, f: FileId)
    requires Valid(s) && PathFree(s, f) && f !in s.files
    ensures var t := RemoveState(AddState(AddState(s, f), f), FileKey(f)).0;
      f !in t.files && f in NameList(t, f.name) && !Valid(t)
  {
    var l := NameList(s, f.name);
    assert f !in l;
    var twice := AddState(AddState(s, f), f);
    assert NameList(twice, f.name) == l + [f] + [f];
    assert RemoveFirst(l + [f] + [f], f) == l + [f] by {
      RemoveFirstAbsentPrefix(l, [f] + [f], f);
      assert l + [f] + [f] == l + ([f] + [f]);
    }
    var t := RemoveState(twice, FileKey(f)).0;
    assert NameList(t, f.name) == l + [f];
    assert (l + [f])[|l|] == f;
  }

  /** Removing the name of a file listed twice raises part-way through the loop. */
  lemma AddTwiceRemoveNameRaises(s: IndexState, f: FileId)
    requires Valid(s) && PathFree(s, f) && f !in s.files
    ensures !RemoveState(AddState(AddState(s, f), f), NameKey(f.name)).1
  {
    var l := NameList(s, f.name);
    var twice := AddState(AddState(s, f), f);
    var fs := l + [f] + [f];
    assert NameList(twice, f.name) == fs;
    var popped := IndexState(twice.files, twice.hashToFile, twice.nameToFiles - {f.name}, twice.pathToFile);
    var init := fs[..|fs| - 1];
    assert init == l + [f];
    var prev := UnindexAll(popped, init);
    if prev.1 {
      UnindexAllRemoves(popped, init, |l|);
    }
  }

  lemma {:induction false} RemoveFirstAbsentPrefix<T>(a: seq<T>, b: seq<T>, x: T)
    requires x !in a
    ensures RemoveFirst(a + b, x) == a + RemoveFirst(b, x)
    decreases |a|
  {
    if a != [] {
      assert (a + b)[1..] == a[1..] + b;
      RemoveFirstAbsentPrefix(a[1..], b, x);
      assert a == [a[0]] + a[1..];
    } else {
      assert a + b == b;
    }
  }

  /** A successful removal loop no longer indexes any file it went through. */
  lemma {:induction false} UnindexAllRemoves(s: IndexState, fs: seq<FileId>, k: nat)
    requires k < |fs| && UnindexAll(s, fs).1
    ensures fs[k] !in UnindexAll(s, fs).0.files
    decreases |fs|
  {
    var init := fs[..|fs| - 1];
    if k < |init| {
      assert init[k] == fs[k];
      UnindexAllRemoves(s, init, k);
    }
  }

  /** The corrected `add` keeps the index exact whether or not the file was indexed. */
  lemma AddOnceValid(s: IndexState, f: FileId)
    requires Valid(s) && PathFree(s, f)
    ensures Valid(AddOnceState(s, f))
    ensures var t := AddOnceState(s, f); f in t.files && f in t.nameToFiles[f.name] && t.pathToFile[f.filePath] == f
  {
    if f !in s.files {
      AddAbsentValid(s, f);
      AddConsistent(s, f);
    }
  }
}

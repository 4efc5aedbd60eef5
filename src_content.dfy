/**
 * The namespace handling of the older content code.
 *
 * - `src/logseq_file.py` yields the namespace fields of a file's own name,
 *   numbered from 1, keeping only the truthy ones.
 * - `src/contentdata.py` gives every page a default record and, for a
 *   namespaced page with content, fields numbered from 0; it also lifts the
 *   levels of the root and parent pages already read.
 * - `src/process_content_data.py` adds a child to its root and parent pages.
 * - The first script (`__main__.py`) keeps the level, root and full parent,
 *   and stores a second file whose name is taken under its secondary name.
 */
module SrcContent {
  import opened Wrappers
  import opened PyStr
  import opened FileName
  import Graph

  // ---------------------------------------------------------------------
  // Fields numbered from 1 (`src/logseq_file.py`)
  // ---------------------------------------------------------------------

  /**
   * `process_content_namespace_data`: the parts numbered from 1, the level,
   * the root, the parent (the part before the stem when there are more than
   * two parts, else the root) and the stem, each string only when non-empty.
   * This version has no full parent.
   */
  function ContentNamespaceData(name: string, sep: char): NsFields
  {
    var ps := Split(name, sep);
    var n := |ps|;
    NsFields(
      Some(PartLevels(ps, 1)),
      Some(n),
      IfTruthy(ps[0]),
      IfTruthy(if n > 2 then ps[n - 2] else ps[0]),
      None,
      IfTruthy(ps[n - 1]))
  }

  /** With "/" as the separator, the fields are those of the newer name code, less the full parent. */
  lemma ContentNamespaceAgrees(name: string)
    ensures ContentNamespaceData(name, NsSep) == NamespaceNameData(name).(parentFull := None)
  {
  }

  /**
   * The namespace step of `process_content_data`: a name without the
   * separator leaves the data as it is; otherwise each yielded field is
   * written, so the level is the number of parts and the part map is set,
   * while a field not yielded keeps its value.
   */
  function ProcessContentNs(prev: NsFields, name: string, sep: char): (r: NsFields)
    ensures !HasChar(name, sep) ==> r == prev
    ensures HasChar(name, sep) ==> r.level == Some(|Split(name, sep)|) && r.parts.Some? && r.parentFull == prev.parentFull
    ensures HasChar(name, sep) ==> forall k :: k in r.parts.value <==> k in Split(name, sep)
  {
    if HasChar(name, sep) then
      forall k
        ensures k in PartLevels(Split(name, sep), 1) <==> k in Split(name, sep)
      {
        PartLevelsLast(Split(name, sep), 1, k);
      }
      Overlay(prev, ContentNamespaceData(name, sep))
    else prev
  }

  /** The older step agrees with `get_namespace_name_data` on every field but the full parent. */
  lemma ProcessContentAgrees(prev: NsFields, name: string)
    ensures ProcessContentNs(prev, name, NsSep) ==
      ApplyNameData(prev, HasChar(name, NsSep), name).(parentFull := prev.parentFull)
  {
  }

  // ---------------------------------------------------------------------
  // Fields numbered from 0 (`src/contentdata.py`)
  // ---------------------------------------------------------------------

  /** The namespace entries of a `content_data` record. */
  datatype NsRecord = NsRecord(root: string, parent: string, parts: map<string, int>, level: int)

  /** The defaults every record starts with. */
  const DefaultNs := NsRecord("", "", map[], -1)

  /**
   * The zero-based fields of a name: the level is one less than the number
   * of parts, the parent is the part before the stem when the level is above
   * 1 (else the root), and each part maps to its last index, from 0.
   */
  function ZeroBased(name: string): NsRecord
  {
    var ps := Split(name, NsSep);
    var level := |ps| - 1;
    NsRecord(ps[0], if level > 1 then ps[|ps| - 2] else ps[0], PartLevels(ps, 0), level)
  }

  /** The zero-based fields against the one-based ones of the newer code: every level is one less. */
  lemma ZeroBasedShift(name: string, k: string)
    requires HasChar(name, NsSep)
    ensures var z := ZeroBased(name);
            var o := NamespaceNameData(name);
            o.level == Some(z.level + 1) && z.level >= 1
            && (k in z.parts <==> k in o.parts.value)
            && (k in z.parts ==> z.parts[k] == o.parts.value[k] - 1)
            && (o.root.Some? ==> o.root.value == z.root)
  {
    var ps := Split(name, NsSep);
    SplitCountsSeparators(name, NsSep);
    PartLevelsLast(ps, 0, k);
    PartLevelsLast(ps, 1, k);
  }

  /** A root has no "/", and the full parent is shorter than the name: neither is the name. */
  lemma RootAndParentDiffer(name: string)
    requires HasChar(name, NsSep)
    ensures var ps := Split(name, NsSep);
            |ps| >= 2 && ps[0] != name && Join(ps[..|ps| - 1], NsSep) != name
  {
    var ps := Split(name, NsSep);
    SplitCountsSeparators(name, NsSep);
    Rebuild(name);
  }

  /** `content_data` and the linked references gathered so far. */
  datatype ContentAcc = ContentAcc(data: map<string, NsRecord>, linked: set<string>)

  /** `if direct_level > content_data[k]["namespace_level"]: ...= direct_level`, for a key present. */
  function LiftLevel(data: map<string, NsRecord>, k: string, direct: int): map<string, NsRecord>
  {
    if k in data && direct > data[k].level then data[k := data[k].(level := direct)] else data
  }

  /** The record a page holds just after its own turn. */
  function OwnRecord(name: string, text: string): NsRecord
  {
    if text != "" && HasChar(name, NsSep) then ZeroBased(name) else DefaultNs
  }

  /**
   * One turn of the loop of `process_content_data`, namespace part: the
   * page gets the default record, then, when it has content and a "/", its
   * own fields; its root and its name join the linked references; the root
   * page, if already read, is lifted to level 0 and the parent page to the
   * page's level less one.
   */
  function ContentStep(acc: ContentAcc, name: string, text: string): ContentAcc
  {
    var data := acc.data[name := DefaultNs];
    if text == "" || !HasChar(name, NsSep) then ContentAcc(data, acc.linked)
    else
      var ps := Split(name, NsSep);
      var own := ZeroBased(name);
      var data1 := data[name := own];
      var linked := acc.linked + {ps[0], name};
      if own.level >= 1 then
        var data2 := LiftLevel(data1, ps[0], 0);
        ContentAcc(LiftLevel(data2, Join(ps[..|ps| - 1], NsSep), own.level - 1), linked)
      else ContentAcc(data1, linked)
  }

  /** The whole loop, over the `(name, text)` items of the content dict. */
  function ContentFold(content: seq<(string, string)>): ContentAcc
    decreases |content|
  {
    if content == [] then ContentAcc(map[], {})
    else
      var (name, text) := content[|content| - 1];
      ContentStep(ContentFold(content[..|content| - 1]), name, text)
  }

  /** The namespace part of `process_content_data`, as the loop it is. */
  method ProcessContentNamespaces(content: seq<(string, string)>) returns (acc: ContentAcc)
    ensures acc == ContentFold(content)
  {
    acc := ContentAcc(map[], {});
    for i := 0 to |content|
      invariant acc == ContentFold(content[..i])
    {
      assert content[..i + 1][..i] == content[..i];
      var (name, text) := content[i];
      acc := ContentStep(acc, name, text);
    }
    assert content[..|content|] == content;
  }

  /**
   * A turn leaves every other record as it was, but for its level: a root
   * page is only lifted from a negative level to 0, a parent page to the
   * child's level less one when below it, and levels never drop.
   */
  lemma ContentStepOthers(acc: ContentAcc, name: string, text: string, k: string)
    requires k in acc.data && k != name
    ensures var r := ContentStep(acc, name, text).data;
            k in r && r[k] == acc.data[k].(level := r[k].level) && r[k].level >= acc.data[k].level
    ensures var r := ContentStep(acc, name, text).data;
            var ps := Split(name, NsSep);
            r[k].level == acc.data[k].level
            || (text != "" && HasChar(name, NsSep) &&
                ((k == ps[0] && r[k].level == 0 && acc.data[k].level < 0)
                 || (k == Join(ps[..|ps| - 1], NsSep) && r[k].level == |ps| - 2)))
  {
  }

  /** A turn adds its own page's record and no other key. */
  lemma ContentStepKeys(acc: ContentAcc, name: string, text: string)
    ensures ContentStep(acc, name, text).data.Keys == acc.data.Keys + {name}
  {
  }

  /** Every page of the content dict gets a record, empty content or not, and no other key appears. */
  lemma {:induction false} ContentFoldKeys(content: seq<(string, string)>)
    ensures ContentFold(content).data.Keys == set i | 0 <= i < |content| :: content[i].0
    decreases |content|
  {
    if content != [] {
      var init := content[..|content| - 1];
      ContentFoldKeys(init);
      ContentStepKeys(ContentFold(init), content[|content| - 1].0, content[|content| - 1].1);
      var r := ContentFold(content).data;
      var s := set i | 0 <= i < |content| :: content[i].0;
      forall x
        ensures x in r <==> x in s
      {
        if x in s {
          var i :| 0 <= i < |content| && content[i].0 == x;
          if i < |init| {
            assert init[i] == content[i];
          }
        }
        if x in (set i | 0 <= i < |init| :: init[i].0) {
          var i :| 0 <= i < |init| && init[i].0 == x;
          assert content[i] == init[i];
        }
      }
    }
  }

  /** The names of a dict are its keys, each once. */
  predicate UniqueNames(content: seq<(string, string)>)
  {
    forall i, j :: 0 <= i < j < |content| ==> content[i].0 != content[j].0
  }

  /**
   * After the loop, each page's record holds its own root, parent and parts
   * (the defaults when it has no content or no "/"), and a level at least its
   * own; only the level can have been changed by later pages.
   */
  lemma {:induction false} ContentFoldOwnFields(content: seq<(string, string)>, i: int)
    requires UniqueNames(content) && 0 <= i < |content|
    ensures var name := content[i].0;
            var own := OwnRecord(name, content[i].1);
            name in ContentFold(content).data
            && ContentFold(content).data[name] == own.(level := ContentFold(content).data[name].level)
            && ContentFold(content).data[name].level >= own.level
    decreases |content|
  {
    var init := content[..|content| - 1];
    var (name, text) := content[|content| - 1];
    var acc := ContentFold(init);
    if i == |content| - 1 {
      if text != "" && HasChar(name, NsSep) {
        RootAndParentDiffer(name);
      }
    } else {
      assert init[i] == content[i];
      ContentFoldOwnFields(init, i);
      ContentStepOthers(acc, name, text, content[i].0);
    }
  }

  /** The linked references gathered are the roots and the names of the namespaced pages with content. */
  lemma {:induction false} ContentFoldLinked(content: seq<(string, string)>, x: string)
    ensures x in ContentFold(content).linked <==>
      exists i :: 0 <= i < |content| && content[i].1 != "" && HasChar(content[i].0, NsSep) &&
        (x == content[i].0 || x == Split(content[i].0, NsSep)[0])
    decreases |content|
  {
    if content != [] {
      var init := content[..|content| - 1];
      ContentFoldLinked(init, x);
      forall i | 0 <= i < |init|
        ensures init[i] == content[i]
      {
      }
    }
  }

  // ---------------------------------------------------------------------
  // Root and parent pages (`src/process_content_data.py`)
  // ---------------------------------------------------------------------

  /** `ns_sep.join(name.split(ns_sep)[:-1])`. */
  function ParentName(name: string, sep: char): string
  {
    var ps := Split(name, sep);
    Join(ps[..|ps| - 1], sep)
  }

  /**
   * `post_processing_content_namespaces`: the root page, when present, gets
   * level `max(1, previous or 0)`, the child in its children and its size as
   * the number of children; the parent page likewise, with the child's level
   * less one, and only when the level is above 2.
   */
  function PostProcessingContentNamespaces(cd: map<string, Graph.NsAttrs>, name: string, level: int, root: string, sep: char)
    : (r: map<string, Graph.NsAttrs>)
    ensures r.Keys == cd.Keys
  {
    var cd1 := if root in cd then cd[root := Graph.ApplyRule(Graph.AtLeast, cd[root], name, 1)] else cd;
    var parent := ParentName(name, sep);
    if level > 2 && parent in cd1 then cd1[parent := Graph.ApplyRule(Graph.AtLeast, cd1[parent], name, level - 1)] else cd1
  }

  /** The level a record holds, 0 when absent. */
  function LevelOr0(a: Graph.NsAttrs): int
  {
    if a.level.Some? then a.level.value else 0
  }

  /**
   * What the post-processing does to the pages it touches: both root and
   * parent gain the child, keep their size equal to their number of
   * children and never lose level; the root reaches level 1 and the parent
   * the child's level less one; every other page is unchanged.
   */
  lemma PostProcessingEffect(cd: map<string, Graph.NsAttrs>, name: string, level: int, root: string, sep: char, k: string)
    requires k in cd
    ensures var r := PostProcessingContentNamespaces(cd, name, level, root, sep);
            var touched := k == root || (level > 2 && k == ParentName(name, sep));
            (!touched ==> r[k] == cd[k])
            && (touched ==>
                  r[k].level.Some? && r[k].level.value >= LevelOr0(cd[k]) &&
                  name in Graph.ChildrenOf(r[k]) && Graph.ChildrenOf(cd[k]) <= Graph.ChildrenOf(r[k]) && Graph.SizeOk(r[k]))
            && (k == root ==> r[k].level.value >= 1)
            && (level > 2 && k == ParentName(name, sep) ==> r[k].level.value >= level - 1)
    ensures var r := PostProcessingContentNamespaces(cd, name, level, root, sep);
            k == root && !(level > 2 && k == ParentName(name, sep)) ==>
              r[k].level == Some(if LevelOr0(cd[k]) > 1 then LevelOr0(cd[k]) else 1)
  {
  }

  // ---------------------------------------------------------------------
  // The first script (`__main__.py`)
  // ---------------------------------------------------------------------

  /** The namespace entries the first script stores. */
  datatype MainNs = MainNs(root: string, parent: string, level: int)

  /** The level is the number of parts, the root the first one, the parent all but the last, joined. */
  function MainNamespaceFields(name: string): MainNs
  {
    var ps := Split(name, NsSep);
    MainNs(ps[0], Join(ps[..|ps| - 1], NsSep), |ps|)
  }

  /**
   * For a namespaced name: at least two parts; the parent, a "/" and the
   * stem give the name back; and the fields agree with the newer code's
   * level, root and full parent.
   */
  lemma MainNamespaceFieldsSpec(name: string)
    requires HasChar(name, NsSep)
    ensures var m := MainNamespaceFields(name);
            var ps := Split(name, NsSep);
            var o := NamespaceNameData(name);
            m.level >= 2 && m.parent + [NsSep] + ps[|ps| - 1] == name
            && o.level == Some(m.level) && o.root == IfTruthy(m.root) && o.parentFull == IfTruthy(m.parent)
  {
    SplitCountsSeparators(name, NsSep);
    Rebuild(name);
  }

  /** The two names a file's metadata offers. */
  datatype Meta = Meta(name: string, secondary: string)

  /** The key a file is stored under, given the keys already taken. */
  function StoreKey(taken: set<string>, m: Meta): string
  {
    if m.name in taken then m.secondary else m.name
  }

  /** `graph_meta_data` after the files in order: each key holds the position of the file stored last under it. */
  function Stored(files: seq<Meta>): map<string, nat>
    decreases |files|
  {
    if files == [] then map[]
    else
      var g := Stored(files[..|files| - 1]);
      g[StoreKey(g.Keys, files[|files| - 1]) := |files| - 1]
  }

  /** The loop of `main` that fills `graph_meta_data`. */
  method StoreMetaData(files: seq<Meta>) returns (graph: map<string, nat>)
    ensures graph == Stored(files)
  {
    graph := map[];
    for i := 0 to |files|
      invariant graph == Stored(files[..i])
    {
      assert files[..i + 1][..i] == files[..i];
      var name := files[i].name;
      if name in graph {
        name := files[i].secondary;
      }
      graph := graph[name := i];
    }
    assert files[..|files|] == files;
  }

  /** Every file's own name is a key once it is stored, whether it holds that file or an earlier one. */
  lemma {:induction false} StoredNames(files: seq<Meta>, i: int)
    requires 0 <= i < |files|
    ensures files[i].name in Stored(files)
    decreases |files|
  {
    var init := files[..|files| - 1];
    if i < |init| {
      assert init[i] == files[i];
      StoredNames(init, i);
    }
  }

  /** A file whose name an earlier file already has is stored under its secondary name. */
  lemma SecondOfNameUsesSecondary(files: seq<Meta>, i: int, j: int)
    requires 0 <= i < j < |files| && files[i].name == files[j].name
    ensures StoreKey(Stored(files[..j]).Keys, files[j]) == files[j].secondary
  {
    assert files[..j][i] == files[i];
    StoredNames(files[..j], i);
  }

  /** Each key holds a file that chose it, and the files all stay in range. */
  lemma {:induction false} StoredValues(files: seq<Meta>, k: string)
    requires k in Stored(files)
    ensures 0 <= Stored(files)[k] < |files|
    ensures var p := Stored(files)[k];
            StoreKey(Stored(files[..p]).Keys, files[p]) == k
    decreases |files|
  {
    var init := files[..|files| - 1];
    var g := Stored(init);
    if k != StoreKey(g.Keys, files[|files| - 1]) {
      StoredValues(init, k);
      var p := g[k];
      assert files[..p] == init[..p];
    }
  }

  /** With no name met twice and no secondary name equal to a name, every file is stored under its own name. */
  lemma {:induction false} DistinctNamesStoredByName(files: seq<Meta>)
    requires forall i, j :: 0 <= i < j < |files| ==> files[i].name != files[j].name
    requires forall i, j :: 0 <= i < |files| && 0 <= j < |files| ==> files[i].secondary != files[j].name
    ensures forall i :: 0 <= i < |files| ==> files[i].name in Stored(files) && Stored(files)[files[i].name] == i
    decreases |files|
  {
    if files != [] {
      var init := files[..|files| - 1];
      var last := files[|files| - 1];
      DistinctNamesStoredByName(init);
      var g := Stored(init);
      forall k | k in g
        ensures k != last.name
      {
        StoredValues(init, k);
        var p := g[k];
        assert init[p] == files[p];
      }
      forall i | 0 <= i < |init|
        ensures files[i].name in Stored(files) && Stored(files)[files[i].name] == i
      {
        assert init[i] == files[i];
      }
    }
  }
}

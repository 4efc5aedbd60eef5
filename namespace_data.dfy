/**
 * The summary data as the namespace analyzers read it: one record per page
 * name, with the page's `namespace_parts` dict alongside, and the
 * `setdefault` loop that copies the namespace pages into `namespace_data`.
 */
module NamespaceData {
  import PyValue
  import Filters
  import opened NamespaceCore

  /** The summary key that marks a namespace page. */
  const NamespaceLevel: string := "namespace_level"

  /**
   * A page of the summary data: its name, its record of scalar values, and
   * its `namespace_parts` dict (`[]` when missing or empty).
   */
  datatype Page = Page(name: string, record: PyValue.Record, parts: seq<Part>)

  /** The data as a name-keyed dict of records, in data order. */
  function AsDict(data: seq<Page>): (d: Filters.Dict)
    ensures |d| == |data| && forall i :: 0 <= i < |data| ==> d[i] == (data[i].name, data[i].record)
  {
    seq(|data|, i requires 0 <= i < |data| => (data[i].name, data[i].record))
  }

  /** The pages whose record satisfies `keep`, as `(name, parts)` entries, in data order. */
  function EntriesWhere(data: seq<Page>, keep: PyValue.Record -> bool): (r: seq<Entry>)
    ensures forall e :: e in r <==> exists p :: p in data && keep(p.record) && e == Entry(p.name, p.parts)
    decreases |data|
  {
    if data == [] then []
    else
      var last := data[|data| - 1];
      var init := data[..|data| - 1];
      assert data == init + [last];
      EntriesWhere(init, keep) + (if keep(last.record) then [Entry(last.name, last.parts)] else [])
  }

  /** `namespace_level` is set, to anything but `None`. */
  predicate HasLevel(r: PyValue.Record)
  {
    PyValue.Get(r, NamespaceLevel) != PyValue.VNone
  }

  /** `namespace_level` is set to a truthy value. */
  predicate HasTruthyLevel(r: PyValue.Record)
  {
    PyValue.Truthy(PyValue.Get(r, NamespaceLevel))
  }

  /** `for e in es: d.setdefault(e.name, e.parts)`. */
  function SetDefaultAll(d: seq<Entry>, es: seq<Entry>): seq<Entry>
    decreases |es|
  {
    if es == [] then d else SetDefaultAll(SetDefault(d, es[0]), es[1..])
  }

  /** The entry at `i` of `es` is the first one with its name. */
  predicate FirstOfName(es: seq<Entry>, i: int)
    requires 0 <= i < |es|
  {
    !Keyed(es[..i], es[i].name)
  }

  /** One `setdefault`: the keys gain `e.name`, and no key is doubled. */
  lemma SetDefaultKeys(d: seq<Entry>, e: Entry)
    ensures forall n :: Keyed(SetDefault(d, e), n) <==> Keyed(d, n) || n == e.name
    ensures UniqueNames(d) ==> UniqueNames(SetDefault(d, e))
  {
    var d1 := SetDefault(d, e);
    if !Keyed(d, e.name) {
      assert d1 == d + [e];
      forall n | Keyed(d1, n)
        ensures Keyed(d, n) || n == e.name
      {
        var x :| x in d1 && x.name == n;
        assert x in d || x == e;
      }
      assert d1[|d|] == e;
      if UniqueNames(d) {
        forall i, j | 0 <= i < j < |d1|
          ensures d1[i].name != d1[j].name
        {
          if j == |d| {
            assert d1[i] in d;
          }
        }
      }
    }
  }

  /** The keys of a non-empty list are its head's and its tail's. */
  lemma KeyedCons(es: seq<Entry>)
    requires es != []
    ensures forall n :: Keyed(es, n) <==> n == es[0].name || Keyed(es[1..], n)
  {
    assert es == [es[0]] + es[1..];
  }

  lemma {:induction false} SetDefaultAllPrefix(d: seq<Entry>, es: seq<Entry>)
    ensures d <= SetDefaultAll(d, es)
    decreases |es|
  {
    if es != [] {
      SetDefaultAllPrefix(SetDefault(d, es[0]), es[1..]);
    }
  }

  lemma {:induction false} SetDefaultAllKeys(d: seq<Entry>, es: seq<Entry>)
    ensures forall n :: Keyed(SetDefaultAll(d, es), n) <==> Keyed(d, n) || Keyed(es, n)
    ensures UniqueNames(d) ==> UniqueNames(SetDefaultAll(d, es))
    decreases |es|
  {
    if es != [] {
      SetDefaultKeys(d, es[0]);
      KeyedCons(es);
      SetDefaultAllKeys(SetDefault(d, es[0]), es[1..]);
    }
  }

  /** An entry first of its name in the tail, with another name than the head, is first in the whole list. */
  lemma FirstOfNameShift(es: seq<Entry>, j: int)
    requires 0 <= j < |es| - 1 && FirstOfName(es[1..], j) && es[j + 1].name != es[0].name
    ensures FirstOfName(es, j + 1)
  {
    assert es[..j + 1] == [es[0]] + es[1..][..j];
    KeyedCons(es[..j + 1]);
  }

  /** What a `setdefault` loop appends is new, and is the first value given for its key. */
  lemma {:induction false} SetDefaultAllFirst(d: seq<Entry>, es: seq<Entry>, i: int)
    requires |d| <= i < |SetDefaultAll(d, es)|
    ensures !Keyed(d, SetDefaultAll(d, es)[i].name)
    ensures exists j :: 0 <= j < |es| && es[j] == SetDefaultAll(d, es)[i] && FirstOfName(es, j)
    decreases |es|
  {
    assert es != [];
    var e := es[0];
    var d1 := SetDefault(d, e);
    var r := SetDefaultAll(d1, es[1..]);
    SetDefaultAllPrefix(d1, es[1..]);
    SetDefaultKeys(d, e);
    if i == |d| && !Keyed(d, e.name) {
      assert r[i] == e;
      assert FirstOfName(es, 0) by {
        assert es[..0] == [];
      }
    } else {
      SetDefaultAllFirst(d1, es[1..], i);
      var j :| 0 <= j < |es[1..]| && es[1..][j] == r[i] && FirstOfName(es[1..], j);
      FirstOfNameShift(es, j);
    }
  }

  /**
   * `setdefault` never changes a key already present: the old dict is a
   * prefix of the new one, the keys are those of both, no key is doubled,
   * and each key added holds the first value given for it.
   */
  lemma SetDefaultAllSpec(d: seq<Entry>, es: seq<Entry>)
    ensures d <= SetDefaultAll(d, es)
    ensures forall n :: Keyed(SetDefaultAll(d, es), n) <==> Keyed(d, n) || Keyed(es, n)
    ensures UniqueNames(d) ==> UniqueNames(SetDefaultAll(d, es))
    ensures forall i :: |d| <= i < |SetDefaultAll(d, es)| ==>
      !Keyed(d, SetDefaultAll(d, es)[i].name) &&
      exists j :: 0 <= j < |es| && es[j] == SetDefaultAll(d, es)[i] && FirstOfName(es, j)
  {
    SetDefaultAllPrefix(d, es);
    SetDefaultAllKeys(d, es);
    forall i | |d| <= i < |SetDefaultAll(d, es)|
      ensures !Keyed(d, SetDefaultAll(d, es)[i].name)
      ensures exists j :: 0 <= j < |es| && es[j] == SetDefaultAll(d, es)[i] && FirstOfName(es, j)
    {
      SetDefaultAllFirst(d, es, i);
    }
  }

  /** The loop form: one more `setdefault` at the end. */
  lemma {:induction false} SetDefaultAllSnoc(d: seq<Entry>, es: seq<Entry>, e: Entry)
    ensures SetDefaultAll(d, es + [e]) == SetDefault(SetDefaultAll(d, es), e)
    decreases |es|
  {
    if es == [] {
      assert [] + [e] == [e];
    } else {
      assert (es + [e])[1..] == es[1..] + [e];
      SetDefaultAllSnoc(SetDefault(d, es[0]), es[1..], e);
    }
  }

  /** `for e in es: d.setdefault(e.name, e.parts)`, step by step. */
  method SetDefaultLoop(d0: seq<Entry>, es: seq<Entry>) returns (d: seq<Entry>)
    ensures d == SetDefaultAll(d0, es)
  {
    d := d0;
    for i := 0 to |es|
      invariant d == SetDefaultAll(d0, es[..i])
    {
      assert es[..i + 1] == es[..i] + [es[i]];
      SetDefaultAllSnoc(d0, es[..i], es[i]);
      d := SetDefault(d, es[i]);
    }
    assert es[..|es|] == es;
  }

  /**
   * Every page is either a namespace page, selected with its parts, or a
   * page whose `namespace_level` is `None`, named among the pages without
   * the key; never both.
   */
  lemma LevelPartition(data: seq<Page>, p: Page)
    requires p in data
    ensures HasLevel(p.record) ==> Entry(p.name, p.parts) in EntriesWhere(data, HasLevel)
    ensures !HasLevel(p.record) <==> Filters.AllNone(p.record, [NamespaceLevel])
    ensures !HasLevel(p.record) ==> p.name in Filters.ListFilesWithoutKeys(AsDict(data), [NamespaceLevel])
  {
    assert [NamespaceLevel][0] == NamespaceLevel;
    var i :| 0 <= i < |data| && data[i] == p;
    assert AsDict(data)[i] == (p.name, p.record);
  }

  /** The pages without `namespace_level` are exactly those whose key is missing or `None`. */
  lemma WithoutLevelNames(data: seq<Page>, n: string)
    ensures n in Filters.ListFilesWithoutKeys(AsDict(data), [NamespaceLevel]) <==>
      exists p :: p in data && p.name == n && !HasLevel(p.record)
  {
    assert [NamespaceLevel][0] == NamespaceLevel;
    var d := AsDict(data);
    if n in Filters.ListFilesWithoutKeys(d, [NamespaceLevel]) {
      var i :| 0 <= i < |d| && d[i].0 == n && Filters.AllNone(d[i].1, [NamespaceLevel]);
      assert data[i] in data;
    }
    if exists p :: p in data && p.name == n && !HasLevel(p.record) {
      var p :| p in data && p.name == n && !HasLevel(p.record);
      LevelPartition(data, p);
    }
  }
}

/**
 * The record filters of the summary code: `list_files_with_keys`,
 * `list_files_without_keys`, `list_files_with_keys_and_values`,
 * `yield_files_*`, `extract_summary_subset` and `check_has_backlinks`.
 * A Python dict is an ordered sequence of (key, record) pairs.
 */
module Filters {
  import opened PyValue

  type Dict = seq<(string, Record)>

  function Keys(d: Dict): (ks: seq<string>)
    ensures |ks| == |d| && forall i :: 0 <= i < |d| ==> ks[i] == d[i].0
  {
    seq(|d|, i requires 0 <= i < |d| => d[i].0)
  }

  /** `a` can be obtained from `b` by deleting elements: the order of `b` is kept. */
  predicate IsSubsequence<T(==)>(a: seq<T>, b: seq<T>)
    decreases |b|
  {
    if b == [] then a == []
    else (a != [] && a[0] == b[0] && IsSubsequence(a[1..], b[1..])) || IsSubsequence(a, b[1..])
  }

  /** The keys, in dict order, whose record satisfies `keep`. */
  function SelectKeys(d: Dict, keep: Record -> bool): (r: seq<string>)
    ensures IsSubsequence(r, Keys(d))
    ensures forall i :: 0 <= i < |d| && keep(d[i].1) ==> d[i].0 in r
    ensures forall k :: k in r ==> exists i :: 0 <= i < |d| && d[i].0 == k && keep(d[i].1)
  {
    if d == [] then []
    else
      var rest := SelectKeys(d[1..], keep);
      assert Keys(d)[1..] == Keys(d[1..]);
      if keep(d[0].1) then [d[0].0] + rest else rest
  }

  /** The (key, record) pairs, in dict order, whose record satisfies `keep`. */
  function SelectPairs(d: Dict, keep: Record -> bool): (r: Dict)
    ensures IsSubsequence(r, d)
    ensures forall i :: 0 <= i < |d| && keep(d[i].1) ==> d[i] in r
    ensures forall p :: p in r ==> p in d && keep(p.1)
  {
    if d == [] then []
    else
      var rest := SelectPairs(d[1..], keep);
      if keep(d[0].1) then [d[0]] + rest else rest
  }

  predicate AllTruthy(r: Record, criteria: seq<string>)
  {
    forall j :: 0 <= j < |criteria| ==> Truthy(Get(r, criteria[j]))
  }

  predicate AllNone(r: Record, criteria: seq<string>)
  {
    forall j :: 0 <= j < |criteria| ==> Get(r, criteria[j]) == VNone
  }

  predicate AllEqual(r: Record, criteria: Criteria)
  {
    forall j :: 0 <= j < |criteria| ==> PyEq(Get(r, criteria[j].0), criteria[j].1)
  }

  /** `list_files_with_keys`: the keys whose record has a truthy value for every criterion. */
  function ListFilesWithKeys(d: Dict, criteria: seq<string>): (r: seq<string>)
    ensures IsSubsequence(r, Keys(d))
    ensures forall i :: 0 <= i < |d| && AllTruthy(d[i].1, criteria) ==> d[i].0 in r
    ensures forall k :: k in r ==> exists i :: 0 <= i < |d| && d[i].0 == k && AllTruthy(d[i].1, criteria)
  {
    SelectKeys(d, rec => AllTruthy(rec, criteria))
  }

  /**
   * `list_files_without_keys` / `yield_files_without_keys`: the keys whose
   * record gives `None` for every criterion; a stored `False`, `0` or `""`
   * counts as present.
   */
  function ListFilesWithoutKeys(d: Dict, criteria: seq<string>): (r: seq<string>)
    ensures IsSubsequence(r, Keys(d))
    ensures forall i :: 0 <= i < |d| && AllNone(d[i].1, criteria) ==> d[i].0 in r
    ensures forall k :: k in r ==> exists i :: 0 <= i < |d| && d[i].0 == k && AllNone(d[i].1, criteria)
  {
    SelectKeys(d, rec => AllNone(rec, criteria))
  }

  lemma FalsyValueIsNotMissing(d: Dict, key: string, v: Val)
    requires |d| == 1 && Get(d[0].1, key) == v && v != VNone
    ensures ListFilesWithoutKeys(d, [key]) == []
  {
    assert [key][0] == key;
    assert !AllNone(d[0].1, [key]);
    var r := ListFilesWithoutKeys(d, [key]);
    assert forall k :: k !in r;
  }

  /** `list_files_with_keys_and_values` / `yield_files_with_keys_and_values`: every `key == expected`. */
  function ListFilesWithKeysAndValues(d: Dict, criteria: Criteria): (r: seq<string>)
    ensures IsSubsequence(r, Keys(d))
    ensures forall i :: 0 <= i < |d| && AllEqual(d[i].1, criteria) ==> d[i].0 in r
    ensures forall k :: k in r ==> exists i :: 0 <= i < |d| && d[i].0 == k && AllEqual(d[i].1, criteria)
  {
    SelectKeys(d, rec => AllEqual(rec, criteria))
  }

  /** `extract_summary_subset`: the entries, with their records, matching every criterion. */
  function ExtractSummarySubset(d: Dict, criteria: Criteria): (r: Dict)
    ensures IsSubsequence(r, d)
    ensures forall i :: 0 <= i < |d| && AllEqual(d[i].1, criteria) ==> d[i] in r
    ensures forall p :: p in r ==> p in d && AllEqual(p.1, criteria)
  {
    SelectPairs(d, rec => AllEqual(rec, criteria))
  }

  /** `yield_files_with_keys`: the objects that have every listed attribute. */
  function FilesWithAttrs(files: seq<Obj>, criteria: seq<string>): (r: seq<Obj>)
    ensures IsSubsequence(r, files)
    ensures forall f :: f in r <==> f in files && forall j :: 0 <= j < |criteria| ==> HasAttr(f, criteria[j])
  {
    if files == [] then []
    else
      var rest := FilesWithAttrs(files[1..], criteria);
      if forall j :: 0 <= j < |criteria| ==> HasAttr(files[0], criteria[j]) then [files[0]] + rest else rest
  }

  /** The names of the objects, in order. */
  function ObjNames(files: seq<Obj>): (r: seq<string>)
    ensures |r| == |files| && forall i :: 0 <= i < |files| ==> r[i] == files[i].name
  {
    if files == [] then [] else [files[0].name] + ObjNames(files[1..])
  }

  /**
   * `list_files_without_keys` over objects: the names of the objects lacking
   * every listed attribute, in the objects' order.
   */
  function NamesWithoutAttrs(files: seq<Obj>, criteria: seq<string>): (r: seq<string>)
    ensures |r| <= |files|
    ensures IsSubsequence(r, ObjNames(files))
    ensures forall f :: f in files && (forall j :: 0 <= j < |criteria| ==> !HasAttr(f, criteria[j])) ==> f.name in r
    ensures forall n :: n in r ==> exists f :: f in files && f.name == n && forall j :: 0 <= j < |criteria| ==> !HasAttr(f, criteria[j])
  {
    if files == [] then []
    else
      var rest := NamesWithoutAttrs(files[1..], criteria);
      if forall j :: 0 <= j < |criteria| ==> !HasAttr(files[0], criteria[j]) then [files[0].name] + rest else rest
  }

  /** The seven content keys whose values count as outgoing links. */
  const HasBacklinksKeys: seq<string> := [
    "page_references", "tags", "tagged_backlinks", "properties_page_builtin",
    "properties_page_user", "properties_block_builtin", "properties_block_user"
  ]

  /** `has_key_with_values`: some listed key holds a truthy value. */
  function HasKeyWithValues(r: Record, keys: seq<string>): (b: bool)
    ensures b <==> exists j :: 0 <= j < |keys| && Truthy(Get(r, keys[j]))
  {
    if keys == [] then false
    else if Truthy(Get(r, keys[0])) then true
    else
      var b := HasKeyWithValues(r, keys[1..]);
      assert forall j :: 1 <= j < |keys| ==> keys[j] == keys[1..][j - 1];
      b
  }

  /** `check_has_backlinks`: some of the seven link keys holds a truthy value. */
  function CheckHasBacklinks(r: Record): (b: bool)
    ensures b <==> exists j :: 0 <= j < |HasBacklinksKeys| && Truthy(Get(r, HasBacklinksKeys[j]))
  {
    HasKeyWithValues(r, HasBacklinksKeys)
  }
}

/**
 * `LogseqFile`: the per-file object.  Pattern extraction is an input here; what
 * is modelled is how the extracted values are stored, the back-link flags, the
 * node-type lookup, the unmasking of placeholders and file identity.
 */
module LogseqFileModel {
  import opened PyStr
  import opened PyValue
  import opened NodeType
  import opened Backlinks
  import opened Bullets

  /** A key whose values are links to other pages. */
  predicate LinkKey(key: string)
  {
    key == "page_references" || key == "tags" || key == "tagged_backlinks" || Contains(key, "properties")
  }

  /** The keys of a list of pairs are pairwise different, as in a `dict`. */
  predicate DistinctKeys<V>(ps: seq<(string, V)>)
  {
    forall i, j :: 0 <= i < j < |ps| ==> ps[i].0 != ps[j].0
  }

  /** `data` after `data[key] = value` for every truthy entry, taken in order. */
  function StoreTruthy(data: map<string, Val>, ps: seq<(string, Val)>): (r: map<string, Val>)
    decreases |ps|
  {
    if ps == [] then data
    else
      var before := StoreTruthy(data, ps[..|ps| - 1]);
      var (key, value) := ps[|ps| - 1];
      if Truthy(value) then before[key := value] else before
  }

  /** Some truthy entry sits under a link key. */
  function AnyLink(ps: seq<(string, Val)>): (b: bool)
    ensures b <==> exists j :: 0 <= j < |ps| && Truthy(ps[j].1) && LinkKey(ps[j].0)
    decreases |ps|
  {
    if ps == [] then false
    else
      var last := ps[|ps| - 1];
      var b := AnyLink(ps[..|ps| - 1]);
      assert forall j :: 0 <= j < |ps| - 1 ==> ps[..|ps| - 1][j] == ps[j];
      b || (Truthy(last.1) && LinkKey(last.0))
  }

  /** Keys without a truthy entry keep whatever they held. */
  lemma {:induction false} StoreTruthyKeeps(data: map<string, Val>, ps: seq<(string, Val)>, key: string)
    requires forall j :: 0 <= j < |ps| && Truthy(ps[j].1) ==> ps[j].0 != key
    ensures (key in StoreTruthy(data, ps)) == (key in data)
    ensures key in data ==> StoreTruthy(data, ps)[key] == data[key]
    decreases |ps|
  {
    if ps != [] {
      StoreTruthyKeeps(data, ps[..|ps| - 1], key);
    }
  }

  /** A truthy entry of a dict is stored under its key. */
  lemma {:induction false} StoreTruthySets(data: map<string, Val>, ps: seq<(string, Val)>, j: nat)
    requires DistinctKeys(ps)
    requires j < |ps| && Truthy(ps[j].1)
    ensures ps[j].0 in StoreTruthy(data, ps)
    ensures StoreTruthy(data, ps)[ps[j].0] == ps[j].1
    decreases |ps|
  {
    var init := ps[..|ps| - 1];
    if j < |ps| - 1 {
      assert init[j] == ps[j];
      StoreTruthySets(data, init, j);
    }
  }

  /** Nothing falsy is ever written: a stored value came from the old data or is truthy. */
  lemma {:induction false} StoreTruthyValues(data: map<string, Val>, ps: seq<(string, Val)>, key: string)
    requires key in StoreTruthy(data, ps)
    ensures key in data || Truthy(StoreTruthy(data, ps)[key])
    ensures key !in data ==> exists j :: 0 <= j < |ps| && ps[j].0 == key && Truthy(ps[j].1)
    decreases |ps|
  {
    if ps != [] {
      var init := ps[..|ps| - 1];
      var (k, v) := ps[|ps| - 1];
      if !(Truthy(v) && k == key) {
        StoreTruthyValues(data, init, key);
        if key !in data {
          var j :| 0 <= j < |init| && init[j].0 == key && Truthy(init[j].1);
          assert ps[j] == init[j];
        }
      }
    }
  }

  /**
   * The storing loop of `process_content_data`: each truthy value is stored
   * under its key, and the flag is raised once a link key gets a value.
   */
  method StoreValues(data0: map<string, Val>, flag0: bool, primary: seq<(string, Val)>)
    returns (data: map<string, Val>, flag: bool)
    ensures data == StoreTruthy(data0, primary)
    ensures flag == (flag0 || AnyLink(primary))
  {
    data, flag := data0, flag0;
    var i := 0;
    while i < |primary|
      invariant 0 <= i <= |primary|
      invariant data == StoreTruthy(data0, primary[..i])
      invariant flag == (flag0 || AnyLink(primary[..i]))
    {
      var (key, value) := primary[i];
      assert primary[..i + 1][..i] == primary[..i];
      if Truthy(value) {
        data := data[key := value];
        if !flag && LinkKey(key) {
          flag := true;
        }
      }
      i := i + 1;
    }
    assert primary[..i] == primary;
  }

  /** One of the repository's file objects. */
  class LogseqFile {
    var parts: seq<string>
    var name: string
    var content: string
    var maskedBlocks: seq<(string, string)>
    var data: map<string, Val>
    var hasContent: bool
    var hasBacklinks: bool
    var isBacklinked: bool
    var isBacklinkedByNsOnly: bool

    constructor(parts: seq<string>, name: string, content: string)
      ensures this.parts == parts && this.name == name && this.content == content
      ensures data == map[] && hasContent == (content != []) && maskedBlocks == []
      ensures !hasBacklinks && !isBacklinked && !isBacklinkedByNsOnly
    {
      this.parts := parts;
      this.name := name;
      this.content := content;
      maskedBlocks := [];
      data := map[];
      hasContent := content != [];
      hasBacklinks := false;
      isBacklinked := false;
      isBacklinkedByNsOnly := false;
    }

    /**
     * `process_content_data`, with pattern extraction as inputs: `masked` is
     * what `mask_blocks` found, `primary` the extracted values, and
     * `hasPageProperties` and `contentBullets` the bullets' fields. Nothing
     * happens for empty content. Otherwise the masked blocks are kept, every
     * truthy value is stored under its key, the back-link flag is raised iff
     * it was already raised or some truthy value sits under a link key, and
     * when the first bullet holds page properties the content becomes the
     * other bullets joined by newlines, which drops the properties bullet.
     */
    method ProcessContentData(masked: seq<(string, string)>, primary: seq<(string, Val)>,
                              hasPageProperties: bool, contentBullets: seq<string>)
      modifies this
      ensures parts == old(parts) && name == old(name)
      ensures hasContent == old(hasContent) && isBacklinked == old(isBacklinked)
      ensures isBacklinkedByNsOnly == old(isBacklinkedByNsOnly)
      ensures old(content) == [] ==> content == old(content) && maskedBlocks == old(maskedBlocks)
                                     && data == old(data) && hasBacklinks == old(hasBacklinks)
      ensures old(content) != [] ==> maskedBlocks == masked
      ensures old(content) != [] ==> content == (if hasPageProperties then Join(contentBullets, '\n') else old(content))
      ensures old(content) != [] ==> data == StoreTruthy(old(data), primary)
      ensures old(content) != [] ==> hasBacklinks == (old(hasBacklinks) || AnyLink(primary))
    {
      if content == [] {
        return;
      }
      maskedBlocks := masked;
      if hasPageProperties {
        content := Join(contentBullets, '\n');
      }
      data, hasBacklinks := StoreValues(data, hasBacklinks, primary);
    }

    /** `check_is_backlinked`: consume this file's name from the shared lookup set. */
    method CheckIsBacklinked(lookup: Lookup) returns (b: bool)
      modifies lookup
      ensures b <==> name in old(lookup.names)
      ensures lookup.names == old(lookup.names) - {name}
    {
      b := lookup.CheckIsBacklinked(name);
    }

    /** `determine_node_type`: the twelve-entry table over the four flags. */
    function DetermineNodeType(): (t: Tag)
      reads this
      ensures t == Other <==> !hasContent && hasBacklinks
      ensures t != Other ==> t == Classify(hasContent, isBacklinked, isBacklinkedByNsOnly, hasBacklinks)
    {
      TableLookup(hasContent, isBacklinked, isBacklinkedByNsOnly, hasBacklinks)
    }
  }

  /** The content after `content.replace(placeholder, block)` for each pair in order. */
  function UnmaskAll(content: string, blocks: seq<(string, string)>): string
    decreases |blocks|
  {
    if blocks == [] then content
    else
      var (placeholder, block) := blocks[|blocks| - 1];
      ReplaceAll(UnmaskAll(content, blocks[..|blocks| - 1]), placeholder, block)
  }

  /** `unmask_blocks`: the loop over the placeholder mapping. */
  method UnmaskBlocks(masked: string, blocks: seq<(string, string)>) returns (content: string)
    ensures content == UnmaskAll(masked, blocks)
    ensures blocks == [] ==> content == masked
  {
    content := masked;
    var i := 0;
    while i < |blocks|
      invariant 0 <= i <= |blocks|
      invariant content == UnmaskAll(masked, blocks[..i])
    {
      var (placeholder, block) := blocks[i];
      assert blocks[..i + 1][..i] == blocks[..i];
      content := ReplaceAll(content, placeholder, block);
      i := i + 1;
    }
    assert blocks[..i] == blocks;
  }

  /** Placeholders that never occur leave the content as it is. */
  lemma {:induction false} UnmaskAbsent(masked: string, blocks: seq<(string, string)>)
    requires forall j :: 0 <= j < |blocks| ==> blocks[j].0 != [] && !Contains(masked, blocks[j].0)
    ensures UnmaskAll(masked, blocks) == masked
    decreases |blocks|
  {
    if blocks != [] {
      var init := blocks[..|blocks| - 1];
      forall j | 0 <= j < |init| ensures init[j].0 != [] && !Contains(masked, init[j].0) {
        assert init[j] == blocks[j];
      }
      UnmaskAbsent(masked, init);
      ReplaceAbsent(masked, blocks[|blocks| - 1].0, blocks[|blocks| - 1].1);
    }
  }

  /** `__eq__`: two file objects are equal when their path parts are. */
  predicate FileEq(a: LogseqFile, b: LogseqFile)
    reads a, b
  {
    a.parts == b.parts
  }

  /** `__hash__`: the hash of the path parts, with `hash` the hash function of the runtime. */
  function FileHash(f: LogseqFile, hash: seq<string> -> int): int
    reads f
  {
    hash(f.parts)
  }

  /** Equal file objects hash equally, whatever the hash function. */
  lemma EqualFilesHashEqually(a: LogseqFile, b: LogseqFile, hash: seq<string> -> int)
    requires FileEq(a, b)
    ensures FileHash(a, hash) == FileHash(b, hash)
  {
  }

  /** `LogseqFileHash`: a file identified by (name, parent directory, suffix). */
  datatype FileKey = FileKey(name: string, parent: string, suffix: string)

  /** `__eq__` and `__hash__` of `LogseqFileHash` both read the key, so equal keys hash equally. */
  lemma EqualKeysHashEqually(a: FileKey, b: FileKey, hash: FileKey -> int)
    requires a.name == b.name && a.parent == b.parent && a.suffix == b.suffix
    ensures hash(a) == hash(b)
  {
  }

  /** The older `is_primary_bullet_page_properties`: false iff the stripped bullet is empty or starts with "#". */
  function IsPrimaryBulletPageProperties(primary: string): (b: bool)
    ensures !b <==> Strip(primary) == [] || StartsWith(Strip(primary), "#")
    ensures b == PageProperties(primary)
  {
    var bullet := Strip(primary);
    if bullet == [] || StartsWith(bullet, "#") then false else true
  }

  /**
   * The `properties_values.setdefault(prop, value)` loop of the older
   * per-file code: the first value seen for a property is kept.
   */
  method FirstValues(pairs: seq<(string, string)>) returns (m: map<string, string>)
    ensures forall k :: k in m <==> exists j :: 0 <= j < |pairs| && pairs[j].0 == k
    ensures forall j :: 0 <= j < |pairs| && (forall i :: 0 <= i < j ==> pairs[i].0 != pairs[j].0) ==> m[pairs[j].0] == pairs[j].1
  {
    m := map[];
    var i := 0;
    while i < |pairs|
      invariant 0 <= i <= |pairs|
      invariant forall k :: k in m <==> exists j :: 0 <= j < i && pairs[j].0 == k
      invariant forall j :: 0 <= j < i && (forall l :: 0 <= l < j ==> pairs[l].0 != pairs[j].0) ==> m[pairs[j].0] == pairs[j].1
    {
      var (prop, value) := pairs[i];
      if prop !in m {
        m := m[prop := value];
      }
      i := i + 1;
    }
  }

  /** `dict(pairs)` of the current per-file code: the last value seen for a property is kept. */
  function LastValues(pairs: seq<(string, string)>): (m: map<string, string>)
    ensures forall k :: k in m <==> exists j :: 0 <= j < |pairs| && pairs[j].0 == k
    ensures forall j :: 0 <= j < |pairs| && (forall i :: j < i < |pairs| ==> pairs[i].0 != pairs[j].0) ==> m[pairs[j].0] == pairs[j].1
    decreases |pairs|
  {
    if pairs == [] then map[]
    else
      var init := pairs[..|pairs| - 1];
      var before := LastValues(init);
      LastValuesStep(pairs, init, before);
      before[pairs[|pairs| - 1].0 := pairs[|pairs| - 1].1]
  }

  /** Storing the last pair over the dict of the others keeps both halves of the contract. */
  lemma LastValuesStep(pairs: seq<(string, string)>, init: seq<(string, string)>, before: map<string, string>)
    requires pairs != [] && init == pairs[..|pairs| - 1]
    requires forall k :: k in before <==> exists j :: 0 <= j < |init| && init[j].0 == k
    requires forall j :: 0 <= j < |init| && (forall i :: j < i < |init| ==> init[i].0 != init[j].0) ==> before[init[j].0] == init[j].1
    ensures var m := before[pairs[|pairs| - 1].0 := pairs[|pairs| - 1].1];
      (forall k :: k in m <==> exists j :: 0 <= j < |pairs| && pairs[j].0 == k) &&
      forall j :: 0 <= j < |pairs| && (forall i :: j < i < |pairs| ==> pairs[i].0 != pairs[j].0) ==> m[pairs[j].0] == pairs[j].1
  {
    assert forall j :: 0 <= j < |init| ==> init[j] == pairs[j];
    var n := |pairs| - 1;
    var m := before[pairs[n].0 := pairs[n].1];
    forall j | 0 <= j < |pairs| && (forall i :: j < i < |pairs| ==> pairs[i].0 != pairs[j].0)
      ensures m[pairs[j].0] == pairs[j].1
    {
      if j < n {
        assert pairs[n].0 != pairs[j].0;
      }
    }
  }
}

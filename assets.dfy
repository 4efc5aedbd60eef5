/**
 * The asset passes of `analysis/assets.py`.  `LogseqAssets` marks the asset
 * files that some file mentions, through either its embedded asset links or
 * its captured assets; `LogseqAssetsHls` matches the highlight bullets of the
 * PDF annotation pages against the `sub_asset` files and rewrites those
 * files' flag and type.  The index's per-file flag `is_backlinked` is the
 * sequence `bl`, aligned with the files.
 */
module AssetsAnalysis {
  import opened Wrappers
  import opened PyStr
  import opened Graph
  import LegacyGraph

  const EmbeddedLinksAsset := "embedded_links_asset"
  const AssetsKey := "assets"

  // ---------------------------------------------------------------------
  // LogseqAssets
  // ---------------------------------------------------------------------

  /** The positions of the files whose type is `asset`, in reading order. */
  function AssetPositions(files: seq<GFile>): (r: seq<int>)
    ensures forall h :: h in r <==> 0 <= h < |files| && files[h].fileType == "asset"
    ensures forall a :: 0 <= a < |r| ==> 0 <= r[a] < |files|
    decreases |files|
  {
    if files == [] then []
    else
      var init := files[..|files| - 1];
      var rest := AssetPositions(init);
      assert forall j :: 0 <= j < |init| ==> init[j] == files[j];
      rest + (if files[|files| - 1].fileType == "asset" then [|files| - 1] else [])
  }

  /** The file at `p` mentions the file at `h` in its embedded asset links or in its captured assets. */
  predicate Mentions(files: seq<GFile>, p: int, h: int)
    requires 0 <= p < |files| && 0 <= h < |files|
  {
    LegacyGraph.AnyMention(DataGet(files[p], EmbeddedLinksAsset), files[h].name, files[p].name) ||
    LegacyGraph.AnyMention(DataGet(files[p], AssetsKey), files[h].name, files[p].name)
  }

  /**
   * The flags after `handle_assets`: a flag already set stays set, and an
   * asset file's flag is set when some file mentions it.
   */
  function AssetFlags(files: seq<GFile>, bl: seq<bool>): (r: seq<bool>)
    requires |bl| == |files|
    ensures |r| == |bl|
  {
    seq(|bl|, h requires 0 <= h < |bl| =>
      bl[h] || (files[h].fileType == "asset" && exists p :: 0 <= p < |files| && Mentions(files, p, h)))
  }

  /** `update_asset_backlink`: the flag is set when a mention holds the asset's name or the mentioning file's name. */
  method UpdateAssetBacklink(fileName: string, mentions: seq<string>, assetName: string, flag: bool) returns (r: bool)
    ensures r == (flag || LegacyGraph.AnyMention(mentions, assetName, fileName))
  {
    r := flag;
    if mentions == [] {
      return;
    }
    var found := LegacyGraph.FindMention(mentions, assetName, fileName);
    if found {
      r := true;
    }
  }

  /** The loop over the asset files for the file at position `p`; a file already marked is skipped. */
  method MarkFromFile(files: seq<GFile>, p: int, assets: seq<int>, bl: seq<bool>) returns (r: seq<bool>)
    requires 0 <= p < |files| && |bl| == |files| && assets == AssetPositions(files)
    ensures |r| == |bl|
    ensures forall h :: 0 <= h < |r| ==> r[h] == (bl[h] || (files[h].fileType == "asset" && Mentions(files, p, h)))
  {
    var emb := DataGet(files[p], EmbeddedLinksAsset);
    var captured := DataGet(files[p], AssetsKey);
    r := bl;
    var k := 0;
    while k < |assets|
      invariant 0 <= k <= |assets| && |r| == |bl|
      invariant forall h :: 0 <= h < |r| ==> r[h] == (bl[h] || (h in assets[..k] && Mentions(files, p, h)))
    {
      var h := assets[k];
      assert assets[..k + 1] == assets[..k] + [h];
      if !r[h] {
        var f := UpdateAssetBacklink(files[p].name, emb, files[h].name, r[h]);
        f := UpdateAssetBacklink(files[p].name, captured, files[h].name, f);
        r := r[h := f];
      }
      k := k + 1;
    }
    assert assets[..k] == assets;
  }

  /** The loop over all files of `handle_assets`; a file with neither kind of mention is skipped. */
  method MarkAll(files: seq<GFile>, bl: seq<bool>) returns (r: seq<bool>)
    requires |bl| == |files|
    ensures r == AssetFlags(files, bl)
  {
    var assets := AssetPositions(files);
    r := bl;
    var p := 0;
    while p < |files|
      invariant 0 <= p <= |files| && |r| == |bl|
      invariant forall h :: 0 <= h < |r| ==>
        r[h] == (bl[h] || (files[h].fileType == "asset" && exists q :: 0 <= q < p && Mentions(files, q, h)))
    {
      ghost var prev := r;
      if DataGet(files[p], EmbeddedLinksAsset) != [] || DataGet(files[p], AssetsKey) != [] {
        r := MarkFromFile(files, p, assets, r);
      } else {
        forall h | 0 <= h < |files|
          ensures !Mentions(files, p, h)
        {
        }
      }
      forall h | 0 <= h < |r|
        ensures r[h] == (bl[h] || (files[h].fileType == "asset" && exists q :: 0 <= q < p + 1 && Mentions(files, q, h)))
      {
        assert r[h] == (prev[h] || (files[h].fileType == "asset" && Mentions(files, p, h)));
        assert (exists q :: 0 <= q < p + 1 && Mentions(files, q, h))
               <==> (exists q :: 0 <= q < p && Mentions(files, q, h)) || Mentions(files, p, h);
      }
      p := p + 1;
    }
  }

  /** Marking twice marks nothing more: the flags `handle_assets` leaves are a fixed point. */
  lemma AssetFlagsIdempotent(files: seq<GFile>, bl: seq<bool>)
    requires |bl| == |files|
    ensures AssetFlags(files, AssetFlags(files, bl)) == AssetFlags(files, bl)
  {
  }

  /**
   * With no embedded asset links in any file and the asset subset naming
   * exactly the asset files, the flags agree with those of the older
   * `handle_assets` of `logseq_graph.py`.
   */
  lemma AssetFlagsAgreeWithLegacy(files: seq<GFile>, assetNames: seq<string>, bl: seq<bool>)
    requires |bl| == |files|
    requires forall p :: 0 <= p < |files| ==> DataGet(files[p], EmbeddedLinksAsset) == []
    requires forall h :: 0 <= h < |files| ==> (files[h].name in assetNames <==> files[h].fileType == "asset")
    ensures AssetFlags(files, bl) == LegacyGraph.MarkAssets(files, assetNames, bl)
  {
    var a := AssetFlags(files, bl);
    var b := LegacyGraph.MarkAssets(files, assetNames, bl);
    forall h | 0 <= h < |files|
      ensures a[h] == b[h]
    {
      forall p | 0 <= p < |files|
        ensures (files[h].fileType == "asset" && Mentions(files, p, h)) == LegacyGraph.MarkedBy(files, assetNames, h, p)
      {
        var emb := DataGet(files[p], EmbeddedLinksAsset);
        assert !LegacyGraph.AnyMention(emb, files[h].name, files[p].name);
        if LegacyGraph.Hit(files, p, h) {
          var k :| 0 <= k < |DataGet(files[p], AssetsKey)| &&
            (Contains(DataGet(files[p], AssetsKey)[k], files[h].name) || Contains(DataGet(files[p], AssetsKey)[k], files[p].name));
        }
      }
    }
  }

  /** The singleton: the two asset lists of the last pass. */
  class LogseqAssets {
    var backlinked: seq<string>
    var notBacklinked: seq<string>

    constructor()
      ensures backlinked == [] && notBacklinked == []
    {
      backlinked := [];
      notBacklinked := [];
    }

    /**
     * `handle_assets`: the index's flags become `AssetFlags`, and the asset
     * files are listed, in reading order, by their new flag.
     */
    method HandleAssets(files: seq<GFile>, bl: seq<bool>) returns (r: seq<bool>)
      modifies this`backlinked, this`notBacklinked
      requires |bl| == |files|
      ensures r == AssetFlags(files, bl)
      ensures backlinked == LegacyGraph.AssetNamesWith(files, r, Some(true))
      ensures notBacklinked == LegacyGraph.AssetNamesWith(files, r, Some(false))
    {
      r := MarkAll(files, bl);
      backlinked := LegacyGraph.AssetNamesWith(files, r, Some(true));
      notBacklinked := LegacyGraph.AssetNamesWith(files, r, Some(false));
    }
  }

  // ---------------------------------------------------------------------
  // LogseqAssetsHls
  // ---------------------------------------------------------------------

  /**
   * `{file.path.name: file for file in sub_asset files}`: each name of a
   * `sub_asset` file among the first `n` is a key, mapped to the position of
   * the last such file with that name.
   */
  function SubAssetMapping(files: seq<GFile>, n: int): (m: map<string, nat>)
    requires 0 <= n <= |files|
    ensures forall k :: k in m <==> exists p :: 0 <= p < n && files[p].fileType == "sub_asset" && files[p].name == k
    ensures forall k :: k in m ==> m[k] < n && files[m[k]].name == k && files[m[k]].fileType == "sub_asset"
    ensures forall k, q :: k in m && m[k] < q < n && files[q].fileType == "sub_asset" ==> files[q].name != k
    decreases n
  {
    if n == 0 then map[]
    else
      var rest := SubAssetMapping(files, n - 1);
      SubAssetStep(files, n, rest);
      if files[n - 1].fileType == "sub_asset" then rest[files[n - 1].name := n - 1] else rest
  }

  /** One file more: a `sub_asset` file takes its name over, any other file changes nothing. */
  lemma SubAssetStep(files: seq<GFile>, n: int, rest: map<string, nat>)
    requires 0 < n <= |files|
    requires forall k :: k in rest <==> exists p :: 0 <= p < n - 1 && files[p].fileType == "sub_asset" && files[p].name == k
    requires forall k :: k in rest ==> rest[k] < n - 1 && files[rest[k]].name == k && files[rest[k]].fileType == "sub_asset"
    requires forall k, q :: k in rest && rest[k] < q < n - 1 && files[q].fileType == "sub_asset" ==> files[q].name != k
    ensures var m := if files[n - 1].fileType == "sub_asset" then rest[files[n - 1].name := n - 1] else rest;
      (forall k :: k in m <==> exists p :: 0 <= p < n && files[p].fileType == "sub_asset" && files[p].name == k) &&
      (forall k :: k in m ==> m[k] < n && files[m[k]].name == k && files[m[k]].fileType == "sub_asset") &&
      (forall k, q :: k in m && m[k] < q < n && files[q].fileType == "sub_asset" ==> files[q].name != k)
  {
    var f := files[n - 1];
    var m := if f.fileType == "sub_asset" then rest[f.name := n - 1] else rest;
    forall k
      ensures k in m <==> exists p :: 0 <= p < n && files[p].fileType == "sub_asset" && files[p].name == k
    {
      if exists p :: 0 <= p < n && files[p].fileType == "sub_asset" && files[p].name == k {
        var p :| 0 <= p < n && files[p].fileType == "sub_asset" && files[p].name == k;
        if p < n - 1 {
          assert k in rest;
        }
      }
    }
    forall k | k in m
      ensures m[k] < n && files[m[k]].name == k && files[m[k]].fileType == "sub_asset"
    {
    }
    forall k, q | k in m && m[k] < q < n && files[q].fileType == "sub_asset"
      ensures files[q].name != k
    {
      if q == n - 1 && f.fileType == "sub_asset" {
        assert k != f.name;
      }
    }
  }

  /** Each key of a mapping names the file it points at. */
  predicate NamesFiles(mapping: map<string, nat>, files: seq<GFile>)
  {
    forall n :: n in mapping ==> mapping[n] < |files| && files[mapping[n]].name == n
  }

  /**
   * A bullet of a highlight page: its text, and the `(property, value)`
   * pairs the property-value pattern finds in the stripped text, in order.
   */
  datatype HlsBullet = HlsBullet(text: string, matches: seq<(string, string)>)

  /** The value of the last of the first `n` matches that is for `key`, or "" when none is. */
  function LastValue(ms: seq<(string, string)>, key: string, n: int): string
    requires 0 <= n <= |ms|
    decreases n
  {
    if n == 0 then ""
    else if ms[n - 1].0 == key then ms[n - 1].1
    else LastValue(ms, key, n - 1)
  }

  /** Of the first `n` matches, the one at `i` is the last for `key`. */
  predicate LastFor(ms: seq<(string, string)>, key: string, i: int, n: int)
    requires n <= |ms|
  {
    0 <= i < n && ms[i].0 == key && forall j :: i < j < n ==> ms[j].0 != key
  }

  /** A later match overrides an earlier one: the value is that of the last match for the key, or "" without one. */
  lemma {:induction false} LastValueSpec(ms: seq<(string, string)>, key: string, n: int)
    requires 0 <= n <= |ms|
    ensures (forall i :: 0 <= i < n ==> ms[i].0 != key) ==> LastValue(ms, key, n) == ""
    ensures forall i :: LastFor(ms, key, i, n) ==> LastValue(ms, key, n) == ms[i].1
    decreases n
  {
    if n > 0 {
      LastValueSpec(ms, key, n - 1);
      if ms[n - 1].0 != key {
        forall i | LastFor(ms, key, i, n)
          ensures LastFor(ms, key, i, n - 1)
        {
        }
      } else {
        forall i | LastFor(ms, key, i, n)
          ensures i == n - 1
        {
          var c := ms[n - 1].0;
          assert i < n - 1 ==> c != key;
        }
      }
    }
  }

  /**
   * What one bullet contributes: nothing unless its stripped text starts with
   * `[:span]` and its last `hl-page`, `id` and `hl-stamp` values are all
   * non-empty; then the three, each stripped, joined by `_`.
   */
  function Formatted(b: HlsBullet): Option<string>
  {
    var page, id, stamp := LastValue(b.matches, "hl-page", |b.matches|), LastValue(b.matches, "id", |b.matches|), LastValue(b.matches, "hl-stamp", |b.matches|);
    if StartsWith(Strip(b.text), "[:span]") && page != "" && id != "" && stamp != ""
    then Some(Strip(page) + "_" + Strip(id) + "_" + Strip(stamp))
    else None
  }

  /** The loop over a bullet's matches: each of the three properties keeps its last value. */
  method ReadProperties(ms: seq<(string, string)>) returns (page: string, id: string, stamp: string)
    ensures page == LastValue(ms, "hl-page", |ms|) && id == LastValue(ms, "id", |ms|) && stamp == LastValue(ms, "hl-stamp", |ms|)
  {
    page, id, stamp := "", "", "";
    var k := 0;
    while k < |ms|
      invariant 0 <= k <= |ms|
      invariant page == LastValue(ms, "hl-page", k) && id == LastValue(ms, "id", k) && stamp == LastValue(ms, "hl-stamp", k)
    {
      if ms[k].0 == "hl-page" {
        page := ms[k].1;
      } else if ms[k].0 == "id" {
        id := ms[k].1;
      } else if ms[k].0 == "hl-stamp" {
        stamp := ms[k].1;
      }
      k := k + 1;
    }
  }

  /** The body of the bullet loop of `convert_names_to_data`. */
  method FormatBullet(b: HlsBullet) returns (r: Option<string>)
    ensures r == Formatted(b)
  {
    var text := Strip(b.text);
    if !StartsWith(text, "[:span]") {
      return None;
    }
    var page, id, stamp := ReadProperties(b.matches);
    if page != "" && id != "" && stamp != "" {
      r := Some(Strip(page) + "_" + Strip(id) + "_" + Strip(stamp));
    } else {
      r := None;
    }
  }

  /** Some bullet of some highlight page formats to `f`. */
  predicate FromBullets(hls: seq<seq<HlsBullet>>, f: string)
  {
    exists i, j :: 0 <= i < |hls| && 0 <= j < |hls[i]| && Formatted(hls[i][j]) == Some(f)
  }

  /** The bullets of one page, added to `acc`. */
  method CollectPage(page: seq<HlsBullet>, acc: set<string>) returns (r: set<string>)
    ensures forall f :: f in r <==> f in acc || exists j :: 0 <= j < |page| && Formatted(page[j]) == Some(f)
  {
    r := acc;
    var j := 0;
    while j < |page|
      invariant 0 <= j <= |page|
      invariant forall f :: f in r <==> f in acc || exists j' :: 0 <= j' < j && Formatted(page[j']) == Some(f)
    {
      var o := FormatBullet(page[j]);
      if o.Some? {
        r := r + {o.value};
      }
      j := j + 1;
    }
  }

  /** One page more adds exactly the strings that page's bullets format to. */
  lemma FromBulletsSnoc(hls: seq<seq<HlsBullet>>, i: int, f: string)
    requires 0 <= i < |hls|
    ensures FromBullets(hls[..i + 1], f) <==> FromBullets(hls[..i], f) || exists j :: 0 <= j < |hls[i]| && Formatted(hls[i][j]) == Some(f)
  {
    var pre, p := hls[..i + 1], hls[..i];
    if FromBullets(pre, f) {
      var a, b :| 0 <= a < i + 1 && 0 <= b < |pre[a]| && Formatted(pre[a][b]) == Some(f);
      assert pre[a] == hls[a];
      if a < i {
        assert p[a] == hls[a];
      }
    }
    if FromBullets(p, f) {
      var a, b :| 0 <= a < i && 0 <= b < |p[a]| && Formatted(p[a][b]) == Some(f);
      assert p[a] == hls[a] && pre[a] == hls[a];
    }
    if exists j :: 0 <= j < |hls[i]| && Formatted(hls[i][j]) == Some(f) {
      assert pre[i] == hls[i];
    }
  }

  /** The two loops of `convert_names_to_data`: every formatted bullet of every highlight page joins `acc`. */
  method CollectFormatted(hls: seq<seq<HlsBullet>>, acc: set<string>) returns (r: set<string>)
    ensures forall f :: f in r <==> f in acc || FromBullets(hls, f)
  {
    r := acc;
    var i := 0;
    while i < |hls|
      invariant 0 <= i <= |hls|
      invariant forall f :: f in r <==> f in acc || FromBullets(hls[..i], f)
    {
      r := CollectPage(hls[i], r);
      forall f
        ensures FromBullets(hls[..i + 1], f) <==> FromBullets(hls[..i], f) || exists j :: 0 <= j < |hls[i]| && Formatted(hls[i][j]) == Some(f)
      {
        FromBulletsSnoc(hls, i, f);
      }
      i := i + 1;
    }
    assert hls[..i] == hls;
  }

  /** `check_backlinks` as written: the backlinked set is the asset names intersected with themselves. */
  function BacklinkSetsAsWritten(names: set<string>, formatted: set<string>): (set<string>, set<string>)
  {
    (names * names, names - formatted)
  }

  /** As written, a name no bullet formats to is both backlinked and not backlinked. */
  lemma BacklinkSetsAsWrittenOverlap()
    ensures var r := BacklinkSetsAsWritten({"a.pdf"}, {});
      "a.pdf" in r.0 && "a.pdf" in r.1
  {
  }

  /** `check_backlinks` as evidently intended: a name is backlinked when some highlight bullet formats to it. */
  function BacklinkSets(names: set<string>, formatted: set<string>): (r: (set<string>, set<string>))
    ensures r.0 * r.1 == {}
    ensures r.0 + r.1 == names
    ensures forall n :: n in r.0 <==> n in names && n in formatted
  {
    (names * formatted, names - formatted)
  }

  /** Some name of `names` is mapped to position `p`. */
  predicate Targets(mapping: map<string, nat>, names: set<string>, p: int)
  {
    exists n :: n in names && n in mapping && mapping[n] == p
  }

  /**
   * One loop of `update_sub_asset_files`: each file a name of `names` maps
   * to gets the flag `value` and the type `asset`; the others are untouched.
   * A name missing from the mapping would raise `KeyError`.
   */
  method MarkNames(mapping: map<string, nat>, names: set<string>, value: bool, files: seq<GFile>, bl: seq<bool>)
    returns (files': seq<GFile>, bl': seq<bool>)
    requires |bl| == |files| && names <= mapping.Keys
    requires forall n :: n in mapping ==> mapping[n] < |files|
    ensures |files'| == |files| && |bl'| == |bl|
    ensures forall p :: 0 <= p < |files| ==>
      files'[p] == (if Targets(mapping, names, p) then files[p].(fileType := "asset") else files[p])
    ensures forall p :: 0 <= p < |bl| ==> bl'[p] == (if Targets(mapping, names, p) then value else bl[p])
  {
    files', bl' := files, bl;
    var todo := names;
    while todo != {}
      invariant todo <= names && |files'| == |files| && |bl'| == |bl|
      invariant forall p :: 0 <= p < |files| ==>
        files'[p] == (if Targets(mapping, names - todo, p) then files[p].(fileType := "asset") else files[p])
      invariant forall p :: 0 <= p < |bl| ==> bl'[p] == (if Targets(mapping, names - todo, p) then value else bl[p])
      decreases |todo|
    {
      var n :| n in todo;
      var h := mapping[n];
      ghost var done := names - todo;
      files' := files'[h := files[h].(fileType := "asset")];
      bl' := bl'[h := value];
      todo := todo - {n};
      forall p | 0 <= p < |files|
        ensures Targets(mapping, names - todo, p) <==> Targets(mapping, done, p) || p == h
      {
        if Targets(mapping, names - todo, p) {
          var m :| m in names - todo && m in mapping && mapping[m] == p;
          if m != n {
            assert m in done;
          }
        }
        if Targets(mapping, done, p) {
          var m :| m in done && m in mapping && mapping[m] == p;
          assert m in names - todo;
        }
        if p == h {
          assert n in names - todo;
        }
      }
    }
  }

  /** `update_sub_asset_files`: the backlinked names, then the not backlinked ones. */
  method UpdateSubAssetFiles(mapping: map<string, nat>, backlinked: set<string>, notBacklinked: set<string>,
                             files: seq<GFile>, bl: seq<bool>)
    returns (files': seq<GFile>, bl': seq<bool>)
    requires |bl| == |files| && backlinked <= mapping.Keys && notBacklinked <= mapping.Keys
    requires forall n :: n in mapping ==> mapping[n] < |files|
    ensures |files'| == |files| && |bl'| == |bl|
    ensures forall p :: 0 <= p < |files| ==>
      files'[p] == (if Targets(mapping, backlinked, p) || Targets(mapping, notBacklinked, p)
                    then files[p].(fileType := "asset") else files[p])
    ensures forall p :: 0 <= p < |bl| ==>
      bl'[p] == (if Targets(mapping, notBacklinked, p) then false
                 else if Targets(mapping, backlinked, p) then true else bl[p])
  {
    var f1, b1 := MarkNames(mapping, backlinked, true, files, bl);
    files', bl' := MarkNames(mapping, notBacklinked, false, f1, b1);
  }

  /**
   * Whichever backlinked set `check_backlinks` hands on, the files end the
   * same: every mapped file is an `asset`, and its flag is set exactly when
   * some highlight bullet formats to its name.
   */
  lemma SubAssetFlags(mapping: map<string, nat>, formatted: set<string>, files: seq<GFile>, bl: seq<bool>, n: string)
    requires NamesFiles(mapping, files) && n in mapping
    ensures var w := BacklinkSetsAsWritten(mapping.Keys, formatted);
      var c := BacklinkSets(mapping.Keys, formatted);
      Targets(mapping, w.0, mapping[n]) && Targets(mapping, c.0, mapping[n]) == (n in formatted) &&
      Targets(mapping, w.1, mapping[n]) == (n !in formatted) &&
      Targets(mapping, c.1, mapping[n]) == (n !in formatted)
  {
    var w := BacklinkSetsAsWritten(mapping.Keys, formatted);
    var c := BacklinkSets(mapping.Keys, formatted);
    forall m | m in mapping && mapping[m] == mapping[n]
      ensures m == n
    {
    }
    assert n in w.0;
  }

  /** The singleton of the highlight-page pass. */
  class LogseqAssetsHls {
    var assetMapping: map<string, nat>
    var assetNames: set<string>
    var backlinked: set<string>
    var formattedBullets: set<string>
    var notBacklinked: set<string>

    constructor()
      ensures assetMapping == map[] && assetNames == {}
      ensures backlinked == {} && formattedBullets == {} && notBacklinked == {}
    {
      assetMapping := map[];
      assetNames := {};
      backlinked := {};
      formattedBullets := {};
      notBacklinked := {};
    }

    /** `get_asset_files`: the `sub_asset` files by name, and their names. */
    method GetAssetFiles(files: seq<GFile>)
      modifies this`assetMapping, this`assetNames
      ensures assetMapping == SubAssetMapping(files, |files|) && assetNames == assetMapping.Keys
      ensures NamesFiles(assetMapping, files)
    {
      assetMapping := SubAssetMapping(files, |files|);
      assetNames := assetMapping.Keys;
    }

    /** `convert_names_to_data`: the formatted bullets of the highlight pages join those already collected. */
    method ConvertNamesToData(hls: seq<seq<HlsBullet>>)
      modifies this`formattedBullets
      ensures forall f :: f in formattedBullets <==> f in old(formattedBullets) || FromBullets(hls, f)
    {
      formattedBullets := CollectFormatted(hls, formattedBullets);
    }

    /**
     * `check_backlinks`, with the intended backlinked set, then
     * `update_sub_asset_files` on the index's files and flags.
     */
    method CheckBacklinks(files: seq<GFile>, bl: seq<bool>) returns (files': seq<GFile>, bl': seq<bool>)
      modifies this`backlinked, this`notBacklinked
      requires |bl| == |files| && assetNames <= assetMapping.Keys
      requires forall n :: n in assetMapping ==> assetMapping[n] < |files|
      ensures (backlinked, notBacklinked) == BacklinkSets(assetNames, formattedBullets)
      ensures |files'| == |files| && |bl'| == |bl|
      ensures forall p :: 0 <= p < |files| ==>
        files'[p] == (if Targets(assetMapping, assetNames, p) then files[p].(fileType := "asset") else files[p])
      ensures forall p :: 0 <= p < |bl| ==>
        bl'[p] == (if Targets(assetMapping, notBacklinked, p) then false
                   else if Targets(assetMapping, backlinked, p) then true else bl[p])
    {
      backlinked := assetNames * formattedBullets;
      notBacklinked := assetNames - formattedBullets;
      files', bl' := UpdateSubAssetFiles(assetMapping, backlinked, notBacklinked, files, bl);
      forall p | 0 <= p < |files|
        ensures Targets(assetMapping, assetNames, p) <==> Targets(assetMapping, backlinked, p) || Targets(assetMapping, notBacklinked, p)
      {
        if Targets(assetMapping, assetNames, p) {
          var m :| m in assetNames && m in assetMapping && assetMapping[m] == p;
          assert m in backlinked || m in notBacklinked;
        }
      }
    }
  }
}

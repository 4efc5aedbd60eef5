/**
 * The built-in property names Logseq reserves, and the split of a page's
 * property names into built-in and user-defined ones.
 */
module Properties {
  import opened Filters

  /** `BUILT_INS`, a frozenset: the name listed twice counts once. */
  const BuiltIns: set<string> := {
    "alias", "aliases", "background_color", "background-color", "collapsed",
    "created_at", "created-at", "custom-id", "doing", "done",
    "exclude-from-graph-view", "filetags", "filters", "heading", "hl-color",
    "hl-page", "hl-stamp", "hl-type", "icon", "id",
    "last_modified_at", "last-modified-at", "later", "logseq.color", "logseq.macro-arguments",
    "logseq.macro-name", "logseq.order-list-type", "logseq.query/nlp-date", "logseq.table.borders", "logseq.table.compact",
    "logseq.table.headers", "logseq.table.hover", "logseq.table.max-width", "logseq.table.stripes", "logseq.table.version",
    "logseq.tldraw.page", "logseq.tldraw.shape", "logseq.tldraw.shape", "ls-type", "macro",
    "now", "public", "query-properties", "query-sort-by", "query-sort-desc",
    "query-table", "tags", "template-including-parent", "template", "title",
    "todo", "updated-at"
  }

  /** The elements of `props` whose membership in `builtIns` is `inside`, in their order. */
  function Select(props: seq<string>, builtIns: set<string>, inside: bool): (r: seq<string>)
    ensures IsSubsequence(r, props)
    ensures forall p :: p in r ==> (p in builtIns <==> inside)
    ensures forall p :: multiset(r)[p] == if (p in builtIns) == inside then multiset(props)[p] else 0
    decreases |props|
  {
    if props == [] then []
    else
      var rest := Select(props[1..], builtIns, inside);
      assert props == [props[0]] + props[1..];
      if (props[0] in builtIns) == inside then [props[0]] + rest else rest
  }

  /**
   * `split_builtin_user_properties`: an order-preserving partition, every
   * occurrence landing in exactly one list, the built-in list holding the
   * configured built-in names and the user list all others.
   */
  function SplitBuiltinUserProperties(props: seq<string>, builtIns: set<string>): (r: (seq<string>, seq<string>))
    ensures IsSubsequence(r.0, props) && IsSubsequence(r.1, props)
    ensures forall p :: p in r.0 ==> p in builtIns
    ensures forall p :: p in r.1 ==> p !in builtIns
    ensures multiset(r.0) + multiset(r.1) == multiset(props)
    ensures |r.0| + |r.1| == |props|
  {
    var builtIn := Select(props, builtIns, true);
    var user := Select(props, builtIns, false);
    assert multiset(builtIn) + multiset(user) == multiset(props);
    assert |multiset(builtIn) + multiset(user)| == |multiset(props)|;
    (builtIn, user)
  }

  /** A property name occurring in the input is in exactly one of the two lists. */
  lemma SplitPlacesEach(props: seq<string>, builtIns: set<string>, p: string)
    requires p in props
    ensures p in SplitBuiltinUserProperties(props, builtIns).0 <==> p in builtIns
    ensures p in SplitBuiltinUserProperties(props, builtIns).1 <==> p !in builtIns
  {
    var r := SplitBuiltinUserProperties(props, builtIns);
    assert multiset(props)[p] > 0;
    assert p in r.0 <==> multiset(r.0)[p] > 0;
    assert p in r.1 <==> multiset(r.1)[p] > 0;
    assert multiset(r.0)[p] == if p in builtIns then multiset(props)[p] else 0;
    assert multiset(r.1)[p] == if p !in builtIns then multiset(props)[p] else 0;
  }

  /** A page whose properties are all built-in has no user properties. */
  lemma AllBuiltInHaveNoUser(props: seq<string>, builtIns: set<string>)
    requires forall k :: 0 <= k < |props| ==> props[k] in builtIns
    ensures SplitBuiltinUserProperties(props, builtIns).1 == []
  {
  }
}

/**
 * The machinery every namespace analysis shares.  An analysis walks the
 * `parts` dict of each namespaced page, a nested loop over entries and their
 * `(part, level)` items, and folds what it meets into sets, counters and
 * lists.  Here that walk is one stream of occurrences and one generic fold
 * over it; each accumulator is a step function with a lemma saying what the
 * fold of that step holds.  Also here: the nested part tree, the
 * "part level" keys of depth conflicts, and the level-length prefixes of the
 * pages in a conflict.
 */
module NamespaceCore {
  import opened Wrappers
  import opened PyStr
  import opened PyInt

  /** One item of a `parts` dict: a part name and its level. */
  datatype Part = Part(part: string, level: int)

  /** A namespace entry: a page name and its `parts` dict, in insertion order. */
  datatype Entry = Entry(name: string, parts: seq<Part>)

  /** One `(part, level)` item of one entry, as the nested loops meet it. */
  datatype Occurrence = Occurrence(entry: string, part: string, level: int)

  /** An item of `_part_entries[part]`: `{"entry": ..., "level": ...}`. */
  datatype Placed = Placed(entry: string, level: int)

  /** The value at `k`, or the default a `defaultdict` or `Counter` gives. */
  function Get<K, V>(m: map<K, V>, k: K, d: V): V
  {
    if k in m then m[k] else d
  }

  // ---------------------------------------------------------------------
  // The occurrence stream and the fold over it
  // ---------------------------------------------------------------------

  /** The items of one entry's parts, in dict order. */
  function PartOccurrences(name: string, parts: seq<Part>): (r: seq<Occurrence>)
    ensures |r| == |parts|
    ensures forall j :: 0 <= j < |parts| ==> r[j] == Occurrence(name, parts[j].part, parts[j].level)
    decreases |parts|
  {
    if parts == [] then []
    else
      var p := parts[|parts| - 1];
      PartOccurrences(name, parts[..|parts| - 1]) + [Occurrence(name, p.part, p.level)]
  }

  /** The items of all entries, entry by entry. */
  function Occurrences(entries: seq<Entry>): seq<Occurrence>
    decreases |entries|
  {
    if entries == [] then []
    else
      var e := entries[|entries| - 1];
      Occurrences(entries[..|entries| - 1]) + PartOccurrences(e.name, e.parts)
  }

  /** Entry `e` has part `o.part` at level `o.level`. */
  predicate Holds(e: Entry, o: Occurrence)
  {
    o.entry == e.name && Part(o.part, o.level) in e.parts
  }

  lemma {:induction false} PartOccurrencesMembers(name: string, parts: seq<Part>, o: Occurrence)
    ensures o in PartOccurrences(name, parts) <==> Holds(Entry(name, parts), o)
  {
    var r := PartOccurrences(name, parts);
    if o in r {
      var j :| 0 <= j < |r| && r[j] == o;
      assert parts[j] == Part(o.part, o.level);
    }
  }

  /** An occurrence is met exactly when some entry has that part at that level. */
  lemma {:induction false} OccurrencesMembers(entries: seq<Entry>, o: Occurrence)
    ensures o in Occurrences(entries) <==> exists e :: e in entries && Holds(e, o)
    decreases |entries|
  {
    if entries != [] {
      var n := |entries| - 1;
      var init := entries[..n];
      var e := entries[n];
      assert entries == init + [e];
      OccurrencesMembers(init, o);
      PartOccurrencesMembers(e.name, e.parts, o);
    }
  }

  /** The left fold of `f` over a stream, starting from `a`. */
  function Fold<A>(f: (A, Occurrence) -> A, a: A, s: seq<Occurrence>): A
    decreases |s|
  {
    if s == [] then a else f(Fold(f, a, s[..|s| - 1]), s[|s| - 1])
  }

  lemma {:induction false} FoldAppend<A>(f: (A, Occurrence) -> A, a: A, s: seq<Occurrence>, t: seq<Occurrence>)
    ensures Fold(f, a, s + t) == Fold(f, Fold(f, a, s), t)
    decreases |t|
  {
    if t == [] {
      assert s + t == s;
    } else {
      assert (s + t)[..|s + t| - 1] == s + t[..|t| - 1];
      FoldAppend(f, a, s, t[..|t| - 1]);
    }
  }

  /** `for part, level in parts.items(): a = f(a, ...)` for one entry. */
  method FoldParts<A>(f: (A, Occurrence) -> A, a0: A, e: Entry) returns (a: A)
    ensures a == Fold(f, a0, PartOccurrences(e.name, e.parts))
  {
    a := a0;
    for j := 0 to |e.parts|
      invariant a == Fold(f, a0, PartOccurrences(e.name, e.parts[..j]))
    {
      var p := e.parts[j];
      assert e.parts[..j + 1][..j] == e.parts[..j];
      a := f(a, Occurrence(e.name, p.part, p.level));
    }
    assert e.parts[..|e.parts|] == e.parts;
  }

  /** The analyses' nested loop: every entry, then every item of its parts. */
  method FoldEntries<A>(f: (A, Occurrence) -> A, a0: A, entries: seq<Entry>) returns (a: A)
    ensures a == Fold(f, a0, Occurrences(entries))
  {
    a := a0;
    for i := 0 to |entries|
      invariant a == Fold(f, a0, Occurrences(entries[..i]))
    {
      assert entries[..i + 1][..i] == entries[..i];
      FoldAppend(f, a0, Occurrences(entries[..i]), PartOccurrences(entries[i].name, entries[i].parts));
      a := FoldParts(f, a, entries[i]);
    }
    assert entries[..|entries|] == entries;
  }

  /** Two accumulators updated side by side in one loop. */
  function Both<A, B>(f: (A, Occurrence) -> A, g: (B, Occurrence) -> B): ((A, B), Occurrence) -> (A, B)
  {
    (ab: (A, B), o: Occurrence) => (f(ab.0, o), g(ab.1, o))
  }

  /** Folding two steps side by side is folding each on its own. */
  lemma {:induction false} FoldBoth<A, B>(f: (A, Occurrence) -> A, g: (B, Occurrence) -> B, a: A, b: B, s: seq<Occurrence>)
    ensures Fold(Both(f, g), (a, b), s) == (Fold(f, a, s), Fold(g, b, s))
    decreases |s|
  {
    if s != [] {
      FoldBoth(f, g, a, b, s[..|s| - 1]);
    }
  }

  // ---------------------------------------------------------------------
  // What the stream holds
  // ---------------------------------------------------------------------

  /** Every part met. */
  function PartsOf(s: seq<Occurrence>): set<string>
  {
    set o | o in s :: o.part
  }

  /** Every level met. */
  function LevelsOf(s: seq<Occurrence>): set<int>
  {
    set o | o in s :: o.level
  }

  /** The parts met at level `l`. */
  function PartsAtLevel(s: seq<Occurrence>, l: int): set<string>
  {
    set o | o in s && o.level == l :: o.part
  }

  /** The levels at which part `p` is met. */
  function LevelsOfPart(s: seq<Occurrence>, p: string): set<int>
  {
    set o | o in s && o.part == p :: o.level
  }

  /** How many items sit at level `l`. */
  function LevelCount(s: seq<Occurrence>, l: int): nat
    decreases |s|
  {
    if s == [] then 0 else LevelCount(s[..|s| - 1], l) + (if s[|s| - 1].level == l then 1 else 0)
  }

  /** How many items are part `p` at level `l`. */
  function PairCount(s: seq<Occurrence>, p: string, l: int): nat
    decreases |s|
  {
    if s == [] then 0
    else PairCount(s[..|s| - 1], p, l) + (if s[|s| - 1].part == p && s[|s| - 1].level == l then 1 else 0)
  }

  /** The `{"entry", "level"}` records of part `p`, in stream order. */
  function PlacedOf(s: seq<Occurrence>, p: string): seq<Placed>
    decreases |s|
  {
    if s == [] then []
    else
      var o := s[|s| - 1];
      PlacedOf(s[..|s| - 1], p) + (if o.part == p then [Placed(o.entry, o.level)] else [])
  }

  /** The entries in which part `p` is met, once per item, in stream order. */
  function EntriesWith(s: seq<Occurrence>, p: string): seq<string>
    decreases |s|
  {
    if s == [] then []
    else
      var o := s[|s| - 1];
      EntriesWith(s[..|s| - 1], p) + (if o.part == p then [o.entry] else [])
  }

  /** The entries of the records at level `l`, in order. */
  function AtLevel(placed: seq<Placed>, l: int): seq<string>
    decreases |placed|
  {
    if placed == [] then []
    else
      var q := placed[|placed| - 1];
      AtLevel(placed[..|placed| - 1], l) + (if q.level == l then [q.entry] else [])
  }

  lemma PartsSnoc(s: seq<Occurrence>, o: Occurrence)
    ensures PartsOf(s + [o]) == PartsOf(s) + {o.part}
  {
  }

  lemma LevelsSnoc(s: seq<Occurrence>, o: Occurrence)
    ensures LevelsOf(s + [o]) == LevelsOf(s) + {o.level}
  {
  }

  lemma PartsAtLevelSnoc(s: seq<Occurrence>, o: Occurrence, l: int)
    ensures PartsAtLevel(s + [o], l) == PartsAtLevel(s, l) + (if o.level == l then {o.part} else {})
  {
  }

  lemma LevelsOfPartSnoc(s: seq<Occurrence>, o: Occurrence, p: string)
    ensures LevelsOfPart(s + [o], p) == LevelsOfPart(s, p) + (if o.part == p then {o.level} else {})
  {
  }

  /** A level has a positive count exactly when it is met. */
  lemma {:induction false} LevelCountPositive(s: seq<Occurrence>, l: int)
    ensures LevelCount(s, l) > 0 <==> l in LevelsOf(s)
    decreases |s|
  {
    if s != [] {
      var init := s[..|s| - 1];
      assert s == init + [s[|s| - 1]];
      LevelCountPositive(init, l);
      LevelsSnoc(init, s[|s| - 1]);
    }
  }

  /** A part's records at a level are there exactly when the part is met at that level. */
  lemma {:induction false} AtLevelNonEmpty(s: seq<Occurrence>, p: string, l: int)
    ensures AtLevel(PlacedOf(s, p), l) != [] <==> l in LevelsOfPart(s, p)
    decreases |s|
  {
    if s != [] {
      var init := s[..|s| - 1];
      var o := s[|s| - 1];
      assert s == init + [o];
      AtLevelNonEmpty(init, p, l);
      LevelsOfPartSnoc(init, o, p);
      var t := if o.part == p then [Placed(o.entry, o.level)] else [];
      AtLevelAppend(PlacedOf(init, p), t, l);
    }
  }

  lemma {:induction false} AtLevelAppend(a: seq<Placed>, b: seq<Placed>, l: int)
    ensures AtLevel(a + b, l) == AtLevel(a, l) + AtLevel(b, l)
    decreases |b|
  {
    if b == [] {
      assert a + b == a;
    } else {
      assert (a + b)[..|a + b| - 1] == a + b[..|b| - 1];
      AtLevelAppend(a, b[..|b| - 1], l);
    }
  }

  // ---------------------------------------------------------------------
  // The accumulators
  // ---------------------------------------------------------------------

  /** `unique_namespace_parts.add(part)`. */
  function AddUniquePart(u: set<string>, o: Occurrence): set<string>
  {
    u + {o.part}
  }

  /** `unique_namespaces_per_level[level].add(part)`. */
  function AddToLevel(m: map<int, set<string>>, o: Occurrence): map<int, set<string>>
  {
    m[o.level := Get(m, o.level, {}) + {o.part}]
  }

  /** `level_distribution[level] += 1`. */
  function CountLevel(m: map<int, nat>, o: Occurrence): map<int, nat>
  {
    m[o.level := Get(m, o.level, 0) + 1]
  }

  /** `_part_levels[part].add(level)`. */
  function AddPartLevel(m: map<string, set<int>>, o: Occurrence): map<string, set<int>>
  {
    m[o.part := Get(m, o.part, {}) + {o.level}]
  }

  /** `_part_entries[part].append({"entry": entry, "level": level})`. */
  function AddPartEntry(m: map<string, seq<Placed>>, o: Occurrence): map<string, seq<Placed>>
  {
    m[o.part := Get(m, o.part, []) + [Placed(o.entry, o.level)]]
  }

  /** `if part in names: conflicts[part].append(entry)`. */
  function AddConflict(names: set<string>, m: map<string, seq<string>>, o: Occurrence): map<string, seq<string>>
  {
    if o.part in names then m[o.part := Get(m, o.part, []) + [o.entry]] else m
  }

  /** The conflict step for one set of candidate names. */
  function ConflictStep(names: set<string>): (map<string, seq<string>>, Occurrence) -> map<string, seq<string>>
  {
    (m: map<string, seq<string>>, o: Occurrence) => AddConflict(names, m, o)
  }

  /** The unique parts are those already there and every part met. */
  lemma {:induction false} FoldUniqueParts(u: set<string>, s: seq<Occurrence>)
    ensures Fold(AddUniquePart, u, s) == u + PartsOf(s)
    decreases |s|
  {
    if s != [] {
      var init := s[..|s| - 1];
      assert s == init + [s[|s| - 1]];
      FoldUniqueParts(u, init);
      PartsSnoc(init, s[|s| - 1]);
    }
  }

  /** Level `l` holds exactly the parts met at `l`, and is a key once anything sits there. */
  lemma {:induction false} FoldPerLevel(m: map<int, set<string>>, s: seq<Occurrence>, l: int)
    ensures l in Fold(AddToLevel, m, s) <==> l in m || l in LevelsOf(s)
    ensures Get(Fold(AddToLevel, m, s), l, {}) == Get(m, l, {}) + PartsAtLevel(s, l)
    decreases |s|
  {
    if s != [] {
      var init := s[..|s| - 1];
      assert s == init + [s[|s| - 1]];
      FoldPerLevel(m, init, l);
      LevelsSnoc(init, s[|s| - 1]);
      PartsAtLevelSnoc(init, s[|s| - 1], l);
    }
  }

  /** Level `l` counts the items at `l`, and is a key once one is met. */
  lemma {:induction false} FoldDistribution(m: map<int, nat>, s: seq<Occurrence>, l: int)
    ensures l in Fold(CountLevel, m, s) <==> l in m || l in LevelsOf(s)
    ensures Get(Fold(CountLevel, m, s), l, 0) == Get(m, l, 0) + LevelCount(s, l)
    decreases |s|
  {
    if s != [] {
      var init := s[..|s| - 1];
      assert s == init + [s[|s| - 1]];
      FoldDistribution(m, init, l);
      LevelsSnoc(init, s[|s| - 1]);
    }
  }

  /** From an empty `Counter`, the distribution's keys are the levels met. */
  lemma DistributionKeys(s: seq<Occurrence>)
    ensures Fold(CountLevel, map[], s).Keys == LevelsOf(s)
  {
    forall l
      ensures l in Fold(CountLevel, map[], s) <==> l in LevelsOf(s)
    {
      FoldDistribution(map[], s, l);
    }
  }

  /** Part `p` records exactly the levels it is met at. */
  lemma {:induction false} FoldPartLevels(m: map<string, set<int>>, s: seq<Occurrence>, p: string)
    ensures p in Fold(AddPartLevel, m, s) <==> p in m || p in PartsOf(s)
    ensures Get(Fold(AddPartLevel, m, s), p, {}) == Get(m, p, {}) + LevelsOfPart(s, p)
    decreases |s|
  {
    if s != [] {
      var init := s[..|s| - 1];
      assert s == init + [s[|s| - 1]];
      FoldPartLevels(m, init, p);
      PartsSnoc(init, s[|s| - 1]);
      LevelsOfPartSnoc(init, s[|s| - 1], p);
    }
  }

  /** Part `p` lists a record per item of `p`, in stream order. */
  lemma {:induction false} FoldPartEntries(m: map<string, seq<Placed>>, s: seq<Occurrence>, p: string)
    ensures p in Fold(AddPartEntry, m, s) <==> p in m || p in PartsOf(s)
    ensures Get(Fold(AddPartEntry, m, s), p, []) == Get(m, p, []) + PlacedOf(s, p)
    decreases |s|
  {
    if s != [] {
      var init := s[..|s| - 1];
      assert s == init + [s[|s| - 1]];
      FoldPartEntries(m, init, p);
      PartsSnoc(init, s[|s| - 1]);
    }
  }

  /**
   * A candidate part lists every entry it is met in, once per item; a part
   * that is not a candidate gains nothing.
   */
  lemma {:induction false} FoldConflicts(names: set<string>, m: map<string, seq<string>>, s: seq<Occurrence>, p: string)
    ensures p in Fold(ConflictStep(names), m, s) <==> p in m || (p in names && p in PartsOf(s))
    ensures Get(Fold(ConflictStep(names), m, s), p, []) == Get(m, p, []) + (if p in names then EntriesWith(s, p) else [])
    decreases |s|
  {
    if s != [] {
      var init := s[..|s| - 1];
      assert s == init + [s[|s| - 1]];
      FoldConflicts(names, m, init, p);
      PartsSnoc(init, s[|s| - 1]);
    }
  }

  /** A non-empty set of levels has a member to pick. */
  lemma LevelToPick(s: set<int>)
    requires s != {}
    ensures exists l :: l in s
  {
    if forall l :: l !in s {
      assert false;
    }
  }

  /** `max(level_distribution) if level_distribution else 0`. */
  method MaxDepth(dist: map<int, nat>) returns (r: int)
    ensures dist.Keys == {} ==> r == 0
    ensures dist.Keys != {} ==> r in dist.Keys && forall l :: l in dist.Keys ==> l <= r
  {
    r := 0;
    var todo := dist.Keys;
    var seen := false;
    while todo != {}
      invariant todo <= dist.Keys
      invariant !seen ==> todo == dist.Keys && r == 0
      invariant seen ==> r in dist.Keys && forall l :: l in dist.Keys && l !in todo ==> l <= r
      decreases |todo|
    {
      LevelToPick(todo);
      var k :| k in todo;
      if !seen || r < k {
        r := k;
      }
      seen := true;
      todo := todo - {k};
    }
  }

  // ---------------------------------------------------------------------
  // The nested part tree
  // ---------------------------------------------------------------------

  /** The tree of nested dicts: each part maps to the dict of the parts below it. */
  datatype Tree = Tree(children: map<string, Tree>)

  /** The names of a `parts` dict, in order. */
  function PartNames(parts: seq<Part>): (r: seq<string>)
    ensures |r| == |parts|
    ensures forall j :: 0 <= j < |parts| ==> r[j] == parts[j].part
    decreases |parts|
  {
    if parts == [] then [] else PartNames(parts[..|parts| - 1]) + [parts[|parts| - 1].part]
  }

  /**
   * Walking `current_level` down `path`, adding `{}` for each part not yet
   * there (`setdefault(part, {})`).
   */
  function Insert(t: Tree, path: seq<string>): Tree
    decreases |path|
  {
    if path == [] then t
    else
      var child := if path[0] in t.children then t.children[path[0]] else Tree(map[]);
      Tree(t.children[path[0] := Insert(child, path[1..])])
  }

  /** `path` can be walked from the root of `t`. */
  predicate HasPath(t: Tree, path: seq<string>)
    decreases |path|
  {
    path == [] || (path[0] in t.children && HasPath(t.children[path[0]], path[1..]))
  }

  /**
   * After inserting `p`, the walkable paths are the old ones and the
   * prefixes of `p`: nothing is lost and nothing else is added.
   */
  lemma {:induction false} InsertPaths(t: Tree, p: seq<string>, q: seq<string>)
    ensures HasPath(Insert(t, p), q) <==> HasPath(t, q) || q <= p
    decreases |p|
  {
    if p != [] && q != [] {
      var child := if p[0] in t.children then t.children[p[0]] else Tree(map[]);
      if q[0] == p[0] {
        InsertPaths(child, p[1..], q[1..]);
        assert q <= p <==> q[1..] <= p[1..];
        if p[0] !in t.children {
          assert HasPath(child, q[1..]) <==> q[1..] == [];
        }
      }
    }
  }

  /** The tree after inserting each entry's parts in turn. */
  function TreeOf(t: Tree, entries: seq<Entry>): Tree
    decreases |entries|
  {
    if entries == [] then t
    else Insert(TreeOf(t, entries[..|entries| - 1]), PartNames(entries[|entries| - 1].parts))
  }

  /** The tree holds each entry's parts, in order, as a root-to-node path, and nothing more. */
  lemma {:induction false} TreeOfPaths(t: Tree, entries: seq<Entry>, q: seq<string>)
    ensures HasPath(TreeOf(t, entries), q) <==>
      HasPath(t, q) || exists e :: e in entries && q <= PartNames(e.parts)
    decreases |entries|
  {
    if entries != [] {
      var init := entries[..|entries| - 1];
      var e := entries[|entries| - 1];
      assert entries == init + [e];
      TreeOfPaths(t, init, q);
      InsertPaths(TreeOf(t, init), PartNames(e.parts), q);
    }
  }

  /** The tree-building loop: `current_level` starts at the root for every entry. */
  method BuildTree(t0: Tree, entries: seq<Entry>) returns (t: Tree)
    ensures t == TreeOf(t0, entries)
  {
    t := t0;
    for i := 0 to |entries|
      invariant t == TreeOf(t0, entries[..i])
    {
      assert entries[..i + 1][..i] == entries[..i];
      t := Insert(t, PartNames(entries[i].parts));
    }
    assert entries[..|entries|] == entries;
  }

  // ---------------------------------------------------------------------
  // Depth-conflict keys
  // ---------------------------------------------------------------------

  /** `f"{part} {level}"`. */
  function DepthKey(part: string, level: int): string
  {
    part + " " + IntToString(level)
  }

  /** `key.rsplit(" ", 1)[-1]`, likewise `key.split(" ")[-1]`: the text after the last space. */
  function LastToken(s: string): (r: string)
    ensures |r| <= |s| && r == s[|s| - |r|..]
    ensures forall i :: 0 <= i < |r| ==> r[i] != ' '
    ensures |r| < |s| ==> s[|s| - |r| - 1] == ' '
    decreases |s|
  {
    if s == [] || s[|s| - 1] == ' ' then []
    else
      var init := LastToken(s[..|s| - 1]);
      assert s[..|s| - 1][|s| - 1 - |init|..] == s[|s| - 1 - |init|..|s| - 1];
      init + [s[|s| - 1]]
  }

  /** `int(key.rsplit(" ", 1)[-1])`: a `ValueError` when the last token is not a number. */
  function KeyLevel(key: string): Result<int>
  {
    ParseInt(LastToken(key))
  }

  lemma NoSpaceInNumber(l: int)
    ensures forall i :: 0 <= i < |IntToString(l)| ==> IntToString(l)[i] != ' '
  {
    if l < 0 {
      var d := NatToString(-l);
      assert forall i :: 1 <= i < |"-" + d| ==> ("-" + d)[i] == d[i - 1];
    }
  }

  lemma {:induction false} LastTokenAfterSpace(prefix: string, d: string)
    requires forall i :: 0 <= i < |d| ==> d[i] != ' '
    ensures LastToken(prefix + " " + d) == d
    decreases |d|
  {
    var s := prefix + " " + d;
    if d == [] {
      assert s[|s| - 1] == ' ';
    } else {
      assert s[..|s| - 1] == prefix + " " + d[..|d| - 1];
      LastTokenAfterSpace(prefix, d[..|d| - 1]);
    }
  }

  /** Reading the level back from a key gives the level it was built from. */
  lemma KeyLevelOfDepthKey(part: string, level: int)
    ensures KeyLevel(DepthKey(part, level)) == Ok(level)
  {
    NoSpaceInNumber(level);
    LastTokenAfterSpace(part, IntToString(level));
    ParseIntToString(level);
  }

  /** Distinct (part, level) pairs never share a key. */
  lemma DepthKeyInjective(p1: string, l1: int, p2: string, l2: int)
    requires DepthKey(p1, l1) == DepthKey(p2, l2)
    ensures p1 == p2 && l1 == l2
  {
    KeyLevelOfDepthKey(p1, l1);
    KeyLevelOfDepthKey(p2, l2);
    PrefixOfKey(p1, l1);
    PrefixOfKey(p2, l2);
  }

  /** The part is what stands before the level's digits and their space. */
  lemma PrefixOfKey(part: string, level: int)
    ensures |part| == |DepthKey(part, level)| - 1 - |IntToString(level)|
    ensures part == DepthKey(part, level)[..|part|]
  {
    var k := DepthKey(part, level);
    assert k == part + (" " + IntToString(level));
  }

  /** Keys built for one part never clash with each other or with another part's. */
  lemma DepthKeysInjective()
    ensures forall p1, l1, p2, l2 :: DepthKey(p1, l1) == DepthKey(p2, l2) ==> p1 == p2 && l1 == l2
  {
    forall p1, l1, p2, l2 | DepthKey(p1, l1) == DepthKey(p2, l2)
      ensures p1 == p2 && l1 == l2
    {
      DepthKeyInjective(p1, l1, p2, l2);
    }
  }

  // ---------------------------------------------------------------------
  // Parts met at several depths
  // ---------------------------------------------------------------------

  /** `conflicts[part] = {"levels": ..., "entries": ...}`. */
  datatype PartConflict = PartConflict(levels: seq<int>, entries: seq<Placed>)

  predicate StrictlyIncreasing(s: seq<int>)
  {
    forall i, j :: 0 <= i < j < |s| ==> s[i] < s[j]
  }

  lemma {:induction false} LeastLevelExists(s: set<int>)
    requires s != {}
    ensures exists m :: m in s && forall x :: x in s ==> m <= x
    decreases |s|
  {
    LevelToPick(s);
    var x :| x in s;
    var rest := s - {x};
    if rest == {} {
      assert s == {x};
    } else {
      LeastLevelExists(rest);
      var m :| m in rest && forall y :: y in rest ==> m <= y;
      var least := if x < m then x else m;
      forall y | y in s
        ensures least <= y
      {
        if y != x {
          assert y in rest;
        }
      }
      assert least in s;
    }
  }

  /** `min(levels)`: a least member of a non-empty set. */
  function Least(s: set<int>): (m: int)
    requires s != {}
    ensures m in s && forall x :: x in s ==> m <= x
  {
    LeastLevelExists(s);
    var m :| m in s && forall x :: x in s ==> m <= x;
    m
  }

  /** `sorted(list(levels))`: the levels, each once, ascending (see `SortedLevelsSpec`). */
  function SortedLevels(s: set<int>): seq<int>
    decreases |s|
  {
    if s == {} then []
    else
      var m := Least(s);
      assert |s - {m}| < |s|;
      [m] + SortedLevels(s - {m})
  }

  /** The sorted levels are exactly the set's members, each once. */
  lemma {:induction false} SortedLevelsMembers(s: set<int>)
    ensures forall x :: x in SortedLevels(s) <==> x in s
    ensures |SortedLevels(s)| == |s|
    decreases |s|
  {
    if s != {} {
      var m := Least(s);
      assert SortedLevels(s) == [m] + SortedLevels(s - {m});
      SortedLevelsMembers(s - {m});
      assert |s - {m}| == |s| - 1;
    }
  }

  /** Putting a level below all others in front keeps a sequence ascending. */
  lemma ConsIncreasing(m: int, rest: seq<int>)
    requires StrictlyIncreasing(rest)
    requires forall x :: x in rest ==> m < x
    ensures StrictlyIncreasing([m] + rest)
  {
    var r := [m] + rest;
    forall i, j | 0 <= i < j < |r|
      ensures r[i] < r[j]
    {
      if i > 0 {
        assert r[i] == rest[i - 1] && r[j] == rest[j - 1];
      } else {
        assert r[j] == rest[j - 1] && rest[j - 1] in rest;
      }
    }
  }

  /** The sorted levels are strictly ascending. */
  lemma {:induction false} SortedLevelsIncreasing(s: set<int>)
    ensures StrictlyIncreasing(SortedLevels(s))
    decreases |s|
  {
    if s != {} {
      var m := Least(s);
      var rest := SortedLevels(s - {m});
      SortedLevelsIncreasing(s - {m});
      SortedLevelsMembers(s - {m});
      forall x | x in rest
        ensures m < x
      {
        assert x in s - {m};
      }
      ConsIncreasing(m, rest);
    }
  }

  /** The sorted levels are strictly ascending and are exactly the set's members. */
  lemma SortedLevelsSpec(s: set<int>)
    ensures StrictlyIncreasing(SortedLevels(s))
    ensures forall x :: x in SortedLevels(s) <==> x in s
    ensures |SortedLevels(s)| == |s|
  {
    SortedLevelsMembers(s);
    SortedLevelsIncreasing(s);
  }

  /** The parts met at two or more levels, with their sorted levels and their records. */
  function PartConflicts(pl: map<string, set<int>>, pe: map<string, seq<Placed>>): map<string, PartConflict>
  {
    map p | p in pl && |pl[p]| > 1 :: PartConflict(SortedLevels(pl[p]), Get(pe, p, []))
  }

  /** The "part level" keys of the conflicting parts of `c` among `done`. */
  function SplitKeys(c: map<string, PartConflict>, done: set<string>): set<string>
  {
    set p, l | p in done && p in c && l in c[p].levels :: DepthKey(p, l)
  }

  /** The keys added for one part. */
  function KeysOfPart(p: string, levels: seq<int>): set<string>
  {
    set l | l in levels :: DepthKey(p, l)
  }

  /**
   * `depth` is `conflicts_parent_depth` for the parts of `c` among `done`:
   * one "part level" key per conflicting part and level, holding the entries
   * that have the part at that level.
   */
  predicate SplitAmong(depth: map<string, seq<string>>, c: map<string, PartConflict>, done: set<string>)
  {
    depth.Keys == SplitKeys(c, done) &&
    forall p, l :: p in done && p in c && l in c[p].levels ==> depth[DepthKey(p, l)] == AtLevel(c[p].entries, l)
  }

  predicate IsSplit(depth: map<string, seq<string>>, c: map<string, PartConflict>)
  {
    SplitAmong(depth, c, c.Keys)
  }

  /** `d` is `depth` with a key per level of `levels` for part `p`, holding the entries at that level. */
  predicate PartSplitInto(d: map<string, seq<string>>, depth: map<string, seq<string>>, p: string, levels: seq<int>, entries: seq<Placed>)
  {
    d.Keys == depth.Keys + KeysOfPart(p, levels) &&
    (forall l :: l in levels ==> d[DepthKey(p, l)] == AtLevel(entries, l)) &&
    (forall k :: k in depth && k !in KeysOfPart(p, levels) ==> d[k] == depth[k])
  }

  /** One more level of a part: its key is added with the entries at that level. */
  lemma PartSplitStep(d: map<string, seq<string>>, depth: map<string, seq<string>>, p: string, levels: seq<int>, i: int, entries: seq<Placed>)
    requires 0 <= i < |levels|
    requires PartSplitInto(d, depth, p, levels[..i], entries)
    ensures PartSplitInto(d[DepthKey(p, levels[i]) := AtLevel(entries, levels[i])], depth, p, levels[..i + 1], entries)
  {
    assert levels[..i + 1] == levels[..i] + [levels[i]];
    forall l | l in levels[..i] && DepthKey(p, l) == DepthKey(p, levels[i])
      ensures l == levels[i]
    {
      DepthKeyInjective(p, l, p, levels[i]);
    }
  }

  /** `for level in levels: depth[f"{part} {level}"] = [entries at level]`. */
  method SplitPart(depth: map<string, seq<string>>, p: string, levels: seq<int>, entries: seq<Placed>)
    returns (d: map<string, seq<string>>)
    ensures PartSplitInto(d, depth, p, levels, entries)
  {
    d := depth;
    for i := 0 to |levels|
      invariant PartSplitInto(d, depth, p, levels[..i], entries)
    {
      PartSplitStep(d, depth, p, levels, i, entries);
      d := d[DepthKey(p, levels[i]) := AtLevel(entries, levels[i])];
    }
    assert levels[..|levels|] == levels;
  }

  lemma SplitStep(depth: map<string, seq<string>>, d: map<string, seq<string>>, c: map<string, PartConflict>, done: set<string>, p: string)
    requires p in c && p !in done
    requires SplitAmong(depth, c, done)
    requires PartSplitInto(d, depth, p, c[p].levels, c[p].entries)
    ensures SplitAmong(d, c, done + {p})
  {
    DepthKeysInjective();
    assert SplitKeys(c, done + {p}) == SplitKeys(c, done) + KeysOfPart(p, c[p].levels);
  }

  lemma SplitSkip(depth: map<string, seq<string>>, c: map<string, PartConflict>, done: set<string>, p: string)
    requires p !in c
    requires SplitAmong(depth, c, done)
    ensures SplitAmong(depth, c, done + {p})
  {
    assert SplitKeys(c, done + {p}) == SplitKeys(c, done);
  }

  /** The second loop of `detect_parent_depth_conflicts`: split each conflicting part by level. */
  method SplitConflicts(c: map<string, PartConflict>) returns (depth: map<string, seq<string>>)
    ensures IsSplit(depth, c)
  {
    depth := map[];
    var todo := c.Keys;
    ghost var done: set<string> := {};
    assert SplitKeys(c, done) == {};
    while todo != {}
      invariant todo + done == c.Keys && todo !! done
      invariant SplitAmong(depth, c, done)
      decreases todo
    {
      var p :| p in todo;
      var d := SplitPart(depth, p, c[p].levels, c[p].entries);
      SplitStep(depth, d, c, done, p);
      depth := d;
      todo := todo - {p};
      done := done + {p};
    }
  }

  function PartConflictsAmong(pl: map<string, set<int>>, pe: map<string, seq<Placed>>, done: set<string>): map<string, PartConflict>
  {
    map p | p in done && p in pl && |pl[p]| > 1 :: PartConflict(SortedLevels(pl[p]), Get(pe, p, []))
  }

  lemma KeepStep(pl: map<string, set<int>>, pe: map<string, seq<Placed>>, done: set<string>, p: string)
    requires p in pl
    ensures PartConflictsAmong(pl, pe, done + {p}) ==
      if |pl[p]| > 1 then PartConflictsAmong(pl, pe, done)[p := PartConflict(SortedLevels(pl[p]), Get(pe, p, []))]
      else PartConflictsAmong(pl, pe, done)
  {
  }

  /** The first loop of `detect_parent_depth_conflicts`: keep the parts met at two or more levels. */
  method ConflictingParts(pl: map<string, set<int>>, pe: map<string, seq<Placed>>) returns (c: map<string, PartConflict>)
    ensures c == PartConflicts(pl, pe)
  {
    c := map[];
    var todo := pl.Keys;
    ghost var done: set<string> := {};
    while todo != {}
      invariant todo + done == pl.Keys && todo !! done
      invariant c == PartConflictsAmong(pl, pe, done)
      decreases todo
    {
      var p :| p in todo;
      KeepStep(pl, pe, done, p);
      if |pl[p]| > 1 {
        c := c[p := PartConflict(SortedLevels(pl[p]), Get(pe, p, []))];
      }
      todo := todo - {p};
      done := done + {p};
    }
    assert PartConflictsAmong(pl, pe, done) == PartConflicts(pl, pe);
  }

  /** A conflicting part is on record at every one of its levels. */
  lemma SplitEntriesNonEmpty(s: seq<Occurrence>, depth: map<string, seq<string>>, p: string, l: int)
    requires IsSplit(depth, PartConflicts(Fold(AddPartLevel, map[], s), Fold(AddPartEntry, map[], s)))
    requires DepthKey(p, l) in depth
    ensures depth[DepthKey(p, l)] != []
  {
    var pl := Fold(AddPartLevel, map[], s);
    var pe := Fold(AddPartEntry, map[], s);
    var c := PartConflicts(pl, pe);
    var p', l' :| p' in c && l' in c[p'].levels && DepthKey(p', l') == DepthKey(p, l);
    DepthKeyInjective(p', l', p, l);
    assert depth[DepthKey(p, l)] == AtLevel(c[p].entries, l);
    FoldPartLevels(map[], s, p);
    FoldPartEntries(map[], s, p);
    assert c[p].entries == PlacedOf(s, p);
    SortedLevelsSpec(pl[p]);
    assert l in pl[p];
    assert l in LevelsOfPart(s, p);
    AtLevelNonEmpty(s, p, l);
  }

  // ---------------------------------------------------------------------
  // Level-length prefixes
  // ---------------------------------------------------------------------

  /** The namespace separator. */
  const NsSep: char := '/'

  /** Python's `s[:k]`, a negative `k` counting from the end. */
  function SliceTo<T>(s: seq<T>, k: int): (r: seq<T>)
    ensures r <= s
    ensures 0 <= k ==> |r| == if k <= |s| then k else |s|
  {
    if k >= 0 then (if k <= |s| then s[..k] else s)
    else if |s| + k >= 0 then s[..|s| + k] else []
  }

  /** `"/".join(page.split("/")[:level])`. */
  function Prefix(page: string, level: int): string
  {
    Join(SliceTo(Split(page, NsSep), level), NsSep)
  }

  /** The `unique_pages` set of one key. */
  function Prefixes(pages: seq<string>, level: int): set<string>
  {
    set page | page in pages :: Prefix(page, level)
  }

  lemma {:induction false} JoinPrefix(parts: seq<string>, k: nat, c: char)
    requires k <= |parts|
    ensures Join(parts[..k], c) <= Join(parts, c)
    decreases |parts|
  {
    if k < |parts| {
      var init := parts[..|parts| - 1];
      assert parts[..k] == init[..k];
      JoinPrefix(init, k, c);
      if |init| >= 1 {
        JoinSnoc(init, parts[|parts| - 1], c);
        assert init + [parts[|parts| - 1]] == parts;
      }
    } else {
      assert parts[..k] == parts;
    }
  }

  /** A prefix is a leading piece of its page, and the whole page once the level reaches its depth. */
  lemma PrefixOfPage(page: string, level: int)
    ensures Prefix(page, level) <= page
    ensures level >= |Split(page, NsSep)| ==> Prefix(page, level) == page
  {
    var parts := Split(page, NsSep);
    var r := SliceTo(parts, level);
    JoinPrefix(parts, |r|, NsSep);
    assert r == parts[..|r|];
    JoinSplit(page, NsSep);
    if level >= |parts| {
      assert r == parts;
    }
  }

  /** `for page in entries: unique_pages.add("/".join(page.split("/")[:level]))`. */
  method CollectPrefixes(pages: seq<string>, level: int) returns (u: set<string>)
    ensures u == Prefixes(pages, level)
  {
    u := {};
    for i := 0 to |pages|
      invariant u == Prefixes(pages[..i], level)
    {
      assert pages[..i + 1] == pages[..i] + [pages[i]];
      u := u + {Prefix(pages[i], level)};
    }
    assert pages[..|pages|] == pages;
  }

  /** Every key of the split holds the prefixes of its entries at its own level. */
  predicate ParentsOf(unique: map<string, set<string>>, c: map<string, PartConflict>)
  {
    unique.Keys == SplitKeys(c, c.Keys) &&
    forall p, l :: p in c && l in c[p].levels ==> unique[DepthKey(p, l)] == Prefixes(AtLevel(c[p].entries, l), l)
  }

  /**
   * `get_unique_parent_conflicts`: the level of each key is read back from
   * its last space-separated token; a token that is not a number raises.
   */
  method UniqueParentConflicts(depth: map<string, seq<string>>) returns (r: Result<map<string, set<string>>>)
    ensures r.Ok? <==> forall k :: k in depth ==> KeyLevel(k).Ok?
    ensures r.Ok? ==> r.value.Keys == depth.Keys
    ensures r.Ok? ==> forall k :: k in depth ==> r.value[k] == Prefixes(depth[k], KeyLevel(k).value)
  {
    var unique := map[];
    var todo := depth.Keys;
    while todo != {}
      invariant todo <= depth.Keys
      invariant forall k :: k in depth && k !in todo ==> KeyLevel(k).Ok?
      invariant unique.Keys == depth.Keys - todo
      invariant forall k :: k in unique ==> KeyLevel(k).Ok? && unique[k] == Prefixes(depth[k], KeyLevel(k).value)
      decreases todo
    {
      var k :| k in todo;
      match KeyLevel(k) {
        case Err(e) =>
          return Err(e);
        case Ok(level) =>
          var pages := CollectPrefixes(depth[k], level);
          unique := unique[k := pages];
      }
      todo := todo - {k};
    }
    return Ok(unique);
  }

  /** On a split, no key fails to parse, and each key's prefixes are taken at its own level. */
  lemma UniqueParentsOfSplit(depth: map<string, seq<string>>, c: map<string, PartConflict>, unique: map<string, set<string>>)
    requires IsSplit(depth, c)
    requires unique.Keys == depth.Keys
    requires forall k :: k in depth ==> KeyLevel(k).Ok? && unique[k] == Prefixes(depth[k], KeyLevel(k).value)
    ensures ParentsOf(unique, c)
  {
    forall p, l | p in c && l in c[p].levels
      ensures unique[DepthKey(p, l)] == Prefixes(AtLevel(c[p].entries, l), l)
    {
      KeyLevelOfDepthKey(p, l);
    }
  }

  /** Every key of a split reads back as a number. */
  lemma SplitKeysParse(depth: map<string, seq<string>>, c: map<string, PartConflict>)
    requires IsSplit(depth, c)
    ensures forall k :: k in depth ==> KeyLevel(k).Ok?
  {
    forall k | k in depth
      ensures KeyLevel(k).Ok?
    {
      var p, l :| p in c && l in c[p].levels && k == DepthKey(p, l);
      KeyLevelOfDepthKey(p, l);
    }
  }

  // ---------------------------------------------------------------------
  // The `namespace_parts` dict
  // ---------------------------------------------------------------------

  /** Each key at most once. */
  predicate UniqueNames(d: seq<Entry>)
  {
    forall i, j :: 0 <= i < j < |d| ==> d[i].name != d[j].name
  }

  /** Some entry of `d` has key `n`. */
  predicate Keyed(d: seq<Entry>, n: string)
  {
    exists x :: x in d && x.name == n
  }

  /** `d[e.name] = e.parts`: the value is replaced in place, or the key is appended. */
  function Assign(d: seq<Entry>, e: Entry): (r: seq<Entry>)
    ensures |r| == |d| || r == d + [e]
    ensures forall x :: x in r ==> x in d || x == e
    ensures e in r
    decreases |d|
  {
    if d == [] then [e]
    else if d[0].name == e.name then [e] + d[1..]
    else [d[0]] + Assign(d[1..], e)
  }

  /** Assigning adds exactly the assigned key. */
  lemma {:induction false} AssignKeys(d: seq<Entry>, e: Entry, n: string)
    ensures Keyed(Assign(d, e), n) <==> Keyed(d, n) || n == e.name
    decreases |d|
  {
    if d != [] {
      assert d == [d[0]] + d[1..];
      if d[0].name != e.name {
        AssignKeys(d[1..], e, n);
        assert Assign(d, e) == [d[0]] + Assign(d[1..], e);
      } else {
        assert d[0] in d;
      }
    }
  }

  /** Assigning keeps each key at most once. */
  lemma {:induction false} AssignUnique(d: seq<Entry>, e: Entry)
    requires UniqueNames(d)
    ensures UniqueNames(Assign(d, e))
    decreases |d|
  {
    if d == [] {
    } else if d[0].name == e.name {
      UniqueTail(d);
      forall x | x in d[1..]
        ensures x.name != e.name
      {
        var k :| 0 <= k < |d[1..]| && d[1..][k] == x;
        assert d[k + 1] == x;
      }
      ConsUnique(e, d[1..]);
    } else {
      UniqueTail(d);
      AssignUnique(d[1..], e);
      var rest := Assign(d[1..], e);
      forall x | x in rest
        ensures x.name != d[0].name
      {
        if x != e {
          var k :| 0 <= k < |d[1..]| && d[1..][k] == x;
          assert d[k + 1] == x;
        }
      }
      ConsUnique(d[0], rest);
    }
  }

  lemma UniqueTail(d: seq<Entry>)
    requires d != [] && UniqueNames(d)
    ensures UniqueNames(d[1..])
  {
    forall i, j | 0 <= i < j < |d[1..]|
      ensures d[1..][i].name != d[1..][j].name
    {
      assert d[1..][i] == d[i + 1] && d[1..][j] == d[j + 1];
    }
  }

  lemma ConsUnique(x: Entry, rest: seq<Entry>)
    requires UniqueNames(rest) && forall y :: y in rest ==> y.name != x.name
    ensures UniqueNames([x] + rest)
  {
    var d := [x] + rest;
    forall i, j | 0 <= i < j < |d|
      ensures d[i].name != d[j].name
    {
      assert d[j] == rest[j - 1];
      if i > 0 {
        assert d[i] == rest[i - 1];
      }
    }
  }

  /** One assignment per entry, in order: the later value of a key wins, in the key's first position. */
  function AssignAll(d: seq<Entry>, es: seq<Entry>): seq<Entry>
    decreases |es|
  {
    if es == [] then d else Assign(AssignAll(d, es[..|es| - 1]), es[|es| - 1])
  }

  /** The dict keeps each key once, holds only entries assigned or already there, and every key assigned. */
  lemma {:induction false} AssignAllSpec(d: seq<Entry>, es: seq<Entry>)
    requires UniqueNames(d)
    ensures UniqueNames(AssignAll(d, es))
    ensures forall x :: x in AssignAll(d, es) ==> x in d || x in es
    ensures forall n :: Keyed(AssignAll(d, es), n) <==> Keyed(d, n) || Keyed(es, n)
    decreases |es|
  {
    if es != [] {
      var init := es[..|es| - 1];
      var e := es[|es| - 1];
      assert es == init + [e];
      AssignAllSpec(d, init);
      AssignUnique(AssignAll(d, init), e);
      forall n
        ensures Keyed(AssignAll(d, es), n) <==> Keyed(d, n) || Keyed(es, n)
      {
        AssignKeys(AssignAll(d, init), e, n);
        assert Keyed(es, n) <==> Keyed(init, n) || n == e.name;
      }
    }
  }

  /** `d.setdefault(e.name, e.parts)`: the first value of a key wins. */
  function SetDefault(d: seq<Entry>, e: Entry): (r: seq<Entry>)
    ensures Keyed(d, e.name) ==> r == d
    ensures !Keyed(d, e.name) ==> r == d + [e]
  {
    if Keyed(d, e.name) then d else d + [e]
  }

  /** `{k: v["parts"] for k, v in d.items() if v.get("parts")}`. */
  function WithParts(d: seq<Entry>): (r: seq<Entry>)
    ensures forall e :: e in r <==> e in d && e.parts != []
    decreases |d|
  {
    if d == [] then []
    else
      var last := d[|d| - 1];
      var init := d[..|d| - 1];
      assert d == init + [last];
      WithParts(init) + (if last.parts != [] then [last] else [])
  }

  // ---------------------------------------------------------------------
  // The fold lemmas at every key
  // ---------------------------------------------------------------------

  /** `after` is `before` with each part of the stream added to the set of each level it occurs at. */
  ghost predicate PerLevelOver(after: map<int, set<string>>, before: map<int, set<string>>, s: seq<Occurrence>)
  {
    (forall l :: l in after <==> l in before || l in LevelsOf(s)) &&
    forall l :: Get(after, l, {}) == Get(before, l, {}) + PartsAtLevel(s, l)
  }

  /** `dist` counts, for each level met in the stream and only those, the items at that level. */
  ghost predicate DistributionOf(dist: map<int, nat>, s: seq<Occurrence>)
  {
    dist.Keys == LevelsOf(s) && forall l :: l in dist ==> dist[l] == LevelCount(s, l)
  }

  /** `after` is `before` with each level of the stream added to the set of the part found there. */
  ghost predicate PartLevelsOver(after: map<string, set<int>>, before: map<string, set<int>>, s: seq<Occurrence>)
  {
    (forall p :: p in after <==> p in before || p in PartsOf(s)) &&
    forall p :: Get(after, p, {}) == Get(before, p, {}) + LevelsOfPart(s, p)
  }

  /** `after` is `before` with each item of the stream appended, as an entry and level, under its part. */
  ghost predicate PartEntriesOver(after: map<string, seq<Placed>>, before: map<string, seq<Placed>>, s: seq<Occurrence>)
  {
    (forall p :: p in after <==> p in before || p in PartsOf(s)) &&
    forall p :: Get(after, p, []) == Get(before, p, []) + PlacedOf(s, p)
  }

  /** `depth` is 0 for an empty distribution and otherwise its greatest level. */
  predicate MaxDepthOf(depth: int, dist: map<int, nat>)
  {
    (dist.Keys == {} ==> depth == 0) &&
    (dist.Keys != {} ==> depth in dist.Keys && forall l :: l in dist.Keys ==> l <= depth)
  }

  /** The paths of `after` are those of `before` and every prefix of an entry's part names. */
  ghost predicate TreeOver(after: Tree, before: Tree, entries: seq<Entry>)
  {
    forall q :: HasPath(after, q) <==> HasPath(before, q) || exists e :: e in entries && q <= PartNames(e.parts)
  }

  lemma PerLevelAll(m: map<int, set<string>>, s: seq<Occurrence>)
    ensures PerLevelOver(Fold(AddToLevel, m, s), m, s)
  {
    forall l
      ensures l in Fold(AddToLevel, m, s) <==> l in m || l in LevelsOf(s)
      ensures Get(Fold(AddToLevel, m, s), l, {}) == Get(m, l, {}) + PartsAtLevel(s, l)
    {
      FoldPerLevel(m, s, l);
    }
  }

  lemma DistributionAll(s: seq<Occurrence>)
    ensures DistributionOf(Fold(CountLevel, map[], s), s)
  {
    forall l
      ensures l in Fold(CountLevel, map[], s) <==> l in LevelsOf(s)
      ensures l in LevelsOf(s) ==> Fold(CountLevel, map[], s)[l] == LevelCount(s, l)
    {
      FoldDistribution(map[], s, l);
    }
  }

  lemma PartLevelsAll(m: map<string, set<int>>, s: seq<Occurrence>)
    ensures PartLevelsOver(Fold(AddPartLevel, m, s), m, s)
  {
    forall p
      ensures p in Fold(AddPartLevel, m, s) <==> p in m || p in PartsOf(s)
      ensures Get(Fold(AddPartLevel, m, s), p, {}) == Get(m, p, {}) + LevelsOfPart(s, p)
    {
      FoldPartLevels(m, s, p);
    }
  }

  lemma PartEntriesAll(m: map<string, seq<Placed>>, s: seq<Occurrence>)
    ensures PartEntriesOver(Fold(AddPartEntry, m, s), m, s)
  {
    forall p
      ensures p in Fold(AddPartEntry, m, s) <==> p in m || p in PartsOf(s)
      ensures Get(Fold(AddPartEntry, m, s), p, []) == Get(m, p, []) + PlacedOf(s, p)
    {
      FoldPartEntries(m, s, p);
    }
  }

  lemma TreeOfAll(t: Tree, entries: seq<Entry>)
    ensures TreeOver(TreeOf(t, entries), t, entries)
  {
    forall q
      ensures HasPath(TreeOf(t, entries), q) <==> HasPath(t, q) || exists e :: e in entries && q <= PartNames(e.parts)
    {
      TreeOfPaths(t, entries, q);
    }
  }

  // ---------------------------------------------------------------------
  // The accumulators of the namespace loop, one at a time
  // ---------------------------------------------------------------------

  /** The unique parts: every part of every entry joins `u`. */
  method CollectUniqueParts(u: set<string>, entries: seq<Entry>) returns (r: set<string>)
    ensures r == u + PartsOf(Occurrences(entries))
  {
    r := FoldEntries(AddUniquePart, u, entries);
    FoldUniqueParts(u, Occurrences(entries));
  }

  /** The parts per level. */
  method CollectPerLevel(m: map<int, set<string>>, entries: seq<Entry>) returns (r: map<int, set<string>>)
    ensures PerLevelOver(r, m, Occurrences(entries))
  {
    r := FoldEntries(AddToLevel, m, entries);
    PerLevelAll(m, Occurrences(entries));
  }

  /** The level distribution, counted from scratch. */
  method CollectDistribution(entries: seq<Entry>) returns (r: map<int, nat>)
    ensures DistributionOf(r, Occurrences(entries))
  {
    r := FoldEntries(CountLevel, map[], entries);
    DistributionAll(Occurrences(entries));
  }

  /** The levels of each part. */
  method CollectPartLevels(m: map<string, set<int>>, entries: seq<Entry>) returns (r: map<string, set<int>>)
    ensures PartLevelsOver(r, m, Occurrences(entries))
  {
    r := FoldEntries(AddPartLevel, m, entries);
    PartLevelsAll(m, Occurrences(entries));
  }

  /** The entries of each part, with the level it has there. */
  method CollectPartEntries(m: map<string, seq<Placed>>, entries: seq<Entry>) returns (r: map<string, seq<Placed>>)
    ensures PartEntriesOver(r, m, Occurrences(entries))
  {
    r := FoldEntries(AddPartEntry, m, entries);
    PartEntriesAll(m, Occurrences(entries));
  }

  /** The tree, grown by every entry's path. */
  method GrowTree(t0: Tree, entries: seq<Entry>) returns (t: Tree)
    ensures TreeOver(t, t0, entries)
  {
    t := BuildTree(t0, entries);
    TreeOfAll(t0, entries);
  }

  /**
   * `after` is `before` with every entry of the stream appended under each
   * candidate part it holds, once per item; other parts are left alone.
   */
  ghost predicate ConflictsOver(after: map<string, seq<string>>, before: map<string, seq<string>>, names: set<string>, s: seq<Occurrence>)
  {
    (forall p :: p in after <==> p in before || (p in names && p in PartsOf(s))) &&
    forall p :: Get(after, p, []) == Get(before, p, []) + (if p in names then EntriesWith(s, p) else [])
  }

  lemma ConflictsAll(names: set<string>, m: map<string, seq<string>>, s: seq<Occurrence>)
    ensures ConflictsOver(Fold(ConflictStep(names), m, s), m, names, s)
  {
    forall p
      ensures p in Fold(ConflictStep(names), m, s) <==> p in m || (p in names && p in PartsOf(s))
      ensures Get(Fold(ConflictStep(names), m, s), p, []) == Get(m, p, []) + (if p in names then EntriesWith(s, p) else [])
    {
      FoldConflicts(names, m, s, p);
    }
  }

  /** Started from an empty dict, the conflicts list exactly the candidate parts met, each with its entries. */
  lemma ConflictsFromEmpty(names: set<string>, s: seq<Occurrence>)
    ensures var r := Fold(ConflictStep(names), map[], s);
      (forall p :: p in r <==> p in names && p in PartsOf(s)) &&
      forall p :: p in r ==> r[p] == EntriesWith(s, p)
  {
    var empty: map<string, seq<string>> := map[];
    var r := Fold(ConflictStep(names), empty, s);
    forall p
      ensures p in r <==> p in names && p in PartsOf(s)
      ensures p in r ==> r[p] == EntriesWith(s, p)
    {
      FoldConflicts(names, empty, s, p);
      assert Get(empty, p, []) == [];
    }
  }


  // ---------------------------------------------------------------------
  // Writing a split over conflict dicts that already hold keys
  // ---------------------------------------------------------------------

  /** `depth` is `before` with each "part level" key of `c` assigned its entries. */
  predicate SplitOver(depth: map<string, seq<string>>, before: map<string, seq<string>>, c: map<string, PartConflict>)
  {
    depth.Keys == before.Keys + SplitKeys(c, c.Keys) &&
    (forall k :: k in before && k !in SplitKeys(c, c.Keys) ==> depth[k] == before[k]) &&
    (forall p, l :: p in c && l in c[p].levels ==> depth[DepthKey(p, l)] == AtLevel(c[p].entries, l))
  }

  /**
   * `unique` is `before` with each "part level" key of `c` given the prefixes
   * of its entries: added to what the key held when `union`, assigned otherwise.
   */
  predicate ParentsOver(unique: map<string, set<string>>, before: map<string, set<string>>, c: map<string, PartConflict>, union: bool)
  {
    unique.Keys == before.Keys + SplitKeys(c, c.Keys) &&
    (forall k :: k in before && k !in SplitKeys(c, c.Keys) ==> unique[k] == before[k]) &&
    (forall p, l :: p in c && l in c[p].levels ==>
      unique[DepthKey(p, l)] == (if union then Get(before, DepthKey(p, l), {}) else {}) + Prefixes(AtLevel(c[p].entries, l), l))
  }

  /** `defaultdict(set)`: each key's new members added to what it held. */
  function MergeSets(before: map<string, set<string>>, u: map<string, set<string>>): (r: map<string, set<string>>)
    ensures r.Keys == before.Keys + u.Keys
    ensures forall k :: k in r ==> r[k] == Get(before, k, {}) + Get(u, k, {})
  {
    map k | k in before.Keys + u.Keys :: Get(before, k, {}) + Get(u, k, {})
  }

  lemma SplitWrittenOver(depth: map<string, seq<string>>, before: map<string, seq<string>>, c: map<string, PartConflict>)
    requires IsSplit(depth, c)
    ensures SplitOver(before + depth, before, c)
  {
  }

  lemma ParentsWrittenOver(unique: map<string, set<string>>, before: map<string, set<string>>, c: map<string, PartConflict>)
    requires ParentsOf(unique, c)
    ensures ParentsOver(before + unique, before, c, false)
    ensures ParentsOver(MergeSets(before, unique), before, c, true)
  {
  }

  /**
   * `detect_parent_depth_conflicts` on part levels and part entries: the
   * conflicting parts, their split by level, and the level-length prefixes
   * of each key's entries.
   */
  method DepthConflicts(pl: map<string, set<int>>, pe: map<string, seq<Placed>>)
    returns (depth: map<string, seq<string>>, unique: map<string, set<string>>)
    ensures IsSplit(depth, PartConflicts(pl, pe))
    ensures ParentsOf(unique, PartConflicts(pl, pe))
  {
    var c := ConflictingParts(pl, pe);
    depth := SplitConflicts(c);
    SplitKeysParse(depth, c);
    var r := UniqueParentConflicts(depth);
    unique := r.value;
    UniqueParentsOfSplit(depth, c, unique);
  }

  // ---------------------------------------------------------------------
  // Depth conflicts collected from scratch
  // ---------------------------------------------------------------------

  /** The conflicting parts of a stream, from fresh `part_levels` and `part_entries` dicts. */
  function StreamConflicts(s: seq<Occurrence>): map<string, PartConflict>
  {
    PartConflicts(Fold(AddPartLevel, map[], s), Fold(AddPartEntry, map[], s))
  }

  /**
   * A part conflicts exactly when it is met at two or more levels; its
   * levels are those, ascending, and its records are all of its items.
   */
  lemma StreamConflictsSpec(s: seq<Occurrence>, p: string)
    ensures p in StreamConflicts(s) <==> |LevelsOfPart(s, p)| > 1
    ensures p in StreamConflicts(s) ==>
      StrictlyIncreasing(StreamConflicts(s)[p].levels) &&
      (forall l :: l in StreamConflicts(s)[p].levels <==> l in LevelsOfPart(s, p)) &&
      StreamConflicts(s)[p].entries == PlacedOf(s, p)
  {
    FoldPartLevels(map[], s, p);
    FoldPartEntries(map[], s, p);
    var pl := Fold(AddPartLevel, map[], s);
    if p in pl {
      SortedLevelsSpec(pl[p]);
    }
  }

  /** The first two loops of `detect_parent_depth_conflicts` on fresh dicts. */
  method CollectConflicts(entries: seq<Entry>) returns (c: map<string, PartConflict>)
    ensures c == StreamConflicts(Occurrences(entries))
  {
    var pl := FoldEntries(AddPartLevel, map[], entries);
    var pe := FoldEntries(AddPartEntry, map[], entries);
    c := ConflictingParts(pl, pe);
  }

  /** All of `detect_parent_depth_conflicts` on fresh dicts: the "part level" split of the conflicts. */
  method SplitFromScratch(entries: seq<Entry>) returns (depth: map<string, seq<string>>)
    ensures IsSplit(depth, StreamConflicts(Occurrences(entries)))
  {
    var c := CollectConflicts(entries);
    depth := SplitConflicts(c);
  }

  /** Every key of `depth` reads back as a level. */
  predicate KeysParse(depth: map<string, seq<string>>)
  {
    forall k :: k in depth ==> KeyLevel(k).Ok?
  }

  // ---------------------------------------------------------------------
  // What the stream holds, in terms of the entries
  // ---------------------------------------------------------------------

  /** A part is met exactly when some entry has it, at some level. */
  lemma PartsOfMembers(entries: seq<Entry>, p: string)
    ensures p in PartsOf(Occurrences(entries)) <==> exists e, l :: e in entries && Part(p, l) in e.parts
  {
    if p in PartsOf(Occurrences(entries)) {
      var o :| o in Occurrences(entries) && o.part == p;
      OccurrencesMembers(entries, o);
    }
    if exists e, l :: e in entries && Part(p, l) in e.parts {
      var e, l :| e in entries && Part(p, l) in e.parts;
      OccurrencesMembers(entries, Occurrence(e.name, p, l));
    }
  }

  /** A level is met exactly when some entry has some part at it. */
  lemma LevelsOfMembers(entries: seq<Entry>, l: int)
    ensures l in LevelsOf(Occurrences(entries)) <==> exists e, p :: e in entries && Part(p, l) in e.parts
  {
    if l in LevelsOf(Occurrences(entries)) {
      var o :| o in Occurrences(entries) && o.level == l;
      OccurrencesMembers(entries, o);
    }
    if exists e, p :: e in entries && Part(p, l) in e.parts {
      var e, p :| e in entries && Part(p, l) in e.parts;
      OccurrencesMembers(entries, Occurrence(e.name, p, l));
    }
  }

  /** A part is met at level `l` exactly when some entry has it there. */
  lemma PartsAtLevelMembers(entries: seq<Entry>, l: int, p: string)
    ensures p in PartsAtLevel(Occurrences(entries), l) <==> exists e :: e in entries && Part(p, l) in e.parts
  {
    if p in PartsAtLevel(Occurrences(entries), l) {
      var o :| o in Occurrences(entries) && o.level == l && o.part == p;
      OccurrencesMembers(entries, o);
    }
    if exists e :: e in entries && Part(p, l) in e.parts {
      var e :| e in entries && Part(p, l) in e.parts;
      OccurrencesMembers(entries, Occurrence(e.name, p, l));
    }
  }

  /** The entries listed for a part are those of its items. */
  lemma {:induction false} EntriesWithItems(s: seq<Occurrence>, p: string, n: string)
    ensures n in EntriesWith(s, p) <==> exists o :: o in s && o.part == p && o.entry == n
    decreases |s|
  {
    if s != [] {
      var init := s[..|s| - 1];
      assert s == init + [s[|s| - 1]];
      EntriesWithItems(init, p, n);
    }
  }

  /** A page is listed under a part exactly when it has that part, at some level. */
  lemma EntriesWithMembers(entries: seq<Entry>, p: string, n: string)
    ensures n in EntriesWith(Occurrences(entries), p) <==> exists e, l :: e in entries && e.name == n && Part(p, l) in e.parts
  {
    EntriesWithItems(Occurrences(entries), p, n);
    if n in EntriesWith(Occurrences(entries), p) {
      var o :| o in Occurrences(entries) && o.part == p && o.entry == n;
      OccurrencesMembers(entries, o);
    }
    if exists e, l :: e in entries && e.name == n && Part(p, l) in e.parts {
      var e, l :| e in entries && e.name == n && Part(p, l) in e.parts;
      OccurrencesMembers(entries, Occurrence(n, p, l));
    }
  }
}

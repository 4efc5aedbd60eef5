/**
 * The orderings the analyser sorts by: Python's `sorted()` on strings
 * (code-point lexicographic order) and the stable descending sort by a
 * count that `sort_dict_by_value` and the dangling-link report use.
 */
module Order {

  /** Python's `a <= b` on strings. */
  predicate Le(a: string, b: string)
    decreases |a|
  {
    a == [] || (b != [] && (a[0] < b[0] || (a[0] == b[0] && Le(a[1..], b[1..]))))
  }

  lemma {:induction false} LeReflexive(a: string)
    ensures Le(a, a)
    decreases |a|
  {
    if a != [] {
      LeReflexive(a[1..]);
    }
  }

  lemma {:induction false} LeTotal(a: string, b: string)
    ensures Le(a, b) || Le(b, a)
    decreases |a|
  {
    if a != [] && b != [] && a[0] == b[0] {
      LeTotal(a[1..], b[1..]);
    }
  }

  lemma {:induction false} LeAntisymmetric(a: string, b: string)
    requires Le(a, b) && Le(b, a)
    ensures a == b
    decreases |a|
  {
    if a != [] && b != [] {
      LeAntisymmetric(a[1..], b[1..]);
      assert a == [a[0]] + a[1..];
      assert b == [b[0]] + b[1..];
    }
  }

  lemma {:induction false} LeTransitive(a: string, b: string, c: string)
    requires Le(a, b) && Le(b, c)
    ensures Le(a, c)
    decreases |a|
  {
    if a != [] && b != [] && c != [] && a[0] == b[0] && b[0] == c[0] {
      LeTransitive(a[1..], b[1..], c[1..]);
    }
  }

  predicate Sorted(s: seq<string>)
  {
    forall i, j :: 0 <= i < j < |s| ==> Le(s[i], s[j])
  }

  /** Insert `x` into an ascending list in front of the first element not below it. */
  function Insert(x: string, s: seq<string>): (r: seq<string>)
    requires Sorted(s)
    ensures Sorted(r)
    ensures multiset(r) == multiset(s) + multiset{x}
    decreases |s|
  {
    if s == [] then [x]
    else if Le(x, s[0]) then
      BelowFirst(x, s);
      [x] + s
    else
      LeTotal(x, s[0]);
      var t := Insert(x, s[1..]);
      assert s == [s[0]] + s[1..];
      FirstBelowAll(x, s, t);
      [s[0]] + t
  }

  /** What is below the first element of an ascending list is below all of it. */
  lemma BelowFirst(x: string, s: seq<string>)
    requires Sorted(s) && s != [] && Le(x, s[0])
    ensures forall j :: 0 <= j < |s| ==> Le(x, s[j])
  {
    forall j | 0 <= j < |s| ensures Le(x, s[j]) {
      if j > 0 {
        LeTransitive(x, s[0], s[j]);
      }
    }
  }

  /** The first element of an ascending list is below the rest with `x` added. */
  lemma FirstBelowAll(x: string, s: seq<string>, t: seq<string>)
    requires Sorted(s) && s != [] && Le(s[0], x)
    requires multiset(t) == multiset(s[1..]) + multiset{x}
    ensures forall j :: 0 <= j < |t| ==> Le(s[0], t[j])
  {
    forall k | k in multiset(t) ensures Le(s[0], k) {
      if k != x {
        assert k in multiset(s[1..]);
        var j :| 0 <= j < |s[1..]| && s[1..][j] == k;
        assert s[j + 1] == k;
      }
    }
    forall j | 0 <= j < |t| ensures Le(s[0], t[j]) {
      assert t[j] in multiset(t);
    }
  }

  /** `sorted(xs)`: ascending and a permutation of the input. */
  function Sort(xs: seq<string>): (r: seq<string>)
    ensures Sorted(r)
    ensures multiset(r) == multiset(xs)
    ensures |r| == |xs|
    decreases |xs|
  {
    if xs == [] then []
    else
      var t := Sort(xs[1..]);
      assert xs == [xs[0]] + xs[1..];
      Insert(xs[0], t)
  }

  /**
   * `sorted(s)` of a set: the set's members, ascending, each once.  Written
   * as the loop that moves the members one by one into a sorted list.
   */
  method SortedList(s: set<string>) returns (r: seq<string>)
    ensures Sorted(r)
    ensures forall x :: x in r <==> x in s
    ensures |r| == |s|
  {
    r := [];
    var todo := s;
    while todo != {}
      invariant todo <= s
      invariant Sorted(r)
      invariant multiset(r) == multiset(s - todo)
      decreases todo
    {
      var x :| x in todo;
      assert multiset(s - (todo - {x})) == multiset(s - todo) + multiset{x} by {
        assert s - (todo - {x}) == (s - todo) + {x};
      }
      r := Insert(x, r);
      todo := todo - {x};
    }
    assert s - {} == s;
    forall x ensures x in r <==> x in s {
      assert x in r <==> x in multiset(r);
    }
    assert |multiset(r)| == |r|;
  }

  /** Descending by `key`: larger counts first. */
  predicate SortedDesc<T>(s: seq<T>, key: T -> int)
  {
    forall i, j :: 0 <= i < j < |s| ==> key(s[i]) >= key(s[j])
  }

  /** The elements with key `k`, in their order. */
  function WithKey<T>(s: seq<T>, key: T -> int, k: int): seq<T>
  {
    if s == [] then []
    else (if key(s[0]) == k then [s[0]] else []) + WithKey(s[1..], key, k)
  }

  /** The selection keeps exactly the elements with key `k`. */
  lemma {:induction false} WithKeyMembers<T>(s: seq<T>, key: T -> int, k: int, x: T)
    ensures x in WithKey(s, key, k) <==> x in s && key(x) == k
    decreases |s|
  {
    if s != [] {
      WithKeyMembers(s[1..], key, k, x);
      assert s == [s[0]] + s[1..];
    }
  }

  /** One element in front: it is kept exactly when its key is `k`. */
  lemma WithKeyCons<T>(x: T, s: seq<T>, key: T -> int, k: int)
    ensures WithKey([x] + s, key, k) == (if key(x) == k then [x] else []) + WithKey(s, key, k)
  {
    assert ([x] + s)[0] == x;
    assert ([x] + s)[1..] == s;
  }

  lemma {:induction false} WithKeyAppend<T>(a: seq<T>, b: seq<T>, key: T -> int, k: int)
    ensures WithKey(a + b, key, k) == WithKey(a, key, k) + WithKey(b, key, k)
    decreases |a|
  {
    if a != [] {
      var a0, a1 := a[0], a[1..];
      WithKeyAppend(a1, b, key, k);
      assert a == [a0] + a1;
      assert a + b == [a0] + (a1 + b);
      WithKeyCons(a0, a1 + b, key, k);
      WithKeyCons(a0, a1, key, k);
      var h := if key(a0) == k then [a0] else [];
      AppendAssoc(h, WithKey(a1, key, k), WithKey(b, key, k));
    } else {
      assert a + b == b;
    }
  }

  lemma AppendAssoc<T>(x: seq<T>, y: seq<T>, z: seq<T>)
    ensures x + (y + z) == (x + y) + z
  {
  }

  /** Insert `x` in front of the first element whose key is not larger. */
  function InsertDesc<T>(x: T, s: seq<T>, key: T -> int): (r: seq<T>)
    requires SortedDesc(s, key)
    ensures SortedDesc(r, key)
    ensures multiset(r) == multiset(s) + multiset{x}
    decreases |s|
  {
    if s == [] then [x]
    else if key(s[0]) <= key(x) then [x] + s
    else
      var t := InsertDesc(x, s[1..], key);
      assert s == [s[0]] + s[1..];
      HeadStaysFirst(s, x, t, key);
      [s[0]] + t
  }

  /** The head of `s` is at least every element of `s[1..]` with `x` added, in any order. */
  lemma HeadStaysFirst<T>(s: seq<T>, x: T, t: seq<T>, key: T -> int)
    requires s != [] && SortedDesc(s, key) && key(x) < key(s[0])
    requires multiset(t) == multiset(s[1..]) + multiset{x}
    ensures forall j :: 0 <= j < |t| ==> key(s[0]) >= key(t[j])
  {
    forall j | 0 <= j < |t| ensures key(s[0]) >= key(t[j]) {
      assert t[j] in multiset(t);
      if t[j] != x {
        assert t[j] in multiset(s[1..]);
        var i :| 0 <= i < |s[1..]| && s[1..][i] == t[j];
        assert s[i + 1] == t[j];
      }
    }
  }

  /** Inserting `x` puts it in front of every element with the same key. */
  lemma {:induction false} WithKeyInsertDesc<T>(x: T, s: seq<T>, key: T -> int, k: int)
    requires SortedDesc(s, key)
    ensures WithKey(InsertDesc(x, s, key), key, k) == (if key(x) == k then [x] else []) + WithKey(s, key, k)
    decreases |s|
  {
    if s == [] {
    } else if key(s[0]) <= key(x) {
      assert InsertDesc(x, s, key) == [x] + s;
      WithKeyCons(x, s, key, k);
    } else {
      var t := InsertDesc(x, s[1..], key);
      assert InsertDesc(x, s, key) == [s[0]] + t;
      WithKeyInsertDesc(x, s[1..], key, k);
      BehindFirst(x, s, t, key, k);
    }
  }

  /** An element with a larger key than `x` stays in front of it. */
  lemma BehindFirst<T>(x: T, s: seq<T>, t: seq<T>, key: T -> int, k: int)
    requires s != [] && key(s[0]) > key(x)
    requires WithKey(t, key, k) == (if key(x) == k then [x] else []) + WithKey(s[1..], key, k)
    ensures WithKey([s[0]] + t, key, k) == (if key(x) == k then [x] else []) + WithKey(s, key, k)
  {
    var h0 := if key(s[0]) == k then [s[0]] else [];
    var hx := if key(x) == k then [x] else [];
    var w1 := WithKey(s[1..], key, k);
    WithKeyCons(s[0], t, key, k);
    assert s == [s[0]] + s[1..];
    WithKeyCons(s[0], s[1..], key, k);
    if key(x) == k {
      assert h0 == [];
      assert h0 + (hx + w1) == hx + w1;
    } else {
      assert hx == [];
      assert h0 + (hx + w1) == h0 + w1;
    }
  }

  /**
   * `sorted(items, key=..., reverse=True)`: descending by key, a permutation,
   * and stable: the elements sharing a key keep their original order.
   */
  function SortDesc<T>(s: seq<T>, key: T -> int): (r: seq<T>)
    ensures SortedDesc(r, key)
    ensures multiset(r) == multiset(s)
    ensures |r| == |s|
    decreases |s|
  {
    if s == [] then []
    else
      assert s == [s[0]] + s[1..];
      InsertDesc(s[0], SortDesc(s[1..], key), key)
  }

  lemma {:induction false} SortDescStable<T>(s: seq<T>, key: T -> int, k: int)
    ensures WithKey(SortDesc(s, key), key, k) == WithKey(s, key, k)
    decreases |s|
  {
    if s != [] {
      SortDescStable(s[1..], key, k);
      WithKeyInsertDesc(s[0], SortDesc(s[1..], key), key, k);
    }
  }

  lemma SortDescStableAll<T>(s: seq<T>, key: T -> int)
    ensures forall k :: WithKey(SortDesc(s, key), key, k) == WithKey(s, key, k)
  {
    forall k ensures WithKey(SortDesc(s, key), key, k) == WithKey(s, key, k) {
      SortDescStable(s, key, k);
    }
  }

  /** The sort key of a dict item: its rank, negated for an ascending sort. */
  function ItemKey<K, V>(rank: V -> int, reverse: bool): ((K, V)) -> int
  {
    (p: (K, V)) => if reverse then rank(p.1) else -rank(p.1)
  }

  /**
   * `sort_dict_by_value(d, value, reverse)` over dict items, with `rank`
   * reading the (numeric) sort value of an item: a stable sort, descending
   * when `reverse` holds and ascending otherwise, keeping every item.
   */
  function SortDictByValue<K, V>(d: seq<(K, V)>, rank: V -> int, reverse: bool): (r: seq<(K, V)>)
    ensures multiset(r) == multiset(d)
    ensures reverse ==> forall i, j :: 0 <= i < j < |r| ==> rank(r[i].1) >= rank(r[j].1)
    ensures !reverse ==> forall i, j :: 0 <= i < j < |r| ==> rank(r[i].1) <= rank(r[j].1)
    ensures forall k :: WithKey(r, ItemKey(rank, reverse), k) == WithKey(d, ItemKey(rank, reverse), k)
  {
    SortDescStableAll(d, ItemKey(rank, reverse));
    SortDesc(d, ItemKey(rank, reverse))
  }
}

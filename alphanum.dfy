/**
 * The two-character lookup buckets of the older code (`create_alphanum`)
 * and the dangling-link computation built on them
 * (`identify_dangling_links`, and the inline copy in the first script's
 * `process_content_data`, which has no aliases and sorts its result).
 */
module Alphanum {
  import opened Backlinks
  import Order

  /** The bucket of a non-empty item: its first two characters, or "!" and the one character. */
  function Id(item: string): (id: string)
    requires item != []
    ensures |id| == 2
    ensures |item| > 1 ==> id == item[..2]
    ensures |item| == 1 ==> id == ['!', item[0]]
  {
    if |item| > 1 then item[..2] else "!" + [item[0]]
  }

  /** The distinct elements of a list. */
  function Elems(items: seq<string>): set<string>
  {
    set x | x in items
  }

  /** The ids of the non-empty items. */
  function Ids(items: set<string>): set<string>
  {
    set x | x in items && x != [] :: Id(x)
  }

  /** The non-empty items whose id is `id`. */
  function Bucket(items: set<string>, id: string): set<string>
  {
    set x | x in items && x != [] && Id(x) == id
  }

  /** The buckets `create_alphanum` builds from the items of `items`. */
  function Bucketed(items: set<string>): (m: map<string, set<string>>)
  {
    map id | id in Ids(items) :: Bucket(items, id)
  }

  /**
   * `create_alphanum`: each non-empty item goes into bucket `Id(item)`,
   * empty items are skipped, and no bucket is created without an item.
   */
  method CreateAlphanum(items: seq<string>) returns (buckets: map<string, set<string>>)
    ensures buckets == Bucketed(Elems(items))
    ensures forall id :: id in buckets ==> buckets[id] != {}
    ensures forall x :: x in items && x != [] ==> Id(x) in buckets && x in buckets[Id(x)]
  {
    buckets := map[];
    var i := 0;
    while i < |items|
      invariant 0 <= i <= |items|
      invariant buckets == Bucketed(Elems(items[..i]))
    {
      var item := items[i];
      ghost var before := Elems(items[..i]);
      assert items[..i + 1] == items[..i] + [item];
      assert Elems(items[..i + 1]) == before + {item};
      if item != [] {
        var id := Id(item);
        var bucket := if id in buckets then buckets[id] else {};
        buckets := buckets[id := bucket + {item}];
        BucketedAdd(before, item);
      } else {
        assert Ids(before + {item}) == Ids(before);
        assert forall id :: Bucket(before + {item}, id) == Bucket(before, id);
      }
      i := i + 1;
    }
    assert items[..i] == items;
    ghost var all := Elems(items);
    BucketsNonEmpty(all);
    forall x | x in items && x != [] ensures Id(x) in buckets && x in buckets[Id(x)] {
      BucketedMember(all, x);
    }
  }

  lemma BucketedAdd(s: set<string>, item: string)
    requires item != []
    ensures Bucketed(s + {item}) == Bucketed(s)[Id(item) := (if Id(item) in Bucketed(s) then Bucketed(s)[Id(item)] else {}) + {item}]
  {
    var a := Bucketed(s + {item});
    var b := Bucketed(s)[Id(item) := (if Id(item) in Bucketed(s) then Bucketed(s)[Id(item)] else {}) + {item}];
    assert Ids(s + {item}) == Ids(s) + {Id(item)};
    assert a.Keys == b.Keys;
    forall id | id in a ensures a[id] == b[id] {
      if id == Id(item) {
        assert Bucket(s + {item}, id) == Bucket(s, id) + {item};
      } else {
        assert Bucket(s + {item}, id) == Bucket(s, id);
      }
    }
  }

  lemma BucketsNonEmpty(s: set<string>)
    ensures forall id :: id in Bucketed(s) ==> Bucketed(s)[id] != {}
  {
    forall id | id in Bucketed(s) ensures Bucketed(s)[id] != {} {
      var x :| x in s && x != [] && Id(x) == id;
      assert x in Bucketed(s)[id];
    }
  }

  /** A non-empty item is found in its own bucket, and only items of the set are in any bucket. */
  lemma BucketedMember(s: set<string>, x: string)
    requires x != []
    ensures (Id(x) in Bucketed(s) && x in Bucketed(s)[Id(x)]) <==> x in s
  {
  }

  /** The union of the buckets is exactly the set of non-empty items. */
  lemma BucketUnion(s: set<string>)
    ensures (set id, x | id in Bucketed(s) && x in Bucketed(s)[id] :: x) == set x | x in s && x != []
  {
    var u := set id, x | id in Bucketed(s) && x in Bucketed(s)[id] :: x;
    forall x | x in s && x != [] ensures x in u {
      BucketedMember(s, x);
    }
  }

  /**
   * Looking a name up in the bucket of its own id (the older
   * `check_is_backlinked`) is the same as asking whether it is linked.
   */
  lemma BucketLookupIsMembership(refs: set<string>, name: string)
    requires name != []
    ensures CheckIsBacklinkedBucket(name, Id(name), Bucketed(refs), false) <==> name in refs
  {
    BucketedMember(refs, name);
  }

  /** The references of `refBuckets` that are not in the file-name bucket of the same id. */
  ghost function Unmatched(refBuckets: map<string, set<string>>, fileBuckets: map<string, set<string>>): set<string>
  {
    set id, r | id in refBuckets && r in refBuckets[id] && (id !in fileBuckets || r !in fileBuckets[id]) :: r
  }

  /**
   * `identify_dangling_links`: walk the reference buckets, keep every
   * reference absent from the file-name bucket with the same id, then drop
   * the aliases.
   */
  method IdentifyDanglingLinks(aliases: set<string>, refBuckets: map<string, set<string>>, fileBuckets: map<string, set<string>>)
    returns (dangling: set<string>)
    ensures dangling == Unmatched(refBuckets, fileBuckets) - aliases
  {
    dangling := {};
    var todo := refBuckets.Keys;
    while todo != {}
      invariant todo <= refBuckets.Keys
      invariant dangling == Unmatched(refBuckets - todo, fileBuckets)
      decreases todo
    {
      var id :| id in todo;
      var refs := refBuckets[id];
      var keep := if id !in fileBuckets then refs else set r | r in refs && r !in fileBuckets[id];
      UnmatchedStep(refBuckets, fileBuckets, todo, id);
      dangling := dangling + keep;
      todo := todo - {id};
    }
    assert refBuckets - {} == refBuckets;
    dangling := dangling - aliases;
  }

  lemma UnmatchedStep(refBuckets: map<string, set<string>>, fileBuckets: map<string, set<string>>, todo: set<string>, id: string)
    requires id in todo && todo <= refBuckets.Keys
    ensures Unmatched(refBuckets - (todo - {id}), fileBuckets)
         == Unmatched(refBuckets - todo, fileBuckets)
          + (if id !in fileBuckets then refBuckets[id] else set r | r in refBuckets[id] && r !in fileBuckets[id])
  {
    var a := refBuckets - (todo - {id});
    var b := refBuckets - todo;
    var keep := if id !in fileBuckets then refBuckets[id] else set r | r in refBuckets[id] && r !in fileBuckets[id];
    assert a == b[id := refBuckets[id]];
    forall r | r in Unmatched(a, fileBuckets) ensures r in Unmatched(b, fileBuckets) + keep {
      var j :| j in a && r in a[j] && (j !in fileBuckets || r !in fileBuckets[j]);
      if j != id {
        assert j in b && b[j] == a[j];
      }
    }
    forall r | r in Unmatched(b, fileBuckets) + keep ensures r in Unmatched(a, fileBuckets) {
      if r in keep {
        assert id in a && r in a[id];
      } else {
        var j :| j in b && r in b[j] && (j !in fileBuckets || r !in fileBuckets[j]);
        assert j in a && a[j] == b[j];
      }
    }
  }

  /**
   * The bucketing computes exactly the set difference: the dangling links are
   * the non-empty references that are neither file names nor aliases.
   */
  lemma DanglingIsSetDifference(refs: set<string>, names: set<string>, aliases: set<string>)
    ensures Unmatched(Bucketed(refs), Bucketed(names)) - aliases == (set r | r in refs && r != []) - names - aliases
  {
    var u := Unmatched(Bucketed(refs), Bucketed(names));
    forall r | r in u ensures r in refs && r != [] && r !in names {
      var id :| id in Bucketed(refs) && r in Bucketed(refs)[id] && (id !in Bucketed(names) || r !in Bucketed(names)[id]);
      BucketedMember(names, r);
    }
    forall r | r in refs && r != [] && r !in names ensures r in u {
      BucketedMember(refs, r);
      BucketedMember(names, r);
    }
  }

  /**
   * The dangling-link block of the first script's `process_content_data`:
   * the linked references and the file names are bucketed, the references
   * without a file name in the bucket of the same id are kept (that script
   * has no aliases), and the result is sorted.  It is ascending, free of
   * duplicates, and holds exactly the non-empty references that are no
   * file name.
   */
  method MainDanglingLinks(refs: seq<string>, names: seq<string>) returns (dangling: seq<string>)
    ensures Order.Sorted(dangling)
    ensures forall i, j :: 0 <= i < j < |dangling| ==> dangling[i] != dangling[j]
    ensures forall x :: x in dangling <==> x in refs && x != [] && x !in names
  {
    var refBuckets := CreateAlphanum(refs);
    var fileBuckets := CreateAlphanum(names);
    var found := IdentifyDanglingLinks({}, refBuckets, fileBuckets);
    DanglingMembers(refs, names);
    dangling := Order.SortedList(found);
    assert Elems(dangling) == found;
    CardinalityDistinct(dangling);
  }

  /** Without aliases, the unmatched references are the non-empty references that are no file name. */
  lemma DanglingMembers(refs: seq<string>, names: seq<string>)
    ensures forall x :: x in Unmatched(Bucketed(Elems(refs)), Bucketed(Elems(names))) - {} <==> x in refs && x != [] && x !in names
  {
    DanglingIsSetDifference(Elems(refs), Elems(names), {});
  }

  /** A list with as many elements as distinct elements repeats none. */
  lemma {:induction false} CardinalityDistinct(r: seq<string>)
    ensures |Elems(r)| <= |r|
    ensures |Elems(r)| == |r| ==> forall i, j :: 0 <= i < j < |r| ==> r[i] != r[j]
  {
    if r != [] {
      var rest := r[1..];
      CardinalityDistinct(rest);
      assert Elems(r) == Elems(rest) + {r[0]};
      if r[0] in rest {
        assert Elems(r) == Elems(rest);
      } else {
        assert |Elems(r)| == |Elems(rest)| + 1;
        if |Elems(r)| == |r| {
          forall i, j | 0 <= i < j < |r| ensures r[i] != r[j] {
            if i == 0 {
              assert r[j] == rest[j - 1];
            } else {
              assert r[i] == rest[i - 1] && r[j] == rest[j - 1];
            }
          }
        }
      }
    }
  }
}

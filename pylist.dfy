/** Python list operations shared by the index and the graph code. */
module PyList {
  /** `list.remove(x)`: the first occurrence is dropped. */
  function RemoveFirst<T(==)>(s: seq<T>, x: T): (r: seq<T>)
    ensures x in s ==> |r| == |s| - 1
    ensures x !in s ==> r == s
    decreases |s|
  {
    if s == [] then []
    else if s[0] == x then s[1..]
    else [s[0]] + RemoveFirst(s[1..], x)
  }

  lemma {:induction false} RemoveFirstKeeps<T>(s: seq<T>, x: T, y: T)
    requires y != x
    ensures (y in RemoveFirst(s, x)) == (y in s)
    decreases |s|
  {
    if s != [] && s[0] != x {
      RemoveFirstKeeps(s[1..], x, y);
      assert s == [s[0]] + s[1..];
    }
  }

  /** `list.remove(x)` takes away exactly one occurrence of `x`, when there is one. */
  lemma {:induction false} RemoveFirstCount<T>(s: seq<T>, x: T)
    ensures multiset(RemoveFirst(s, x)) == if x in s then multiset(s) - multiset{x} else multiset(s)
    decreases |s|
  {
    if s != [] {
      assert s == [s[0]] + s[1..];
      if s[0] != x {
        RemoveFirstCount(s[1..], x);
      }
    }
  }
}

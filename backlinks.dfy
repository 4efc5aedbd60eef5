/**
 * The `check_is_backlinked` family.
 *
 * The current package keeps the set of linked names and *consumes* a name
 * with `set.remove`: the first file with that name is reported back-linked,
 * every later one is not.  The older code instead looks the name up in a
 * two-character bucket of the linked references, without mutating anything.
 */
module Backlinks {
  import opened PyStr

  /** One `lookup.remove(name)` guarded by `except KeyError`: the answer and the set afterwards. */
  function Consume(lookup: set<string>, name: string): (r: (bool, set<string>))
    ensures r.0 <==> name in lookup
    ensures r.1 <= lookup && name !in r.1
    ensures lookup - r.1 == (if r.0 then {name} else {})
  {
    if name in lookup then (true, lookup - {name}) else (false, lookup)
  }

  /** The answers a run of `check_is_backlinked` calls gives for the names in order. */
  function ConsumeAll(lookup: set<string>, names: seq<string>): (r: seq<bool>)
    ensures |r| == |names|
    decreases |names|
  {
    if names == [] then []
    else
      var (b, rest) := Consume(lookup, names[0]);
      [b] + ConsumeAll(rest, names[1..])
  }

  /** The lookup set left after a run of calls. */
  function Remaining(lookup: set<string>, names: seq<string>): (r: set<string>)
    ensures r <= lookup
    decreases |names|
  {
    if names == [] then lookup else Remaining(Consume(lookup, names[0]).1, names[1..])
  }

  /**
   * A run of calls answers true exactly at the first occurrence of each name
   * that was in the lookup set: a name is back-linked for one file only.
   */
  lemma {:induction false} ConsumeAllFirstOccurrence(lookup: set<string>, names: seq<string>, i: int)
    requires 0 <= i < |names|
    ensures ConsumeAll(lookup, names)[i] <==> names[i] in lookup && names[i] !in names[..i]
    decreases |names|
  {
    var (b, rest) := Consume(lookup, names[0]);
    if i > 0 {
      ConsumeAllFirstOccurrence(rest, names[1..], i - 1);
      assert names[1..][i - 1] == names[i];
      assert names[..i] == [names[0]] + names[1..][..i - 1];
    }
  }

  /** What is left is the lookup set minus every name asked about. */
  lemma {:induction false} RemainingIsDifference(lookup: set<string>, names: seq<string>)
    ensures Remaining(lookup, names) == lookup - set n | n in names
    decreases |names|
  {
    if names != [] {
      RemainingIsDifference(Consume(lookup, names[0]).1, names[1..]);
      assert (set n | n in names) == {names[0]} + set n | n in names[1..];
    }
  }

  /** The mutable lookup set of the current package (`unique_linked_references`). */
  class Lookup {
    var names: set<string>

    constructor(initial: set<string>)
      ensures names == initial
    {
      names := initial;
    }

    /** `check_is_backlinked`: true iff the name was present, and exactly that name is removed. */
    method CheckIsBacklinked(name: string) returns (b: bool)
      modifies this
      ensures b <==> name in old(names)
      ensures names == old(names) - {name}
      ensures (b, names) == Consume(old(names), name)
    {
      b := name in names;
      if b {
        names := names - {name};
      }
    }
  }

  /**
   * `check_is_backlinked` of the older summary code: false when the file is
   * already back-linked outside namespaces, otherwise membership of the name
   * in the bucket `id` of the reference buckets (a missing bucket is false).
   */
  function CheckIsBacklinkedBucket(name: string, id: string, buckets: map<string, set<string>>, isBacklinkedNotNs: bool): (b: bool)
    ensures isBacklinkedNotNs ==> !b
    ensures b <==> !isBacklinkedNotNs && id in buckets && name in buckets[id]
  {
    if isBacklinkedNotNs then false
    else id in buckets && name in buckets[id]
  }

  /** A reference names the file, or names a page below it in the namespace hierarchy. */
  predicate RefersTo(ref: string, name: string)
  {
    ref == name || Contains(ref, name + "/")
  }

  /**
   * The prefix variant (first script and `summarydata`): some reference in
   * the bucket equals the name or contains `name + "/"`.
   */
  function CheckIsBacklinkedPrefix(name: string, id: string, buckets: map<string, set<string>>): bool
  {
    id in buckets && exists ref :: ref in buckets[id] && RefersTo(ref, name)
  }

  /** The prefix variant accepts everything the exact variant accepts. */
  lemma ExactImpliesPrefix(name: string, id: string, buckets: map<string, set<string>>)
    requires CheckIsBacklinkedBucket(name, id, buckets, false)
    ensures CheckIsBacklinkedPrefix(name, id, buckets)
  {
    assert RefersTo(name, name);
  }

  /** A child page `name/child` in the bucket back-links `name` in the prefix variant. */
  lemma {:induction false} ChildBacklinksParent(name: string, child: string, id: string, buckets: map<string, set<string>>)
    requires id in buckets && name + "/" + child in buckets[id]
    ensures CheckIsBacklinkedPrefix(name, id, buckets)
  {
    var ref := name + "/" + child;
    assert ref[0..|name + "/"|] == name + "/";
    assert OccursAt(ref, name + "/", 0);
    assert RefersTo(ref, name);
  }
}

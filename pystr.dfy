/**
 * The handful of Python `str` operations the analyser relies on, written out
 * over `seq<char>`: `strip`, `lower`, `in` (substring), `startswith`,
 * `split`/`join` on a one-character separator and `replace(old, "")`.
 */
module PyStr {

  /** Characters Python's `str.strip()` removes (ASCII and Latin-1 whitespace). */
  predicate IsSpace(c: char)
  {
    c == ' ' || c == '\t' || c == '\n' || c == '\r' || c == '\U{0B}' || c == '\U{0C}'
    || c == '\U{1C}' || c == '\U{1D}' || c == '\U{1E}' || c == '\U{1F}'
    || c == '\U{85}' || c == '\U{A0}'
  }

  function LStrip(s: string): (r: string)
    ensures |r| <= |s|
    ensures r == [] || !IsSpace(r[0])
    ensures forall i :: 0 <= i < |s| - |r| ==> IsSpace(s[i])
  {
    if s != [] && IsSpace(s[0]) then LStrip(s[1..]) else s
  }

  function RStrip(s: string): (r: string)
    ensures |r| <= |s| && r == s[..|r|]
    ensures r == [] || !IsSpace(r[|r| - 1])
    ensures forall i :: |r| <= i < |s| ==> IsSpace(s[i])
  {
    if s != [] && IsSpace(s[|s| - 1]) then RStrip(s[..|s| - 1]) else s
  }

  /** `s.strip()`: no whitespace at either end, and the middle is untouched. */
  function Strip(s: string): (r: string)
    ensures r == [] || (!IsSpace(r[0]) && !IsSpace(r[|r| - 1]))
    ensures |r| <= |s|
  {
    RStrip(LStrip(s))
  }

  predicate IsStripped(s: string)
  {
    s == [] || (!IsSpace(s[0]) && !IsSpace(s[|s| - 1]))
  }

  lemma StripIdempotent(s: string)
    requires IsStripped(s)
    ensures Strip(s) == s
  {
  }

  function LowerChar(c: char): (r: char)
    ensures !('A' <= r <= 'Z')
  {
    if 'A' <= c <= 'Z' then (c as int - 'A' as int + 'a' as int) as char else c
  }

  /** `s.lower()` on the ASCII letters. */
  function Lower(s: string): (r: string)
    ensures |r| == |s|
    ensures forall i :: 0 <= i < |s| ==> r[i] == LowerChar(s[i])
  {
    seq(|s|, i requires 0 <= i < |s| => LowerChar(s[i]))
  }

  predicate IsLower(s: string)
  {
    forall i :: 0 <= i < |s| ==> !('A' <= s[i] <= 'Z')
  }

  /** `s.startswith(p)`. */
  predicate StartsWith(s: string, p: string)
  {
    |p| <= |s| && s[..|p|] == p
  }

  /** `p` occurs in `s` starting at index `i`. */
  predicate OccursAt(s: string, p: string, i: int)
  {
    0 <= i && i + |p| <= |s| && s[i..i + |p|] == p
  }

  /** `p in s` for strings: `p` occurs in `s` at some position. */
  predicate Contains(s: string, p: string)
  {
    exists i :: 0 <= i <= |s| && OccursAt(s, p, i)
  }

  /** A character-level `c in s`. */
  predicate HasChar(s: string, c: char)
  {
    exists i :: 0 <= i < |s| && s[i] == c
  }

  /** Index of the first occurrence of `c`, or `|s|` when there is none. */
  function FindChar(s: string, c: char): (k: nat)
    ensures k <= |s|
    ensures forall i :: 0 <= i < k ==> s[i] != c
    ensures k < |s| ==> s[k] == c
  {
    if s == [] then 0 else if s[0] == c then 0 else 1 + FindChar(s[1..], c)
  }

  /** `s.split(c)`: the pieces between occurrences of `c`; always at least one. */
  function Split(s: string, c: char): (parts: seq<string>)
    ensures |parts| >= 1
    ensures forall i :: 0 <= i < |parts| ==> !HasChar(parts[i], c)
    decreases |s|
  {
    var k := FindChar(s, c);
    if k == |s| then [s] else [s[..k]] + Split(s[k + 1..], c)
  }

  /** `c.join(parts)`. */
  function Join(parts: seq<string>, c: char): (r: string)
  {
    if parts == [] then [] else if |parts| == 1 then parts[0] else parts[0] + [c] + Join(parts[1..], c)
  }

  lemma {:induction false} JoinSplit(s: string, c: char)
    ensures Join(Split(s, c), c) == s
    decreases |s|
  {
    var k := FindChar(s, c);
    if k < |s| {
      JoinSplit(s[k + 1..], c);
      assert s == s[..k] + [c] + s[k + 1..];
    }
  }

  lemma {:induction false} SplitCountsSeparators(s: string, c: char)
    ensures |Split(s, c)| == 1 <==> !HasChar(s, c)
    decreases |s|
  {
    var k := FindChar(s, c);
    if k < |s| {
      var tail := Split(s[k + 1..], c);
      assert |Split(s, c)| == 1 + |tail|;
    }
  }

  /** Position of the first occurrence of `p` in `s`, or `|s|` when absent. */
  function Find(s: string, p: string): (k: nat)
    requires p != []
    ensures k <= |s|
    ensures k < |s| ==> OccursAt(s, p, k)
    ensures forall i :: 0 <= i < k ==> !OccursAt(s, p, i)
    ensures k == |s| ==> !Contains(s, p)
  {
    if |s| < |p| then |s|
    else if s[..|p|] == p then 0
    else
      var k := Find(s[1..], p);
      forall i | 1 <= i <= |s| && OccursAt(s, p, i) ensures OccursAt(s[1..], p, i - 1) {
        assert s[1..][i - 1..i - 1 + |p|] == s[i..i + |p|];
      }
      1 + k
  }

  /** `s.replace(p, "")`: every non-overlapping occurrence, scanned left to right, deleted. */
  function RemoveAll(s: string, p: string): (r: string)
    requires p != []
    ensures |r| <= |s|
    decreases |s|
  {
    var k := Find(s, p);
    if k == |s| then s else s[..k] + RemoveAll(s[k + |p|..], p)
  }

  /** `s.replace("", t)`: `t` before every character and at the end. */
  function ReplaceEmpty(s: string, t: string): (r: string)
    ensures |r| == |s| + (|s| + 1) * |t|
    decreases |s|
  {
    if s == [] then t else t + [s[0]] + ReplaceEmpty(s[1..], t)
  }

  /** `s.replace(p, t)`: every non-overlapping occurrence of `p`, scanned left to right, becomes `t`. */
  function ReplaceAll(s: string, p: string, t: string): (r: string)
  {
    if p == [] then ReplaceEmpty(s, t) else ReplaceFound(s, p, t)
  }

  /** `s.replace(p, t)` for a non-empty `p`. */
  function ReplaceFound(s: string, p: string, t: string): (r: string)
    requires p != []
    decreases |s|
  {
    var k := Find(s, p);
    if k == |s| then s else s[..k] + t + ReplaceFound(s[k + |p|..], p, t)
  }

  /** Replacing with nothing is the deletion `RemoveAll` performs. */
  lemma {:induction false} ReplaceWithNothing(s: string, p: string)
    requires p != []
    ensures ReplaceAll(s, p, "") == RemoveAll(s, p)
    decreases |s|
  {
    var k := Find(s, p);
    if k < |s| {
      var rest := s[k + |p|..];
      ReplaceWithNothing(rest, p);
      assert ReplaceAll(s, p, "") == s[..k] + "" + ReplaceAll(rest, p, "");
      assert RemoveAll(s, p) == s[..k] + RemoveAll(rest, p);
      assert s[..k] + "" == s[..k];
    }
  }

  lemma SliceAround(s: string, i: nat, j: nat)
    requires i <= j <= |s|
    ensures s == s[..i] + s[i..j] + s[j..]
  {
  }

  /** A pattern that does not occur leaves the string unchanged. */
  lemma ReplaceAbsent(s: string, p: string, t: string)
    requires p != [] && !Contains(s, p)
    ensures ReplaceAll(s, p, t) == s
  {
    assert Find(s, p) == |s|;
  }

  /** Replacing a pattern by itself changes nothing. */
  lemma {:induction false} ReplaceBySelf(s: string, p: string)
    requires p != []
    ensures ReplaceAll(s, p, p) == s
    decreases |s|
  {
    var k := Find(s, p);
    if k < |s| {
      var rest := s[k + |p|..];
      ReplaceBySelf(rest, p);
      assert ReplaceAll(s, p, p) == s[..k] + p + ReplaceAll(rest, p, p);
      SliceAround(s, k, k + |p|);
    }
  }

  lemma RemoveAllAbsent(s: string, p: string)
    requires p != []
    requires !Contains(s, p)
    ensures RemoveAll(s, p) == s
  {
  }

  /** Deleting every occurrence of a one-character text leaves none of it. */
  lemma {:induction false} RemoveAllLeavesNone(s: string, p: string)
    requires |p| == 1
    ensures !Contains(RemoveAll(s, p), p)
    decreases |s|
  {
    var k := Find(s, p);
    if k < |s| {
      var rest := s[k + |p|..];
      RemoveAllLeavesNone(rest, p);
      var tail := RemoveAll(rest, p);
      var r := s[..k] + tail;
      forall i | 0 <= i <= |r|
        ensures !OccursAt(r, p, i)
      {
        if i < k {
          assert r[i..i + 1] == s[i..i + 1];
          assert !OccursAt(s, p, i);
        } else if i < |r| {
          assert r[i..i + 1] == tail[i - k..i - k + 1];
          assert !OccursAt(tail, p, i - k);
        }
      }
    } else {
      assert RemoveAll(s, p) == s;
    }
  }

  lemma {:induction false} FindCharAfter(a: string, c: char, b: string)
    requires !HasChar(a, c)
    ensures FindChar(a + [c] + b, c) == |a|
    decreases |a|
  {
    if a != [] {
      assert !HasChar(a[1..], c) by {
        forall j | 0 <= j < |a[1..]| ensures a[1..][j] != c {
          assert a[j + 1] == c ==> HasChar(a, c);
        }
      }
      FindCharAfter(a[1..], c, b);
      assert (a + [c] + b)[1..] == a[1..] + [c] + b;
      assert a[0] != c by { assert a[0] == c ==> HasChar(a, c); }
    }
  }

  lemma FindCharAbsent(a: string, c: char)
    requires !HasChar(a, c)
    ensures FindChar(a, c) == |a|
  {
    var k := FindChar(a, c);
    assert k < |a| ==> HasChar(a, c);
  }

  /** `(a + c + b).split(c)` is `[a]` followed by the fields of `b`, for `a` without `c`. */
  lemma SplitAfterField(a: string, c: char, b: string)
    requires !HasChar(a, c)
    ensures Split(a + [c] + b, c) == [a] + Split(b, c)
  {
    FindCharAfter(a, c, b);
    var s := a + [c] + b;
    assert s[..|a|] == a;
    assert s[|a| + 1..] == b;
  }

  /** Splitting a join of `c`-free parts gives the parts back. */
  lemma {:induction false} SplitJoin(parts: seq<string>, c: char)
    requires |parts| >= 1
    requires forall i :: 0 <= i < |parts| ==> !HasChar(parts[i], c)
    ensures Split(Join(parts, c), c) == parts
    decreases |parts|
  {
    if |parts| == 1 {
      FindCharAbsent(parts[0], c);
    } else {
      SplitJoin(parts[1..], c);
      SplitAfterField(parts[0], c, Join(parts[1..], c));
      assert parts == [parts[0]] + parts[1..];
    }
  }

  /** The padding `str.strip()` removes is exactly the surrounding whitespace. */
  lemma {:induction false} LStripSpaces(left: string, rest: string)
    requires forall k :: 0 <= k < |left| ==> IsSpace(left[k])
    requires rest == [] || !IsSpace(rest[0])
    ensures LStrip(left + rest) == rest
    decreases |left|
  {
    if left == [] {
      assert left + rest == rest;
    } else {
      assert (left + rest)[1..] == left[1..] + rest;
      LStripSpaces(left[1..], rest);
    }
  }

  lemma {:induction false} RStripSpaces(rest: string, right: string)
    requires forall k :: 0 <= k < |right| ==> IsSpace(right[k])
    requires rest == [] || !IsSpace(rest[|rest| - 1])
    ensures RStrip(rest + right) == rest
    decreases |right|
  {
    if right == [] {
      assert rest + right == rest;
    } else {
      var r := right[..|right| - 1];
      assert (rest + right)[..|rest + right| - 1] == rest + r;
      RStripSpaces(rest, r);
    }
  }

  lemma StripPadded(left: string, core: string, right: string)
    requires forall k :: 0 <= k < |left| ==> IsSpace(left[k])
    requires forall k :: 0 <= k < |right| ==> IsSpace(right[k])
    requires core != [] && IsStripped(core)
    ensures Strip(left + core + right) == core
  {
    assert left + core + right == left + (core + right);
    LStripSpaces(left, core + right);
    RStripSpaces(core, right);
  }

  /** A join of parts without `x`, on a separator other than `x`, has no `x`. */
  lemma {:induction false} JoinNoChar(parts: seq<string>, c: char, x: char)
    requires x != c
    requires forall i :: 0 <= i < |parts| ==> !HasChar(parts[i], x)
    ensures !HasChar(Join(parts, c), x)
    decreases |parts|
  {
    if |parts| > 1 {
      JoinNoChar(parts[1..], c, x);
      var a := parts[0];
      var b := Join(parts[1..], c);
      var j := a + [c] + b;
      forall k | 0 <= k < |j| ensures j[k] != x {
        if k < |a| {
          assert j[k] == a[k];
        } else if k > |a| {
          assert j[k] == b[k - |a| - 1];
        }
      }
    }
  }

  /** The join starts with the first part's first character and ends with the last part's last one. */
  lemma {:induction false} JoinEnds(parts: seq<string>, c: char)
    requires |parts| >= 1
    requires forall i :: 0 <= i < |parts| ==> parts[i] != []
    ensures Join(parts, c) != []
    ensures Join(parts, c)[0] == parts[0][0]
    ensures Join(parts, c)[|Join(parts, c)| - 1] == parts[|parts| - 1][|parts[|parts| - 1]| - 1]
    decreases |parts|
  {
    if |parts| > 1 {
      assert forall i :: 0 <= i < |parts[1..]| ==> parts[1..][i] == parts[i + 1];
      JoinEnds(parts[1..], c);
      assert parts[1..][|parts[1..]| - 1] == parts[|parts| - 1];
    }
  }

  /** A join of stripped, non-empty parts is stripped. */
  lemma JoinStripped(parts: seq<string>, c: char)
    requires |parts| >= 1
    requires forall i :: 0 <= i < |parts| ==> parts[i] != [] && IsStripped(parts[i])
    ensures IsStripped(Join(parts, c))
  {
    JoinEnds(parts, c);
  }

  /** Joining one more part appends the separator and that part. */
  lemma {:induction false} JoinSnoc(parts: seq<string>, x: string, c: char)
    requires |parts| >= 1
    ensures Join(parts + [x], c) == Join(parts, c) + [c] + x
    decreases |parts|
  {
    if |parts| > 1 {
      assert (parts + [x])[1..] == parts[1..] + [x];
      JoinSnoc(parts[1..], x, c);
    }
  }
}

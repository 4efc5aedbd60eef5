/**
 * The rewriting of Logseq's (Clojure) date formats into Python `strftime`
 * formats: every "o" is deleted, then the format is scanned left to right
 * and, at each position, the longest date token found there is replaced by
 * its Python directive.  The regular expression of the source is an
 * alternation of the tokens, longest first; it is modelled as that list of
 * alternatives, tried in order.
 */
module DateTokens {
  import opened Wrappers
  import opened PyStr
  import opened Order

  type TokenMap = seq<(string, string)>

  /** `DATETIME_TOKEN_MAP`, in its dict order. */
  const TokenMapTable: TokenMap := [
    ("yyyy", "%Y"), ("xxxx", "%Y"), ("yy", "%y"), ("xx", "%y"),
    ("MMMM", "%B"), ("MMM", "%b"), ("MM", "%m"), ("M", "%#m"),
    ("dd", "%d"), ("d", "%#d"), ("D", "%j"),
    ("EEEE", "%A"), ("EEE", "%a"), ("EE", "%a"), ("E", "%a"), ("e", "%u"),
    ("HH", "%H"), ("H", "%H"), ("hh", "%I"), ("h", "%I"),
    ("mm", "%M"), ("m", "%#M"), ("ss", "%S"), ("s", "%#S"), ("SSS", "%f"),
    ("a", "%p"), ("A", "%p"), ("Z", "%z"), ("ZZ", "%z")
  ]

  function Keys(m: TokenMap): (ks: seq<string>)
    ensures |ks| == |m|
    ensures forall i :: 0 <= i < |m| ==> ks[i] == m[i].0
  {
    seq(|m|, i requires 0 <= i < |m| => m[i].0)
  }

  /** `m.get(token, token)`. */
  function GetOr(m: TokenMap, token: string): (r: string)
    decreases |m|
  {
    if m == [] then token
    else if m[0].0 == token then m[0].1
    else GetOr(m[1..], token)
  }

  /** A key the table holds is looked up to the value of one of its entries. */
  lemma {:induction false} GetOrSource(m: TokenMap, token: string, i: nat)
    requires i < |m| && m[i].0 == token
    ensures exists j :: 0 <= j < |m| && m[j] == (token, GetOr(m, token))
    decreases |m|
  {
    if m[0].0 != token {
      assert m[1..][i - 1] == m[i];
      GetOrSource(m[1..], token, i - 1);
      var j :| 0 <= j < |m[1..]| && m[1..][j] == (token, GetOr(m, token));
      assert m[j + 1] == m[1..][j];
    }
  }

  /** The value found is a value of the table, or the token itself. */
  lemma {:induction false} GetOrFrom(m: TokenMap, token: string)
    ensures GetOr(m, token) == token || exists i :: 0 <= i < |m| && m[i].1 == GetOr(m, token)
    decreases |m|
  {
    if m != [] && m[0].0 != token {
      GetOrFrom(m[1..], token);
      if GetOr(m, token) != token {
        var i :| 0 <= i < |m[1..]| && m[1..][i].1 == GetOr(m, token);
        assert m[i + 1] == m[1..][i];
      }
    }
  }

  /** An entry whose key no earlier entry has is what the lookup returns. */
  lemma {:induction false} GetOrAt(m: TokenMap, i: nat)
    requires i < |m|
    requires forall j :: 0 <= j < i ==> m[j].0 != m[i].0
    ensures GetOr(m, m[i].0) == m[i].1
    decreases i
  {
    if i > 0 {
      assert m[1..][i - 1] == m[i];
      GetOrAt(m[1..], i - 1);
    }
  }

  function KeyLen(k: string): int
  {
    |k|
  }

  /** A valid alternation: no alternative is empty. */
  predicate NonEmptyAlternatives(p: seq<string>)
  {
    forall k :: k in p ==> k != []
  }

  /** The alternatives are ordered longest first. */
  predicate LongestFirst(p: seq<string>)
  {
    SortedDesc(p, KeyLen)
  }

  /** The alternation matched at the start of `s`: its first alternative that is a prefix. */
  function FirstMatch(p: seq<string>, s: string): (r: Option<string>)
    ensures r.Some? ==> r.value in p && StartsWith(s, r.value)
    decreases |p|
  {
    if p == [] then None
    else if StartsWith(s, p[0]) then Some(p[0])
    else FirstMatch(p[1..], s)
  }

  /** Nothing matches exactly when no alternative is a prefix. */
  lemma {:induction false} FirstMatchNone(p: seq<string>, s: string)
    ensures FirstMatch(p, s).None? <==> forall k :: k in p ==> !StartsWith(s, k)
    decreases |p|
  {
    if p != [] && !StartsWith(s, p[0]) {
      FirstMatchNone(p[1..], s);
      assert forall k :: k in p ==> k == p[0] || k in p[1..];
    }
  }

  /** Longest first, the first alternative that matches is at least as long as any other that does. */
  lemma {:induction false} FirstMatchLongest(p: seq<string>, s: string, k: string)
    requires LongestFirst(p)
    requires k in p && StartsWith(s, k)
    ensures FirstMatch(p, s).Some? && |k| <= |FirstMatch(p, s).value|
    decreases |p|
  {
    var j :| 0 <= j < |p| && p[j] == k;
    if !StartsWith(s, p[0]) {
      assert j > 0;
      assert p[1..][j - 1] == k;
      assert LongestFirst(p[1..]) by {
        forall a, b | 0 <= a < b < |p[1..]| ensures KeyLen(p[1..][a]) >= KeyLen(p[1..][b]) {
          assert p[1..][a] == p[a + 1] && p[1..][b] == p[b + 1];
        }
      }
      FirstMatchLongest(p[1..], s, k);
    } else if j > 0 {
      assert KeyLen(p[0]) >= KeyLen(p[j]);
    }
  }

  /** The token the alternation takes at the start of `s` is the longest key that is a prefix of `s`. */
  predicate IsLongestMatch(p: seq<string>, s: string, k: string)
  {
    k in p && StartsWith(s, k) && forall k' :: k' in p && StartsWith(s, k') ==> |k'| <= |k|
  }

  lemma MatchIsLongest(p: seq<string>, s: string, k: string)
    requires LongestFirst(p)
    ensures FirstMatch(p, s) == Some(k) <==> IsLongestMatch(p, s, k)
  {
    if FirstMatch(p, s) == Some(k) {
      forall k' | k' in p && StartsWith(s, k') ensures |k'| <= |k| {
        FirstMatchLongest(p, s, k');
      }
    }
    if IsLongestMatch(p, s, k) {
      FirstMatchLongest(p, s, k);
      var k0 := FirstMatch(p, s).value;
      assert |k0| <= |k|;
      assert k0 == s[..|k0|] && k == s[..|k|];
    }
  }

  /**
   * `pattern.sub(replace_token, s)`: at each position the matched token is
   * replaced by its mapped value (the token itself when unmapped), and a
   * position where nothing matches keeps its character.
   */
  function Sub(p: seq<string>, m: TokenMap, s: string): (r: string)
    requires NonEmptyAlternatives(p)
    decreases |s|
  {
    if s == [] then []
    else match FirstMatch(p, s)
      case Some(k) => GetOr(m, k) + Sub(p, m, s[|k|..])
      case None => [s[0]] + Sub(p, m, s[1..])
  }

  /** Where a longest key starts, its value is emitted and the scan goes on after it. */
  lemma SubAtToken(p: seq<string>, m: TokenMap, s: string, k: string)
    requires NonEmptyAlternatives(p) && LongestFirst(p)
    requires IsLongestMatch(p, s, k)
    ensures Sub(p, m, s) == GetOr(m, k) + Sub(p, m, s[|k|..])
  {
    MatchIsLongest(p, s, k);
  }

  /** Where no key starts, the character is copied. */
  lemma SubCopies(p: seq<string>, m: TokenMap, s: string)
    requires NonEmptyAlternatives(p)
    requires s != [] && forall k :: k in p ==> !StartsWith(s, k)
    ensures Sub(p, m, s) == [s[0]] + Sub(p, m, s[1..])
  {
    FirstMatchNone(p, s);
  }

  /** A character absent from the input and from every mapped value is absent from the output. */
  lemma {:induction false} SubAvoids(p: seq<string>, m: TokenMap, s: string, c: char)
    requires NonEmptyAlternatives(p)
    requires !HasChar(s, c)
    requires forall i :: 0 <= i < |m| ==> !HasChar(m[i].1, c)
    ensures !HasChar(Sub(p, m, s), c)
    decreases |s|
  {
    if s != [] {
      match FirstMatch(p, s)
      case Some(k) =>
        var v := GetOr(m, k);
        assert !HasChar(v, c) by {
          GetOrFrom(m, k);
          if v == k {
            assert k == s[..|k|];
          }
        }
        var rest := s[|k|..];
        assert !HasChar(rest, c) by {
          forall i | 0 <= i < |rest| ensures rest[i] != c {
            assert rest[i] == s[|k| + i];
          }
        }
        SubAvoids(p, m, rest, c);
        var r := Sub(p, m, rest);
        forall i | 0 <= i < |v + r| ensures (v + r)[i] != c {
          if i >= |v| {
            assert (v + r)[i] == r[i - |v|];
          }
        }
      case None =>
        var rest := s[1..];
        assert !HasChar(rest, c) by {
          forall i | 0 <= i < |rest| ensures rest[i] != c {
            assert rest[i] == s[1 + i];
          }
        }
        SubAvoids(p, m, rest, c);
        var r := Sub(p, m, rest);
        forall i | 0 <= i < |[s[0]] + r| ensures ([s[0]] + r)[i] != c {
          if i >= 1 {
            assert ([s[0]] + r)[i] == r[i - 1];
          }
        }
    }
  }

  /** `convert_cljs_date_to_py` with the compiled alternation `p`. */
  function Convert(p: seq<string>, cljsFormat: string): (r: string)
    requires NonEmptyAlternatives(p)
  {
    Sub(p, TokenMapTable, RemoveAll(cljsFormat, "o"))
  }

  /** No mapped directive contains "o", so the converted format never does. */
  lemma ConvertedHasNoO(p: seq<string>, cljsFormat: string)
    requires NonEmptyAlternatives(p)
    ensures !HasChar(Convert(p, cljsFormat), 'o')
  {
    var s := RemoveAll(cljsFormat, "o");
    RemoveAllLeavesNone(cljsFormat, "o");
    assert !HasChar(s, 'o') by {
      forall i | 0 <= i < |s| ensures s[i] != 'o' {
        assert !OccursAt(s, "o", i);
        assert s[i..i + 1][0] == s[i];
      }
    }
    assert forall i :: 0 <= i < |TokenMapTable| ==> !HasChar(TokenMapTable[i].1, 'o');
    SubAvoids(p, TokenMapTable, s, 'o');
  }

  /** The alternation `set_datetime_token_pattern` compiles: the keys, sorted by length, longest first. */
  function TokenPattern(m: TokenMap): (p: seq<string>)
    requires forall i :: 0 <= i < |m| ==> m[i].0 != []
    ensures NonEmptyAlternatives(p) && LongestFirst(p)
    ensures forall k :: k in p <==> k in Keys(m)
  {
    var ks := Keys(m);
    var p := SortDesc(ks, KeyLen);
    assert forall k :: k in p <==> k in multiset(ks);
    p
  }

  lemma TableKeysNonEmpty()
    ensures forall i :: 0 <= i < |TokenMapTable| ==> TokenMapTable[i].0 != []
  {
  }

  /** Any alternation holding exactly the table's keys, longest first. */
  ghost predicate IsTableAlternation(p: seq<string>)
  {
    NonEmptyAlternatives(p) && LongestFirst(p) && forall k :: k in p <==> k in Keys(TokenMapTable)
  }

  /** `t` repeats one character. */
  predicate Run(t: string)
  {
    t != [] && forall i :: 0 <= i < |t| ==> t[i] == t[0]
  }

  /** The length of the run of `s[0]` that `s` starts with. */
  function RunLength(s: string): (n: nat)
    requires s != []
    ensures 1 <= n <= |s|
    ensures forall i :: 0 <= i < n ==> s[i] == s[0]
    ensures n < |s| ==> s[n] != s[0]
    decreases |s|
  {
    if |s| == 1 || s[1] != s[0] then 1
    else
      var n := RunLength(s[1..]);
      assert forall i :: 0 <= i < n ==> s[1..][i] == s[i + 1];
      1 + n
  }

  /**
   * The table read as letter and repetition count: every key of
   * `DATETIME_TOKEN_MAP` repeats one letter, and its directive is
   * determined by that letter and the number of repetitions ("" for none).
   */
  function DirectiveOf(c: char, n: nat): string
  {
    match (c, n)
    case ('y', 4) => "%Y" case ('x', 4) => "%Y" case ('y', 2) => "%y" case ('x', 2) => "%y"
    case ('M', 4) => "%B" case ('M', 3) => "%b" case ('M', 2) => "%m" case ('M', 1) => "%#m"
    case ('d', 2) => "%d" case ('d', 1) => "%#d" case ('D', 1) => "%j"
    case ('E', 4) => "%A" case ('E', 3) => "%a" case ('E', 2) => "%a" case ('E', 1) => "%a"
    case ('e', 1) => "%u"
    case ('H', 2) => "%H" case ('H', 1) => "%H" case ('h', 2) => "%I" case ('h', 1) => "%I"
    case ('m', 2) => "%M" case ('m', 1) => "%#M" case ('s', 2) => "%S" case ('s', 1) => "%#S"
    case ('S', 3) => "%f"
    case ('a', 1) => "%p" case ('A', 1) => "%p" case ('Z', 1) => "%z" case ('Z', 2) => "%z"
    case _ => ""
  }

  /** The table entry `i` agrees with its reading as letter and count. */
  predicate EntryIsRun(i: nat)
    requires i < |TokenMapTable|
  {
    var (k, v) := TokenMapTable[i];
    Run(k) && v != "" && DirectiveOf(k[0], |k|) == v
  }

  lemma RunsFirst()
    ensures forall i :: 0 <= i < 8 ==> EntryIsRun(i)
  {
  }

  lemma RunsSecond()
    ensures forall i :: 8 <= i < 16 ==> EntryIsRun(i)
  {
  }

  lemma RunsThird()
    ensures forall i :: 16 <= i < 24 ==> EntryIsRun(i)
  {
  }

  lemma RunsFourth()
    ensures forall i :: 24 <= i < |TokenMapTable| ==> EntryIsRun(i)
  {
  }

  lemma TableIsRuns()
    ensures forall i :: 0 <= i < |TokenMapTable| ==> EntryIsRun(i)
  {
    RunsFirst();
    RunsSecond();
    RunsThird();
    RunsFourth();
  }

  /** The letters some key is made of. */
  predicate TokenLetter(c: char)
  {
    c == 'y' || c == 'x' || c == 'M' || c == 'd' || c == 'D' || c == 'E' || c == 'e' || c == 'H'
    || c == 'h' || c == 'm' || c == 's' || c == 'S' || c == 'a' || c == 'A' || c == 'Z'
  }

  lemma DirectiveLetter(c: char, n: nat)
    requires DirectiveOf(c, n) != ""
    ensures TokenLetter(c)
  {
  }

  /** A key found at the start of `s` is no longer than the run `s` starts with, and made of a token letter. */
  lemma KeyWithinRun(s: string, k: string)
    requires s != [] && k in Keys(TokenMapTable) && StartsWith(s, k)
    ensures |k| <= RunLength(s) && TokenLetter(s[0])
  {
    var i :| 0 <= i < |TokenMapTable| && Keys(TokenMapTable)[i] == k;
    TableIsRuns();
    assert EntryIsRun(i);
    assert k[0] == s[0];
    DirectiveLetter(k[0], |k|);
    assert forall j :: 0 <= j < |k| ==> s[j] == s[0] by {
      forall j | 0 <= j < |k| ensures s[j] == s[0] {
        assert s[j] == k[j];
      }
    }
  }

  /** The lookup of a table key gives that key's directive. */
  lemma TableGet(i: nat)
    requires i < |TokenMapTable|
    ensures GetOr(TokenMapTable, TokenMapTable[i].0) == TokenMapTable[i].1
  {
    var k := TokenMapTable[i].0;
    GetOrSource(TokenMapTable, k, i);
    TableIsRuns();
    assert EntryIsRun(i);
    var j :| 0 <= j < |TokenMapTable| && TokenMapTable[j] == (k, GetOr(TokenMapTable, k));
    assert EntryIsRun(j);
  }

  /** A run that the next character does not continue is the run the text starts with. */
  lemma RunThenOther(k: string, rest: string)
    requires Run(k) && (rest == [] || rest[0] != k[0])
    ensures RunLength(k + rest) == |k|
  {
    var s := k + rest;
    assert forall i :: 0 <= i < |k| ==> s[i] == k[i] == s[0];
    assert |k| < |s| ==> s[|k|] == rest[0];
  }

  /** Where the key of entry `i` is the whole run the text starts with, that key's directive is emitted. */
  lemma TableStep(p: seq<string>, i: nat, rest: string)
    requires IsTableAlternation(p)
    requires i < |TokenMapTable|
    requires rest == [] || rest[0] != TokenMapTable[i].0[0]
    ensures Sub(p, TokenMapTable, TokenMapTable[i].0 + rest) == TokenMapTable[i].1 + Sub(p, TokenMapTable, rest)
  {
    var k := TokenMapTable[i].0;
    var s := k + rest;
    TableIsRuns();
    assert EntryIsRun(i);
    RunThenOther(k, rest);
    assert Keys(TokenMapTable)[i] == k;
    assert s[..|k|] == k && s[|k|..] == rest;
    forall k' | k' in p && StartsWith(s, k') ensures |k'| <= |k| {
      KeyWithinRun(s, k');
    }
    SubAtToken(p, TokenMapTable, s, k);
    TableGet(i);
  }

  /** Where the text starts with a character no key is made of, the character is copied. */
  lemma TableCopy(p: seq<string>, c: char, rest: string)
    requires IsTableAlternation(p)
    requires !TokenLetter(c)
    ensures Sub(p, TokenMapTable, [c] + rest) == [c] + Sub(p, TokenMapTable, rest)
  {
    var s := [c] + rest;
    forall k | k in p ensures !StartsWith(s, k) {
      if StartsWith(s, k) {
        KeyWithinRun(s, k);
      }
    }
    SubCopies(p, TokenMapTable, s);
    assert s[1..] == rest;
  }

  /** Deleting a character the text does not hold changes nothing. */
  lemma RemoveAbsentChar(s: string, c: char)
    requires !HasChar(s, c)
    ensures RemoveAll(s, [c]) == s
  {
    forall i | 0 <= i <= |s| ensures !OccursAt(s, [c], i) {
      if i < |s| {
        assert s[i..i + 1][0] == s[i] != c;
      }
    }
  }

  /** Deleting a character that occurs once removes exactly that occurrence. */
  lemma RemoveSingleChar(a: string, c: char, b: string)
    requires !HasChar(a, c) && !HasChar(b, c)
    ensures RemoveAll(a + [c] + b, [c]) == a + b
  {
    var s := a + [c] + b;
    forall i | 0 <= i < |a| ensures !OccursAt(s, [c], i) {
      assert s[i..i + 1][0] == s[i] == a[i];
    }
    assert OccursAt(s, [c], |a|) by {
      assert s[|a|..|a| + 1] == [c];
    }
    assert Find(s, [c]) == |a|;
    assert s[..|a|] == a;
    assert s[|a| + 1..] == b;
    RemoveAbsentChar(b, c);
  }

  /** The conversions named in the documentation of the date tokens: "EEEE" to "%A". */
  lemma SampleEEEE(p: seq<string>, fmt: string)
    requires IsTableAlternation(p) && fmt == "EEEE"
    ensures Convert(p, fmt) == "%A"
  {
    var e := TokenMapTable[11];
    assert e == ("EEEE", "%A");
    RemoveAbsentChar(e.0, 'o');
    TableStep(p, 11, "");
    assert e.0 + "" == e.0;
    assert Sub(p, TokenMapTable, "") == "";
  }

  /** "yyyy-MM-dd" to "%Y-%m-%d". */
  lemma SampleIso(p: seq<string>, fmt: string)
    requires IsTableAlternation(p) && fmt == "yyyy-MM-dd"
    ensures Convert(p, fmt) == "%Y-%m-%d"
  {
    var y, mm, dd := TokenMapTable[0], TokenMapTable[6], TokenMapTable[8];
    assert y == ("yyyy", "%Y") && mm == ("MM", "%m") && dd == ("dd", "%d");
    var r4 := dd.0 + "";
    var r3 := ['-'] + r4;
    var r2 := mm.0 + r3;
    var r1 := ['-'] + r2;
    IsoInput(fmt);
    TableStep(p, 8, "");
    TableCopy(p, '-', r4);
    TableStep(p, 6, r3);
    TableCopy(p, '-', r2);
    TableStep(p, 0, r1);
    assert Sub(p, TokenMapTable, "") == "";
    assert Convert(p, fmt) == y.1 + (['-'] + (mm.1 + (['-'] + (dd.1 + ""))));
    IsoPieces();
  }

  /** "MMM do, yyyy" to "%b %#d, %Y": the "o" of the ordinal is deleted first. */
  lemma SampleOrdinal(p: seq<string>, fmt: string)
    requires IsTableAlternation(p) && fmt == "MMM do, yyyy"
    ensures Convert(p, fmt) == "%b %#d, %Y"
  {
    var mmm, d, y := TokenMapTable[5], TokenMapTable[9], TokenMapTable[0];
    assert mmm == ("MMM", "%b") && d == ("d", "%#d") && y == ("yyyy", "%Y");
    var r3 := d.0 + ([','] + ([' '] + (y.0 + "")));
    var r2 := [' '] + r3;
    OrdinalInput(fmt);
    OrdinalLayout();
    OrdinalRest(p);
    TableCopy(p, ' ', r3);
    TableStep(p, 5, r2);
    assert Convert(p, fmt) == mmm.1 + ([' '] + (d.1 + ([','] + ([' '] + (y.1 + "")))));
    OrdinalPieces();
  }

  lemma OrdinalRest(p: seq<string>)
    requires IsTableAlternation(p)
    ensures var d, y := TokenMapTable[9], TokenMapTable[0];
      Sub(p, TokenMapTable, d.0 + ([','] + ([' '] + (y.0 + "")))) == d.1 + ([','] + ([' '] + (y.1 + "")))
  {
    var d, y := TokenMapTable[9], TokenMapTable[0];
    assert d.0 == "d" && y.0 == "yyyy";
    var r6 := y.0 + "";
    var r5 := [' '] + r6;
    var r4 := [','] + r5;
    TableStep(p, 0, "");
    TableCopy(p, ' ', r6);
    TableCopy(p, ',', r5);
    TableStep(p, 9, r4);
    assert Sub(p, TokenMapTable, "") == "";
  }

  lemma IsoInput(fmt: string)
    requires fmt == "yyyy-MM-dd"
    ensures RemoveAll(fmt, "o") == "yyyy" + (['-'] + ("MM" + (['-'] + ("dd" + ""))))
  {
    RemoveAbsentChar(fmt, 'o');
  }

  lemma OrdinalInput(fmt: string)
    requires fmt == "MMM do, yyyy"
    ensures RemoveAll(fmt, "o") == "MMM d, yyyy"
  {
    var a, b := "MMM d", ", yyyy";
    assert fmt == a + ['o'] + b;
    RemoveSingleChar(a, 'o', b);
    assert a + b == "MMM d, yyyy";
  }

  lemma OrdinalLayout()
    ensures "MMM d, yyyy" == "MMM" + ([' '] + ("d" + ([','] + ([' '] + ("yyyy" + "")))))
  {
  }

  lemma IsoPieces()
    ensures "%Y" + (['-'] + ("%m" + (['-'] + ("%d" + "")))) == "%Y-%m-%d"
  {
  }

  lemma OrdinalPieces()
    ensures "%b" + ([' '] + ("%#d" + ([','] + ([' '] + ("%Y" + ""))))) == "%b %#d, %Y"
  {
  }

  class LogseqJournalFormats {
    var file: string
    var page: string

    constructor ()
      ensures file == "" && page == ""
    {
      file := "";
      page := "";
    }
  }

  class LogseqDateTimeTokens {
    /** `_token_pattern`: None until the pattern is compiled. */
    var tokenPattern: Option<seq<string>>

    constructor ()
      ensures tokenPattern == None
    {
      tokenPattern := None;
    }

    method SetDatetimeTokenPattern()
      modifies this
      ensures tokenPattern == Some(TokenPattern(TokenMapTable))
    {
      TableKeysNonEmpty();
      tokenPattern := Some(TokenPattern(TokenMapTable));
    }

    /** Converting before the pattern is compiled fails on the missing pattern. */
    method ConvertCljsDateToPy(cljsFormat: string) returns (r: Result<string>)
      requires tokenPattern.Some? ==> NonEmptyAlternatives(tokenPattern.value)
      ensures tokenPattern.None? ==> r.Err?
      ensures tokenPattern.Some? ==> r == Ok(Convert(tokenPattern.value, cljsFormat))
    {
      match tokenPattern
      case None =>
        r := Err(AttributeMissing("sub"));
      case Some(p) =>
        r := Ok(Convert(p, cljsFormat));
    }

    /**
     * `set_journal_py_formatting`: both journal formats converted from the
     * graph configuration; a missing setting is `None`, which has no `replace`.
     */
    method SetJournalPyFormatting(graphConfig: map<string, string>, ljf: LogseqJournalFormats) returns (r: Result<()>)
      requires tokenPattern.Some? ==> NonEmptyAlternatives(tokenPattern.value)
      modifies ljf
      ensures r.Ok? <==> tokenPattern.Some? && ":journal/file-name-format" in graphConfig && ":journal/page-title-format" in graphConfig
      ensures r.Ok? ==> ljf.file == Convert(tokenPattern.value, graphConfig[":journal/file-name-format"])
      ensures r.Ok? ==> ljf.page == Convert(tokenPattern.value, graphConfig[":journal/page-title-format"])
    {
      if ":journal/file-name-format" !in graphConfig {
        return Err(AttributeMissing("replace"));
      }
      var f := ConvertCljsDateToPy(graphConfig[":journal/file-name-format"]);
      if f.Err? {
        return Err(f.error);
      }
      ljf.file := f.value;
      if ":journal/page-title-format" !in graphConfig {
        return Err(AttributeMissing("replace"));
      }
      var g := ConvertCljsDateToPy(graphConfig[":journal/page-title-format"]);
      ljf.page := g.value;
      r := Ok(());
    }
  }
}

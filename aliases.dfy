/**
 * `process_aliases`: the bracket-aware comma splitter that turns the value
 * of an `alias::` property into a list of alias names.  A `[[` switches
 * splitting off and a `]]` switches it back on; both markers are skipped two
 * characters at a time; every other character is collected, and each piece
 * is stripped and lower-cased, with empty pieces dropped.
 */
module Aliases {
  import opened PyStr

  /** A finished piece as it is appended: `"".join(current).strip().lower()`. */
  function Piece(current: string): (p: string)
    ensures IsStripped(p) && IsLower(p)
  {
    LowerKeepsStripped(Strip(current));
    Lower(Strip(current))
  }

  lemma LowerKeepsStripped(s: string)
    requires IsStripped(s)
    ensures IsStripped(Lower(s))
  {
    if s != [] {
      assert Lower(s)[0] == LowerChar(s[0]);
      assert Lower(s)[|s| - 1] == LowerChar(s[|s| - 1]);
    }
  }

  /** Append the piece made of `current` when it is not empty. */
  function Emit(results: seq<string>, current: string): seq<string>
  {
    if Piece(current) != [] then results + [Piece(current)] else results
  }

  /** The doubled bracket `c` starts at `i`: `s[i:i+2] == c + c`. */
  predicate MarkerAt(s: string, i: int, c: char)
  {
    0 <= i && i + 1 < |s| && s[i] == c && s[i + 1] == c
  }

  /** The two-character test agrees with the slice comparison the loop makes. */
  lemma MarkerAtIsSlice(s: string, i: nat, c: char)
    ensures MarkerAt(s, i, c) <==> i + 2 <= |s| && s[i..i + 2] == [c, c]
  {
    if i + 2 <= |s| {
      assert s[i..i + 2] == [s[i], s[i + 1]];
    }
  }

  /**
   * The scanner of `process_aliases` from position `i`, with the characters
   * of the open piece in `current`, the bracket flag, and the pieces so far.
   */
  function Scan(s: string, i: nat, current: string, inside: bool, results: seq<string>): seq<string>
    requires i <= |s|
    decreases |s| - i
  {
    if i == |s| then Emit(results, current)
    else if MarkerAt(s, i, '[') then Scan(s, i + 2, current, true, results)
    else if MarkerAt(s, i, ']') then Scan(s, i + 2, current, false, results)
    else if s[i] == ',' && !inside then Scan(s, i + 1, [], inside, Emit(results, current))
    else Scan(s, i + 1, current + [s[i]], inside, results)
  }

  /** The splitter on its input as given (the copy in `src/contentdata.py`). */
  function SplitAliases(s: string): seq<string>
  {
    Scan(s, 0, [], false, [])
  }

  /** Everything `Emit` keeps is non-empty, stripped and lower-case. */
  predicate WellFormed(results: seq<string>)
  {
    forall k :: 0 <= k < |results| ==> results[k] != [] && IsStripped(results[k]) && IsLower(results[k])
  }

  lemma {:induction false} ScanWellFormed(s: string, i: nat, current: string, inside: bool, results: seq<string>)
    requires i <= |s| && WellFormed(results)
    ensures WellFormed(Scan(s, i, current, inside, results))
    decreases |s| - i
  {
    if i == |s| {
      EmitWellFormed(results, current);
    } else if MarkerAt(s, i, '[') {
      ScanWellFormed(s, i + 2, current, true, results);
    } else if MarkerAt(s, i, ']') {
      ScanWellFormed(s, i + 2, current, false, results);
    } else if s[i] == ',' && !inside {
      EmitWellFormed(results, current);
      ScanWellFormed(s, i + 1, [], inside, Emit(results, current));
    } else {
      ScanWellFormed(s, i + 1, current + [s[i]], inside, results);
    }
  }

  lemma EmitWellFormed(results: seq<string>, current: string)
    requires WellFormed(results)
    ensures WellFormed(Emit(results, current))
  {
  }

  /** Every alias produced is non-empty, stripped and lower-case. */
  lemma AliasesWellFormed(s: string)
    ensures WellFormed(SplitAliases(s))
  {
    ScanWellFormed(s, 0, [], false, []);
  }

  /**
   * `process_aliases` of the current package: strip the whole value, then
   * run the index/buffer loop.
   */
  method ProcessAliases(aliases: string) returns (results: seq<string>)
    ensures results == SplitAliases(Strip(aliases))
    ensures WellFormed(results)
  {
    results := ScanAliases(Strip(aliases));
  }

  /** The `while i < len(aliases)` loop itself. */
  method ScanAliases(aliases: string) returns (results: seq<string>)
    ensures results == SplitAliases(aliases)
    ensures WellFormed(results)
  {
    results := [];
    var current: string := [];
    var inside := false;
    var i := 0;
    while i < |aliases|
      invariant 0 <= i <= |aliases|
      invariant Scan(aliases, i, current, inside, results) == SplitAliases(aliases)
      decreases |aliases| - i
    {
      MarkerAtIsSlice(aliases, i, '[');
      MarkerAtIsSlice(aliases, i, ']');
      if i + 2 <= |aliases| && aliases[i..i + 2] == "[[" {
        inside := true;
        i := i + 2;
      } else if i + 2 <= |aliases| && aliases[i..i + 2] == "]]" {
        inside := false;
        i := i + 2;
      } else if aliases[i] == ',' && !inside {
        var part := Piece(current);
        if part != [] {
          results := results + [part];
        }
        current := [];
        i := i + 1;
      } else {
        current := current + [aliases[i]];
        i := i + 1;
      }
    }
    results := Emit(results, current);
    AliasesWellFormed(aliases);
  }

  /** The pieces of a bracket-free value: its comma-separated fields, each made a piece, empty ones dropped. */
  function Pieces(fields: seq<string>): seq<string>
  {
    if fields == [] then [] else Emit([], fields[0]) + Pieces(fields[1..])
  }

  /** No bracket character in `s[i..j]`, and no comma either unless splitting is off. */
  predicate PlainRun(s: string, i: int, j: int, inside: bool)
    requires 0 <= i <= j <= |s|
  {
    forall k :: i <= k < j ==> s[k] != '[' && s[k] != ']' && (inside || s[k] != ',')
  }

  /** A plain stretch of characters is collected into the open piece unchanged. */
  lemma {:induction false} ScanPlainRun(s: string, i: nat, j: nat, current: string, inside: bool, results: seq<string>)
    requires i <= j <= |s| && PlainRun(s, i, j, inside)
    ensures Scan(s, i, current, inside, results) == Scan(s, j, current + s[i..j], inside, results)
    decreases j - i
  {
    if i < j {
      ScanPlainRun(s, i + 1, j, current + [s[i]], inside, results);
      assert current + [s[i]] + s[i + 1..j] == current + s[i..j];
    } else {
      assert current + s[i..j] == current;
    }
  }

  lemma {:induction false} ScanWithoutBrackets(s: string, i: nat, current: string, results: seq<string>)
    requires i <= |s|
    requires forall k :: 0 <= k < |s| ==> s[k] != '[' && s[k] != ']'
    requires !HasChar(current, ',')
    ensures Scan(s, i, current, false, results) == results + Pieces(Split(current + s[i..], ','))
    decreases |s| - i
  {
    if i == |s| {
      NoBracketsEnd(s, current, results);
    } else if s[i] == ',' {
      ScanWithoutBrackets(s, i + 1, [], Emit(results, current));
      NoBracketsComma(s, i, current, results);
    } else {
      NoBracketsChar(s, i, current, results);
      ScanWithoutBrackets(s, i + 1, current + [s[i]], results);
    }
  }

  lemma NoBracketsEnd(s: string, current: string, results: seq<string>)
    requires !HasChar(current, ',')
    ensures Scan(s, |s|, current, false, results) == results + Pieces(Split(current + s[|s|..], ','))
  {
    assert current + s[|s|..] == current;
    PiecesOfLastField(current, results);
  }

  lemma PiecesOfLastField(current: string, results: seq<string>)
    requires !HasChar(current, ',')
    ensures Emit(results, current) == results + Pieces(Split(current, ','))
  {
    FindCharAbsent(current, ',');
    assert Split(current, ',') == [current];
    assert Pieces([current]) == Emit([], current) + Pieces([]);
    EmitAppends(results, current);
  }

  lemma NoBracketsComma(s: string, i: nat, current: string, results: seq<string>)
    requires i < |s| && s[i] == ','
    requires !HasChar(current, ',')
    ensures Scan(s, i, current, false, results) == Scan(s, i + 1, [], false, Emit(results, current))
    ensures Emit(results, current) + Pieces(Split([] + s[i + 1..], ',')) == results + Pieces(Split(current + s[i..], ','))
  {
    ScanAtComma(s, i, current, results);
    assert current + s[i..] == current + [','] + s[i + 1..];
    assert [] + s[i + 1..] == s[i + 1..];
    PiecesAfterComma(current, s[i + 1..], results);
  }

  /** Outside brackets a comma emits the piece collected so far. */
  lemma ScanAtComma(s: string, i: nat, current: string, results: seq<string>)
    requires i < |s| && s[i] == ','
    ensures Scan(s, i, current, false, results) == Scan(s, i + 1, [], false, Emit(results, current))
  {
  }

  lemma PiecesAfterComma(current: string, rest: string, results: seq<string>)
    requires !HasChar(current, ',')
    ensures Emit(results, current) + Pieces(Split(rest, ',')) == results + Pieces(Split(current + [','] + rest, ','))
  {
    var fields := Split(rest, ',');
    SplitAfterField(current, ',', rest);
    assert Split(current + [','] + rest, ',') == [current] + fields;
    EmitThenPieces(current, fields, results);
  }

  lemma EmitThenPieces(current: string, fields: seq<string>, results: seq<string>)
    ensures Emit(results, current) + Pieces(fields) == results + Pieces([current] + fields)
  {
    PiecesCons(current, fields);
    EmitAppends(results, current);
    ConcatAssoc(results, Emit([], current), Pieces(fields));
  }

  lemma NoBracketsChar(s: string, i: nat, current: string, results: seq<string>)
    requires i < |s| && s[i] != ',' && s[i] != '[' && s[i] != ']'
    requires !HasChar(current, ',')
    ensures Scan(s, i, current, false, results) == Scan(s, i + 1, current + [s[i]], false, results)
    ensures !HasChar(current + [s[i]], ',')
    ensures current + [s[i]] + s[i + 1..] == current + s[i..]
  {
    AppendNoChar(current, s[i], ',');
    assert s[i..] == [s[i]] + s[i + 1..];
  }

  lemma EmitAppends(results: seq<string>, current: string)
    ensures Emit(results, current) == results + Emit([], current)
  {
  }

  lemma PiecesCons(f: string, fields: seq<string>)
    ensures Pieces([f] + fields) == Emit([], f) + Pieces(fields)
  {
    assert ([f] + fields)[1..] == fields;
  }

  lemma AppendNoChar(a: string, x: char, c: char)
    requires !HasChar(a, c) && x != c
    ensures !HasChar(a + [x], c)
  {
    forall j | 0 <= j < |a + [x]| ensures (a + [x])[j] != c {
      if j < |a| {
        assert (a + [x])[j] == a[j];
      }
    }
  }

  /**
   * Without any bracket character the splitter is plain `split(",")`
   * followed by strip, lower and dropping the empty pieces.
   */
  lemma NoBracketsIsCommaSplit(s: string)
    requires !HasChar(s, '[') && !HasChar(s, ']')
    ensures SplitAliases(s) == Pieces(Split(s, ','))
  {
    ScanWithoutBrackets(s, 0, [], []);
    assert [] + s[0..] == s;
  }

  /* Single scanner steps, with the state after the step spelled out. */

  lemma Plain(s: string, i: nat, j: nat, current: string, inside: bool, results: seq<string>, next: string)
    requires i <= j <= |s|
    requires PlainRun(s, i, j, inside)
    requires next == current + s[i..j]
    ensures Scan(s, i, current, inside, results) == Scan(s, j, next, inside, results)
  {
    ScanPlainRun(s, i, j, current, inside, results);
  }

  lemma Open(s: string, i: nat, current: string, inside: bool, results: seq<string>)
    requires MarkerAt(s, i, '[')
    ensures Scan(s, i, current, inside, results) == Scan(s, i + 2, current, true, results)
  {
  }

  lemma Close(s: string, i: nat, current: string, inside: bool, results: seq<string>)
    requires MarkerAt(s, i, ']')
    ensures Scan(s, i, current, inside, results) == Scan(s, i + 2, current, false, results)
  {
  }

  /** No bracket character in `text`. */
  predicate NoBrackets(text: string)
  {
    forall k :: 0 <= k < |text| ==> text[k] != '[' && text[k] != ']'
  }

  /**
   * A bracketed run `[[body]]` whose body holds no bracket character is
   * appended to the open piece whole, commas included, and leaves splitting on.
   */
  lemma BracketedRun(s: string, i: nat, body: string, current: string, inside: bool, results: seq<string>)
    requires MarkerAt(s, i, '[')
    requires i + 2 + |body| <= |s| && s[i + 2..i + 2 + |body|] == body
    requires MarkerAt(s, i + 2 + |body|, ']')
    requires NoBrackets(body)
    ensures Scan(s, i, current, inside, results) == Scan(s, i + 4 + |body|, current + body, false, results)
  {
    OpenRun(s, i, body, current, inside, results);
    CloseAfter(s, i, i + 2 + |body|, current, inside, results, current + body);
  }

  lemma OpenRun(s: string, i: nat, body: string, current: string, inside: bool, results: seq<string>)
    requires MarkerAt(s, i, '[')
    requires i + 2 + |body| <= |s| && s[i + 2..i + 2 + |body|] == body
    requires NoBrackets(body)
    ensures Scan(s, i, current, inside, results) == Scan(s, i + 2 + |body|, current + body, true, results)
  {
    Open(s, i, current, inside, results);
    PlainBody(s, i + 2, body, current, results);
  }

  lemma PlainBody(s: string, j: nat, body: string, current: string, results: seq<string>)
    requires j + |body| <= |s|
    requires s[j..j + |body|] == body
    requires NoBrackets(body)
    ensures Scan(s, j, current, true, results) == Scan(s, j + |body|, current + body, true, results)
  {
    BodyIsPlain(s, j, body);
    PlainSlice(s, j, j + |body|, body, current, results);
  }

  lemma PlainSlice(s: string, i: nat, j: nat, body: string, current: string, results: seq<string>)
    requires i <= j <= |s|
    requires s[i..j] == body
    requires PlainRun(s, i, j, true)
    ensures Scan(s, i, current, true, results) == Scan(s, j, current + body, true, results)
  {
    Plain(s, i, j, current, true, results, current + body);
  }

  /** A `]]` after a stretch scanned with splitting off turns splitting back on. */
  lemma CloseAfter(s: string, i: nat, j: nat, current: string, inside: bool, results: seq<string>, open: string)
    requires i <= j
    requires MarkerAt(s, j, ']')
    requires Scan(s, i, current, inside, results) == Scan(s, j, open, true, results)
    ensures Scan(s, i, current, inside, results) == Scan(s, j + 2, open, false, results)
  {
    Close(s, j, open, true, results);
  }

  lemma BodyIsPlain(s: string, i: nat, body: string)
    requires i + |body| <= |s|
    requires s[i..i + |body|] == body
    requires NoBrackets(body)
    ensures PlainRun(s, i, i + |body|, true)
  {
    forall k | i <= k < i + |body| ensures s[k] != '[' && s[k] != ']' {
      assert s[k] == s[i..i + |body|][k - i];
    }
  }

  /** A comma inside brackets does not split: the bracketed text stays in one piece. */
  lemma BracketedCommaKept(s: string, a: string, b: string)
    requires NoBrackets(a) && NoBrackets(b)
    requires s == "[[" + a + "," + b + "]]"
    ensures SplitAliases(s) == Emit([], a + "," + b)
  {
    var body := a + "," + b;
    assert NoBrackets(body) by {
      forall k | 0 <= k < |body| ensures body[k] != '[' && body[k] != ']' {
        if k < |a| {
          assert body[k] == a[k];
        } else if k > |a| {
          assert body[k] == b[k - |a| - 1];
        }
      }
    }
    assert s[2..2 + |body|] == body;
    assert s[2 + |body|] == ']' && s[3 + |body|] == ']';
    BracketedRun(s, 0, body, [], false, []);
    assert [] + body == body;
  }

  /*
   * The cases of the repository's tests, each a chain of single-field steps.
   */

  /** A field without brackets or commas. */
  predicate PlainField(field: string)
  {
    forall k :: 0 <= k < |field| ==> field[k] != '[' && field[k] != ']' && field[k] != ','
  }

  lemma FieldIsPlain(s: string, i: nat, field: string)
    requires i + |field| <= |s|
    requires s[i..i + |field|] == field
    requires PlainField(field)
    ensures PlainRun(s, i, i + |field|, false)
  {
    forall k | i <= k < i + |field| ensures s[k] != '[' && s[k] != ']' && s[k] != ',' {
      assert s[k] == s[i..i + |field|][k - i];
    }
  }

  lemma FieldRun(s: string, i: nat, field: string, results: seq<string>)
    requires i + |field| <= |s|
    requires s[i..i + |field|] == field
    requires PlainField(field)
    ensures Scan(s, i, [], false, results) == Scan(s, i + |field|, field, false, results)
  {
    FieldIsPlain(s, i, field);
    FieldSlice(s, i, i + |field|, field, results);
  }

  lemma FieldSlice(s: string, i: nat, j: nat, field: string, results: seq<string>)
    requires i <= j <= |s|
    requires s[i..j] == field
    requires PlainRun(s, i, j, false)
    ensures Scan(s, i, [], false, results) == Scan(s, j, field, false, results)
  {
    Plain(s, i, j, [], false, results, field);
  }

  lemma CommaAfter(s: string, i: nat, j: nat, field: string, results: seq<string>, next: seq<string>)
    requires i <= j < |s| && s[j] == ','
    requires Scan(s, i, [], false, results) == Scan(s, j, field, false, results)
    requires next == Emit(results, field)
    ensures Scan(s, i, [], false, results) == Scan(s, j + 1, [], false, next)
  {
  }

  /** A comma-terminated field: the scanner moves past the comma with the field's piece emitted. */
  lemma Field(s: string, i: nat, field: string, results: seq<string>, next: seq<string>)
    requires i + |field| < |s|
    requires s[i..i + |field|] == field
    requires s[i + |field|] == ','
    requires PlainField(field)
    requires next == Emit(results, field)
    ensures Scan(s, i, [], false, results) == Scan(s, i + |field| + 1, [], false, next)
  {
    FieldRun(s, i, field, results);
    CommaAfter(s, i, i + |field|, field, results, next);
  }

  /** The field after the last comma, emitted at the end of the input. */
  lemma LastField(s: string, i: nat, field: string, results: seq<string>, next: seq<string>)
    requires i + |field| == |s|
    requires s[i..] == field
    requires PlainField(field)
    requires next == Emit(results, field)
    ensures Scan(s, i, [], false, results) == next
  {
    assert s[i..i + |field|] == field;
    FieldRun(s, i, field, results);
  }

  lemma EmitClean(results: seq<string>, field: string)
    requires field != [] && IsStripped(field) && IsLower(field)
    ensures Emit(results, field) == results + [field]
  {
    StripIdempotent(field);
    assert Lower(field) == field;
  }

  /*
   * The repository's test cases, stated for every input of their shape.
   */

  /** A field that comes back from `process_aliases` unchanged. */
  predicate CleanField(f: string)
  {
    f != [] && IsStripped(f) && IsLower(f) && PlainField(f)
  }

  lemma PlainNoSpecial(f: string)
    requires PlainField(f)
    ensures !HasChar(f, ',') && !HasChar(f, '[') && !HasChar(f, ']')
  {
  }

  /** Without brackets, the value is split on every comma and each field becomes a piece. */
  lemma CommaList(fields: seq<string>)
    requires |fields| >= 1
    requires forall i :: 0 <= i < |fields| ==> PlainField(fields[i])
    ensures SplitAliases(Join(fields, ',')) == Pieces(fields)
  {
    forall i | 0 <= i < |fields|
      ensures !HasChar(fields[i], ',') && !HasChar(fields[i], '[') && !HasChar(fields[i], ']')
    {
      PlainNoSpecial(fields[i]);
    }
    JoinNoChar(fields, ',', '[');
    JoinNoChar(fields, ',', ']');
    NoBracketsIsCommaSplit(Join(fields, ','));
    SplitJoin(fields, ',');
  }

  lemma {:induction false} PiecesClean(fields: seq<string>)
    requires forall i :: 0 <= i < |fields| ==> CleanField(fields[i])
    ensures Pieces(fields) == fields
    decreases |fields|
  {
    if fields != [] {
      EmitClean([], fields[0]);
      PiecesClean(fields[1..]);
      assert fields == [fields[0]] + fields[1..];
    }
  }

  /** "a,b,c" gives ["a", "b", "c"]: fields that are already clean come back as they are. */
  lemma CleanCommaList(fields: seq<string>)
    requires |fields| >= 1
    requires forall i :: 0 <= i < |fields| ==> CleanField(fields[i])
    ensures SplitAliases(Strip(Join(fields, ','))) == fields
  {
    StrippedJoin(fields);
    CommaList(fields);
    PiecesClean(fields);
  }

  lemma StrippedJoin(fields: seq<string>)
    requires |fields| >= 1
    requires forall i :: 0 <= i < |fields| ==> CleanField(fields[i])
    ensures Strip(Join(fields, ',')) == Join(fields, ',')
  {
    JoinStripped(fields, ',');
    StripIdempotent(Join(fields, ','));
  }

  /** "  A  ,  B  " gives ["a", "b"]: the padding of a field is dropped and the rest lower-cased. */
  lemma PaddedPiece(left: string, core: string, right: string)
    requires forall k :: 0 <= k < |left| ==> IsSpace(left[k])
    requires forall k :: 0 <= k < |right| ==> IsSpace(right[k])
    requires core != [] && IsStripped(core)
    ensures Emit([], left + core + right) == [Lower(core)]
  {
    StripPadded(left, core, right);
  }

  lemma {:induction false} PiecesAppend(a: seq<string>, b: seq<string>)
    ensures Pieces(a + b) == Pieces(a) + Pieces(b)
    decreases |a|
  {
    if a == [] {
      assert a + b == b;
    } else {
      var a0, a1 := a[0], a[1..];
      assert a == [a0] + a1;
      assert a + b == [a0] + (a1 + b);
      PiecesAppend(a1, b);
      PiecesCons(a0, a1 + b);
      PiecesCons(a0, a1);
      ConcatAssoc(Emit([], a0), Pieces(a1), Pieces(b));
    }
  }

  lemma ConcatAssoc<T>(x: seq<T>, y: seq<T>, z: seq<T>)
    ensures x + (y + z) == (x + y) + z
  {
  }

  /** "x,,y," gives ["x", "y"]: a blank field leaves no piece. */
  lemma BlankFieldDropped(a: seq<string>, f: string, b: seq<string>)
    requires Strip(f) == []
    ensures Pieces(a + [f] + b) == Pieces(a) + Pieces(b)
  {
    PiecesAppend(a + [f], b);
    PiecesAppend(a, [f]);
    BlankPiece(f);
    assert Pieces(a) + Pieces([f]) == Pieces(a);
  }

  lemma BlankPiece(f: string)
    requires Strip(f) == []
    ensures Pieces([f]) == []
  {
    PiecesCons(f, []);
    assert Piece(f) == [];
  }

  /** A plain prefix, of length `j`, followed by a bracketed run is one open piece. */
  lemma PrefixThenBracketed(s: string, j: nat, pre: string, body: string)
    requires j == |pre| && j + 4 + |body| <= |s|
    requires s[..j] == pre && PlainField(pre)
    requires MarkerAt(s, j, '[')
    requires s[j + 2..j + 2 + |body|] == body && NoBrackets(body)
    requires MarkerAt(s, j + 2 + |body|, ']')
    ensures Scan(s, 0, [], false, []) == Scan(s, j + 4 + |body|, pre + body, false, [])
  {
    assert s[0..0 + |pre|] == pre;
    FieldRun(s, 0, pre, []);
    BracketedRun(s, j, body, pre, false, []);
  }

  /** A comma then a last plain field: the open piece and the field are emitted in order. */
  lemma CommaThenLast(s: string, j: nat, open: string, last: string)
    requires j + 1 + |last| == |s| && s[j] == ','
    requires s[j + 1..] == last && PlainField(last)
    ensures Scan(s, j, open, false, []) == Emit(Emit([], open), last)
  {
    assert !MarkerAt(s, j, '[') && !MarkerAt(s, j, ']');
    LastField(s, j + 1, last, Emit([], open), Emit(Emit([], open), last));
  }

  /**
   * "[[a,b]],c" gives ["a,b", "c"] and "alias1 [[alias2,alias3]], alias4"
   * gives ["alias1 alias2,alias3", "alias4"]: the text before a bracketed run
   * and the run itself form one alias, commas and all, and the field after
   * the next comma is another.
   */
  lemma PrefixBracketedThenField(s: string, pre: string, body: string, last: string)
    requires PlainField(pre) && NoBrackets(body) && PlainField(last)
    requires s == pre + "[[" + body + "]]" + "," + last
    ensures SplitAliases(s) == Emit(Emit([], pre + body), last)
  {
    SplitLayout(s, pre, body, last);
    var n := |pre| + 4 + |body|;
    PrefixThenBracketed(s, |pre|, pre, body);
    CommaThenLast(s, n, pre + body, last);
  }

  /** The positions of the markers, the comma and the fields in `pre[[body]],last`. */
  lemma SplitLayout(s: string, pre: string, body: string, last: string)
    requires s == pre + "[[" + body + "]]" + "," + last
    ensures |s| == |pre| + 5 + |body| + |last|
    ensures s[..|pre|] == pre && s[|pre| + 2..|pre| + 2 + |body|] == body
    ensures MarkerAt(s, |pre|, '[') && MarkerAt(s, |pre| + 2 + |body|, ']')
    ensures s[|pre| + 4 + |body|] == ',' && s[|pre| + 5 + |body|..] == last
  {
    var n := |pre| + 4 + |body|;
    var head := pre + "[[" + body + "]]";
    assert s == head + ("," + last);
    HeadLayout(head, pre, body);
    assert s[..n] == head;
  }

  /** Where the markers of `pre + "[[" + body + "]]"` sit. */
  lemma HeadLayout(head: string, pre: string, body: string)
    requires head == pre + "[[" + body + "]]"
    ensures |head| == |pre| + 4 + |body|
    ensures head[..|pre|] == pre
    ensures head[|pre| + 2..|pre| + 2 + |body|] == body
    ensures MarkerAt(head, |pre|, '[') && MarkerAt(head, |pre| + 2 + |body|, ']')
  {
    assert head[|pre|] == '[' && head[|pre| + 1] == '[';
    assert head[|pre| + 2 + |body|] == ']' && head[|pre| + 3 + |body|] == ']';
  }

  /**
   * A marker can still end up inside an alias: the scanner skips a `]]` or
   * `[[` two characters at a time, so a lone bracket before it and another
   * after it are collected next to each other. `[]][` yields the alias `[[`.
   */
  lemma OpenMarkerSurvives()
    ensures SplitAliases("[]][") == ["[["]
  {
    var s := "[]][";
    assert !MarkerAt(s, 0, '[') && !MarkerAt(s, 0, ']') && MarkerAt(s, 1, ']') && !MarkerAt(s, 3, '[');
    BracketPiece('[');
    assert [] + [s[0]] == "[" && "[" + [s[3]] == "[[";
    assert Scan(s, 4, "[[", false, []) == ["[["];
    assert Scan(s, 3, "[", false, []) == Scan(s, 4, "[[", false, []);
    assert Scan(s, 1, "[", false, []) == Scan(s, 3, "[", false, []);
  }

  /** Likewise `][[]` yields the alias `]]`. */
  lemma CloseMarkerSurvives()
    ensures SplitAliases("][[]") == ["]]"]
  {
    var t := "][[]";
    assert !MarkerAt(t, 0, '[') && !MarkerAt(t, 0, ']') && MarkerAt(t, 1, '[') && !MarkerAt(t, 3, ']');
    BracketPiece(']');
    assert [] + [t[0]] == "]" && "]" + [t[3]] == "]]";
    assert Scan(t, 4, "]]", true, []) == ["]]"];
    assert Scan(t, 3, "]", true, []) == Scan(t, 4, "]]", true, []);
    assert Scan(t, 1, "]", false, []) == Scan(t, 3, "]", true, []);
  }

  /** A doubled bracket is its own piece: nothing to strip, nothing to lower. */
  lemma BracketPiece(c: char)
    requires c == '[' || c == ']'
    ensures Piece([c, c]) == [c, c]
  {
    assert LStrip([c, c]) == [c, c];
    assert RStrip([c, c]) == [c, c];
    assert Lower([c, c]) == [c, c] by {
      assert LowerChar(c) == c;
    }
  }
}

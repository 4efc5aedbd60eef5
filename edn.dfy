/**
 * `config/edn_parser.py`: the tokenizer and the recursive-descent parser that
 * read Logseq's `config.edn` into Python values.  The parser is a class over
 * a token list with a moving position; it is specified here by functions over
 * (tokens, position) and the class's methods are proved to compute them.
 */
module Edn {
  import opened Wrappers
  import opened PyStr
  import opened PyInt

  /** The Python values the parser builds. */
  datatype Val =
    | Int(i: int)
    | Float(token: string)          // `float(token)`; the literal is kept
    | Str(s: string)                // strings, keywords and symbols are all `str`
    | Bool(b: bool)
    | Nil                           // `None`
    | List(items: seq<Val>)         // vectors and lists
    | Dict(entries: seq<(Val, Val)>) // insertion order, keys distinct
    | PySet(elems: set<Val>)
    | Tuple(items: seq<Val>)
    | FrozenSet(elems: set<Val>)

  /** `ast.literal_eval` on a string token: its text, or `None` where it raises. */
  type Decoder = string -> Option<string>

  const EndOfInput: Error := ValueInvalid("Unexpected end of EDN input")
  const Unhashable: Error := TypeMismatch("unhashable type")
  const BadString: Error := ValueInvalid("malformed string literal")

  function ExtraData(tok: string): Error
  {
    ValueInvalid("Unexpected extra EDN data: " + tok)
  }

  // ---------------------------------------------------------------------------
  // Values

  /** `hash(v)` succeeds: lists, dicts and sets are unhashable, tuples hash their items. */
  predicate Hashable(v: Val)
  {
    match v
    case List(_) => false
    case Dict(_) => false
    case PySet(_) => false
    case Tuple(items) => forall k :: 0 <= k < |items| ==> Hashable(items[k])
    case FrozenSet(elems) => forall x :: x in elems ==> Hashable(x)
    case _ => true
  }

  /** The conversion of a map key: a dict becomes the frozenset of its items, a list a tuple, a set a frozenset. */
  function AsKey(k: Val): Val
  {
    match k
    case Dict(entries) => FrozenSet(set e | e in entries :: Tuple([e.0, e.1]))
    case List(items) => Tuple(items)
    case PySet(elems) => FrozenSet(elems)
    case _ => k
  }

  /** The integer a boolean equals: `True == 1` and `False == 0`. */
  function BoolInt(b: bool): int
  {
    if b then 1 else 0
  }

  /**
   * Python's `==` between the keys of a dict or the elements of a set: a
   * boolean equals the integer 1 or 0, tuples are equal item by item, and
   * every other value only equals itself; a float is compared by its text.
   */
  predicate KeyEq(a: Val, b: Val)
    decreases a
  {
    match a
    case Int(i) => (b.Int? && b.i == i) || (b.Bool? && BoolInt(b.b) == i)
    case Bool(x) => (b.Bool? && b.b == x) || (b.Int? && b.i == BoolInt(x))
    case Tuple(xs) => b.Tuple? && |xs| == |b.items| && forall k :: 0 <= k < |xs| ==> KeyEq(xs[k], b.items[k])
    case _ => a == b
  }

  /** Every value equals itself. */
  lemma {:induction false} KeyEqReflexive(a: Val)
    ensures KeyEq(a, a)
    decreases a
  {
    match a
    case Tuple(xs) =>
      forall k | 0 <= k < |xs| ensures KeyEq(xs[k], xs[k]) {
        KeyEqReflexive(xs[k]);
      }
    case _ =>
  }

  /** Equality is symmetric. */
  lemma {:induction false} KeyEqSymmetric(a: Val, b: Val)
    requires KeyEq(a, b)
    ensures KeyEq(b, a)
    decreases a
  {
    match a
    case Tuple(xs) =>
      forall k | 0 <= k < |xs| ensures KeyEq(b.items[k], xs[k]) {
        KeyEqSymmetric(xs[k], b.items[k]);
      }
    case _ =>
  }

  /** The keys of a dict, in order. */
  function KeysOf(entries: seq<(Val, Val)>): seq<Val>
  {
    if entries == [] then [] else [entries[0].0] + KeysOf(entries[1..])
  }

  /** `key in d`: some stored key equals `key`. */
  predicate HasKey(entries: seq<(Val, Val)>, k: Val)
  {
    exists i :: 0 <= i < |entries| && KeyEq(entries[i].0, k)
  }

  /**
   * `result[key] = val`: when an equal key is stored, it keeps its place and
   * its own spelling and takes the new value; otherwise the key goes last.
   */
  function Put(entries: seq<(Val, Val)>, k: Val, v: Val): (r: seq<(Val, Val)>)
    ensures !HasKey(entries, k) ==> r == entries + [(k, v)]
  {
    if entries == [] then [(k, v)]
    else if KeyEq(entries[0].0, k) then [(entries[0].0, v)] + entries[1..]
    else
      assert forall i :: 1 <= i < |entries| ==> entries[1..][i - 1] == entries[i];
      [entries[0]] + Put(entries[1..], k, v)
  }

  /**
   * After `result[key] = val` the dict maps `key` to `val`; its key list is
   * unchanged when an equal key was there and gains `key` at the end
   * otherwise.
   */
  lemma {:induction false} PutLookup(entries: seq<(Val, Val)>, k: Val, v: Val)
    ensures KeysOf(Put(entries, k, v)) == if HasKey(entries, k) then KeysOf(entries) else KeysOf(entries) + [k]
    ensures Lookup(Put(entries, k, v), k) == Some(v)
    decreases |entries|
  {
    if entries == [] {
      KeyEqReflexive(k);
    } else if !KeyEq(entries[0].0, k) {
      PutLookup(entries[1..], k, v);
      var r := Put(entries, k, v);
      assert r[1..] == Put(entries[1..], k, v);
      assert KeysOf(entries) == [entries[0].0] + KeysOf(entries[1..]);
      assert HasKey(entries, k) <==> HasKey(entries[1..], k) by {
        forall i | 1 <= i < |entries| ensures entries[1..][i - 1] == entries[i] { }
        if HasKey(entries, k) {
          var i :| 0 <= i < |entries| && KeyEq(entries[i].0, k);
          assert entries[1..][i - 1] == entries[i];
        }
      }
    } else {
      var r := Put(entries, k, v);
      assert r[1..] == entries[1..];
      assert KeysOf(entries) == [entries[0].0] + KeysOf(entries[1..]);
      assert KeysOf(r) == [entries[0].0] + KeysOf(r[1..]);
    }
  }

  /** `d.get(k)`: the value stored under a key equal to `k`. */
  function Lookup(entries: seq<(Val, Val)>, k: Val): Option<Val>
  {
    if entries == [] then None
    else if KeyEq(entries[0].0, k) then Some(entries[0].1)
    else Lookup(entries[1..], k)
  }

  /** `{1: ":a"}` then `[True] = ":b"`: `True` is the key `1`, which keeps its spelling and takes ":b". */
  lemma BoolKeyJoinsInt(a: Val, b: Val)
    ensures Put(Put([], Int(1), a), Bool(true), b) == [(Int(1), b)]
  {
  }

  /** `s.add(x)`: nothing changes when an equal element is already in the set. */
  function AddElem(acc: set<Val>, x: Val): set<Val>
  {
    if exists y :: y in acc && KeyEq(y, x) then acc else acc + {x}
  }

  /** No two elements of a set are equal in Python's sense. */
  predicate Unequal(elems: set<Val>)
  {
    forall x, y :: x in elems && y in elems && x != y ==> !KeyEq(x, y)
  }

  /** `s.add(x)` keeps the elements pairwise unequal, and the set then has an element equal to `x`. */
  lemma AddElemUnequal(acc: set<Val>, x: Val)
    requires Unequal(acc)
    ensures Unequal(AddElem(acc, x))
    ensures exists y :: y in AddElem(acc, x) && KeyEq(y, x)
    ensures acc <= AddElem(acc, x) && |AddElem(acc, x)| <= |acc| + 1
  {
    KeyEqReflexive(x);
    if !exists y :: y in acc && KeyEq(y, x) {
      forall y | y in acc ensures !KeyEq(x, y) {
        if KeyEq(x, y) {
          KeyEqSymmetric(x, y);
        }
      }
    }
  }

  /** `#{1 true}` holds only `1`: adding `True` to `{1}` changes nothing. */
  lemma TrueJoinsOne()
    ensures AddElem(AddElem({}, Int(1)), Bool(true)) == {Int(1)}
  {
    assert Int(1) in AddElem({}, Int(1)) && KeyEq(Int(1), Bool(true));
  }

  // ---------------------------------------------------------------------------
  // Numbers: `[-+]?\d+(?:\.\d+)?(?:[eE][-+]?\d+)?`

  predicate IsDigit(c: char)
  {
    '0' <= c <= '9'
  }

  /** The end of the run of digits that starts at `i`. */
  function DigitsEnd(s: string, i: nat): (e: nat)
    requires i <= |s|
    ensures i <= e <= |s|
    ensures forall k :: i <= k < e ==> IsDigit(s[k])
    ensures e < |s| ==> !IsDigit(s[e])
    decreases |s| - i
  {
    if i < |s| && IsDigit(s[i]) then DigitsEnd(s, i + 1) else i
  }

  /** Past the optional `.digits` group at `b`. */
  function FractionEnd(s: string, b: nat): (e: nat)
    requires b <= |s|
    ensures b <= e <= |s|
  {
    if b < |s| && s[b] == '.' && DigitsEnd(s, b + 1) > b + 1 then DigitsEnd(s, b + 1) else b
  }

  /** Past the optional `[eE][-+]?digits` group at `c`. */
  function ExponentEnd(s: string, c: nat): (e: nat)
    requires c <= |s|
    ensures c <= e <= |s|
  {
    if c < |s| && (s[c] == 'e' || s[c] == 'E') then
      var e0 := if c + 1 < |s| && (s[c + 1] == '-' || s[c + 1] == '+') then c + 2 else c + 1;
      if DigitsEnd(s, e0) > e0 then DigitsEnd(s, e0) else c
    else c
  }

  function SignEnd(s: string): nat
  {
    if s != [] && (s[0] == '-' || s[0] == '+') then 1 else 0
  }

  /** `is_number(tok)`: the whole token matches the number pattern. */
  predicate IsNumber(tok: string)
  {
    var a := SignEnd(tok);
    a <= |tok| && DigitsEnd(tok, a) > a && ExponentEnd(tok, FractionEnd(tok, DigitsEnd(tok, a))) == |tok|
  }

  predicate IsFloatToken(tok: string)
  {
    HasChar(tok, '.') || HasChar(tok, 'e') || HasChar(tok, 'E')
  }

  /** A number token without `.`, `e` or `E` is a sign and digits, so `int(tok)` succeeds. */
  lemma IntTokenParses(tok: string)
    requires IsNumber(tok) && !IsFloatToken(tok)
    ensures ParseInt(tok).Ok?
  {
    var a := SignEnd(tok);
    var b := DigitsEnd(tok, a);
    NoOptionalGroups(tok, b);
    if a == 1 {
      assert forall k :: 0 <= k < |tok[1..]| ==> IsDigit(tok[1..][k]) by {
        forall k | 0 <= k < |tok[1..]| ensures IsDigit(tok[1..][k]) {
          assert tok[1..][k] == tok[k + 1];
        }
      }
    }
  }

  /** Without `.`, `e` or `E` the optional groups of the pattern match nothing. */
  lemma NoOptionalGroups(s: string, b: nat)
    requires b <= |s| && !IsFloatToken(s)
    ensures FractionEnd(s, b) == b && ExponentEnd(s, b) == b
  {
    if b < |s| {
      assert s[b] != '.' && s[b] != 'e' && s[b] != 'E';
    }
  }

  /** `parse_number`: a float when the token has `.`, `e` or `E`, else `int(tok)`. */
  function NumberValue(tok: string): (v: Val)
    requires IsNumber(tok)
    ensures v.Int? <==> !IsFloatToken(tok)
  {
    if IsFloatToken(tok) then Float(tok)
    else
      IntTokenParses(tok);
      Int(ParseInt(tok).value)
  }

  /** `str(i)` is a number token that reads back as `i`. */
  lemma IntToStringIsNumber(i: int)
    ensures IsNumber(IntToString(i)) && !IsFloatToken(IntToString(i))
    ensures NumberValue(IntToString(i)) == Int(i)
  {
    var s := IntToString(i);
    var d := NatToString(if i < 0 then -i else i);
    var a := SignEnd(s);
    if i < 0 {
      assert s == "-" + d;
      assert s[0] == '-';
    } else {
      assert s == d;
    }
    assert a == |s| - |d|;
    forall k | a <= k < |s| ensures IsDigit(s[k]) {
      assert s[k] == d[k - a];
    }
    DigitsRun(s, a);
    assert !HasChar(s, '.') && !HasChar(s, 'e') && !HasChar(s, 'E') by {
      forall k | 0 <= k < |s| ensures s[k] != '.' && s[k] != 'e' && s[k] != 'E' {
        if k >= a {
          assert IsDigit(s[k]);
        }
      }
    }
    ParseIntToString(i);
  }

  lemma {:induction false} DigitsRun(s: string, i: nat)
    requires i <= |s|
    requires forall k :: i <= k < |s| ==> IsDigit(s[k])
    ensures DigitsEnd(s, i) == |s|
    decreases |s| - i
  {
    if i < |s| {
      DigitsRun(s, i + 1);
    }
  }

  /** "6.022e23" is a float token, "-7" the integer -7, and "1.2.3" no number at all. */
  lemma NumberSamples()
    ensures IsNumber("6.022e23") && NumberValue("6.022e23") == Float("6.022e23")
    ensures IsNumber("-7") && NumberValue("-7") == Int(-7)
    ensures !IsNumber("1.2.3")
  {
    var f := "6.022e23";
    assert DigitsEnd(f, 4) == 5;
    assert DigitsEnd(f, 1) == 1;
    assert DigitsEnd(f, 0) == 1;
    assert DigitsEnd(f, 2) == 5;
    assert FractionEnd(f, 1) == 5;
    assert DigitsEnd(f, 7) == 8;
    assert DigitsEnd(f, 6) == 8;
    assert ExponentEnd(f, 5) == 8;
    assert f[1] == '.';
    IntToStringIsNumber(-7);
    assert IntToString(-7) == "-7";
    var g := "1.2.3";
    assert DigitsEnd(g, 0) == 1;
    assert DigitsEnd(g, 2) == 3;
    assert FractionEnd(g, 1) == 3;
    assert ExponentEnd(g, 3) == 3;
  }

  // ---------------------------------------------------------------------------
  // The parser as functions of (tokens, position)

  /** The literals `true`, `false` and `nil`. */
  predicate IsLiteral(tok: string)
  {
    tok == "true" || tok == "false" || tok == "nil"
  }

  /**
   * A token that opens no collection: a quoted string, a literal, a number,
   * and otherwise a keyword or a symbol, both returned as the token itself.
   */
  function Scalar(tok: string, decode: Decoder): Result<Val>
  {
    if StartsWith(tok, "\"") then
      match decode(tok)
      case Some(s) => Ok(Str(s))
      case None => Err(BadString)
    else if tok == "true" then Ok(Bool(true))
    else if tok == "false" then Ok(Bool(false))
    else if tok == "nil" then Ok(Nil)
    else if IsNumber(tok) then Ok(NumberValue(tok))
    else Ok(Str(tok))
  }

  /** The tokens that open a collection. */
  predicate IsOpener(tok: string)
  {
    tok == "{" || tok == "[" || tok == "(" || tok == "#{"
  }

  /** `parse_value` at position `p`: the value and the position after it. */
  function ValueAt(t: seq<string>, p: nat, decode: Decoder): (r: Result<(Val, nat)>)
    requires p <= |t|
    ensures r.Ok? ==> p < r.value.1 <= |t|
    decreases |t| - p, 0
  {
    if p == |t| then Err(EndOfInput)
    else if t[p] == "{" then
      match EntriesAt(t, p + 1, decode, [])
      case Ok((entries, q)) => Ok((Dict(entries), q))
      case Err(e) => Err(e)
    else if t[p] == "[" || t[p] == "(" then
      match ItemsAt(t, p + 1, decode, if t[p] == "[" then "]" else ")", [])
      case Ok((items, q)) => Ok((List(items), q))
      case Err(e) => Err(e)
    else if t[p] == "#{" then
      match ElemsAt(t, p + 1, decode, {})
      case Ok((elems, q)) => Ok((PySet(elems), q))
      case Err(e) => Err(e)
    else
      match Scalar(t[p], decode)
      case Ok(v) => Ok((v, p + 1))
      case Err(e) => Err(e)
  }

  /** The loop of `parse_vector` and `parse_list`: values up to the closing token, appended to `acc`. */
  function ItemsAt(t: seq<string>, q: nat, decode: Decoder, close: string, acc: seq<Val>): (r: Result<(seq<Val>, nat)>)
    requires q <= |t|
    ensures r.Ok? ==> q < r.value.1 <= |t|
    decreases |t| - q, 1
  {
    if q < |t| && t[q] == close then Ok((acc, q + 1))
    else
      match ValueAt(t, q, decode)
      case Err(e) => Err(e)
      case Ok((v, q')) => ItemsAt(t, q', decode, close, acc + [v])
  }

  /** The loop of `parse_set`: hashable values up to `}`, added to `acc`. */
  function ElemsAt(t: seq<string>, q: nat, decode: Decoder, acc: set<Val>): (r: Result<(set<Val>, nat)>)
    requires q <= |t|
    ensures r.Ok? ==> q < r.value.1 <= |t|
    decreases |t| - q, 1
  {
    if q < |t| && t[q] == "}" then Ok((acc, q + 1))
    else
      match ValueAt(t, q, decode)
      case Err(e) => Err(e)
      case Ok((v, q')) => if Hashable(v) then ElemsAt(t, q', decode, AddElem(acc, v)) else Err(Unhashable)
  }

  /** The loop of `parse_map`: key, value, the key made hashable, stored. */
  function EntriesAt(t: seq<string>, q: nat, decode: Decoder, acc: seq<(Val, Val)>): (r: Result<(seq<(Val, Val)>, nat)>)
    requires q <= |t|
    ensures r.Ok? ==> q < r.value.1 <= |t|
    decreases |t| - q, 1
  {
    if q < |t| && t[q] == "}" then Ok((acc, q + 1))
    else
      match ValueAt(t, q, decode)
      case Err(e) => Err(e)
      case Ok((k, q1)) =>
        match ValueAt(t, q1, decode)
        case Err(e) => Err(e)
        case Ok((v, q2)) =>
          if Hashable(AsKey(k)) then EntriesAt(t, q2, decode, Put(acc, AsKey(k), v)) else Err(Unhashable)
  }

  /** `parse()`: one value, and nothing after it. */
  function ParseTokens(t: seq<string>, decode: Decoder): Result<Val>
  {
    match ValueAt(t, 0, decode)
    case Err(e) => Err(e)
    case Ok((v, q)) => if q < |t| then Err(ExtraData(t[q])) else Ok(v)
  }

  /** `parse` succeeds exactly when one value takes up every token. */
  lemma ParseComplete(t: seq<string>, decode: Decoder, v: Val)
    ensures ParseTokens(t, decode) == Ok(v) <==> ValueAt(t, 0, decode) == Ok((v, |t|))
  {
  }

  /** A value followed by anything more is refused with the first extra token. */
  lemma ParseExtra(t: seq<string>, decode: Decoder)
    requires ValueAt(t, 0, decode).Ok? && ValueAt(t, 0, decode).value.1 < |t|
    ensures ParseTokens(t, decode) == Err(ExtraData(t[ValueAt(t, 0, decode).value.1]))
  {
  }

  /** Empty input, and input that ends inside a collection, raise the end-of-input error. */
  lemma EndOfInputErrors(decode: Decoder, open: string)
    requires IsOpener(open)
    ensures ParseTokens([], decode) == Err(EndOfInput)
    ensures ParseTokens([open], decode) == Err(EndOfInput)
  {
    var t := [open];
    if open == "{" {
      assert EntriesAt(t, 1, decode, []) == Err(EndOfInput);
    } else if open == "#{" {
      assert ElemsAt(t, 1, decode, {}) == Err(EndOfInput);
    } else {
      assert ItemsAt(t, 1, decode, if open == "[" then "]" else ")", []) == Err(EndOfInput);
    }
  }

  /** A closing token in value position is not an error: it is read as the symbol it spells. */
  lemma StrayCloserIsSymbol(t: seq<string>, p: nat, decode: Decoder)
    requires p < |t| && (t[p] == "}" || t[p] == "]" || t[p] == ")")
    ensures ValueAt(t, p, decode) == Ok((Str(t[p]), p + 1))
  {
    assert !StartsWith(t[p], "\"") by {
      assert t[p][..1] != "\"";
    }
    assert !IsNumber(t[p]) by {
      assert SignEnd(t[p]) == 0;
      assert DigitsEnd(t[p], 0) == 0;
    }
  }

  /** The tokens `1` and `2` are the integers 1 and 2. */
  lemma SmallInts(decode: Decoder)
    ensures Scalar("1", decode) == Ok(Int(1)) && Scalar("2", decode) == Ok(Int(2))
  {
    IntParses(1, decode);
    IntParses(2, decode);
    assert IntToString(1) == "1" && IntToString(2) == "2";
  }

  /** A vector used as a map key is stored as a tuple: `{[1 2] "value"}` has the key `(1, 2)`. */
  lemma VectorKeyBecomesTuple(decode: Decoder)
    requires decode("\"value\"") == Some("value")
    ensures ParseTokens(["{", "[", "1", "2", "]", "\"value\"", "}"], decode)
         == Ok(Dict([(Tuple([Int(1), Int(2)]), Str("value"))]))
  {
    var t := ["{", "[", "1", "2", "]", "\"value\"", "}"];
    VectorKeyAt(t, decode);
    ParseComplete(t, decode, Dict([(Tuple([Int(1), Int(2)]), Str("value"))]));
  }

  /** The seven tokens of `{[1 2] "value"}` read as the map with the tuple key. */
  lemma VectorKeyAt(t: seq<string>, decode: Decoder)
    requires |t| == 7 && t[0] == "{" && t[1] == "[" && t[2] == "1" && t[3] == "2" && t[4] == "]"
    requires t[5] == "\"value\"" && t[6] == "}" && decode("\"value\"") == Some("value")
    ensures ValueAt(t, 0, decode) == Ok((Dict([(Tuple([Int(1), Int(2)]), Str("value"))]), 7))
  {
    var entries := [(Tuple([Int(1), Int(2)]), Str("value"))];
    VectorKeyEntries(t, decode);
    DictHead(t, 0, Dict(entries), entries, 7, decode);
  }

  /** After the `{`, the entry `[1 2] "value"` and the closing `}` are read. */
  lemma VectorKeyEntries(t: seq<string>, decode: Decoder)
    requires |t| == 7 && t[1] == "[" && t[2] == "1" && t[3] == "2" && t[4] == "]"
    requires t[5] == "\"value\"" && t[6] == "}" && decode("\"value\"") == Some("value")
    ensures EntriesAt(t, 1, decode, []) == Ok(([(Tuple([Int(1), Int(2)]), Str("value"))], 7))
  {
    var items := [Int(1), Int(2)];
    var key := Tuple(items);
    var entries := [(key, Str("value"))];
    VectorOneTwo(t, 1, decode);
    QuotedValue(t, 5, decode);
    assert Hashable(key);
    assert AsKey(List(items)) == key;
    assert Put([], key, Str("value")) == entries;
    EntriesClose(t, 6, decode, entries);
    assert t[1] != "}" by { assert t[1][0] != '}'; }
    EntriesStep(t, 1, decode, [], List(items), Str("value"), 5, 6, entries, Ok((entries, 7)));
  }

  /** The token `"value"` reads as the string `value` when the decoder unquotes it so. */
  lemma QuotedValue(t: seq<string>, p: nat, decode: Decoder)
    requires p < |t| && t[p] == "\"value\"" && decode("\"value\"") == Some("value")
    ensures ValueAt(t, p, decode) == Ok((Str("value"), p + 1))
  {
    assert StartsWith(t[p], "\"") by { assert t[p][..1] == "\""; }
  }

  /** The tokens `[ 1 2 ]`, wherever they stand, read as the vector of 1 and 2. */
  lemma VectorOneTwo(t: seq<string>, p: nat, decode: Decoder)
    requires p + 4 <= |t| && t[p] == "[" && t[p + 1] == "1" && t[p + 2] == "2" && t[p + 3] == "]"
    ensures ValueAt(t, p, decode) == Ok((List([Int(1), Int(2)]), p + 4))
  {
    SmallInts(decode);
    assert "1" != "{" && "1" != "[" && "1" != "(" && "1" != "#{";
    assert "2" != "{" && "2" != "[" && "2" != "(" && "2" != "#{";
    assert ValueAt(t, p + 1, decode) == Ok((Int(1), p + 2));
    assert ValueAt(t, p + 2, decode) == Ok((Int(2), p + 3));
    assert t[p + 1] != "]" && t[p + 2] != "]" by {
      assert t[p + 1][0] != ']' && t[p + 2][0] != ']';
    }
    assert ItemsAt(t, p + 3, decode, "]", [Int(1), Int(2)]) == Ok(([Int(1), Int(2)], p + 4));
    assert [Int(1)] + [Int(2)] == [Int(1), Int(2)];
    assert ItemsAt(t, p + 2, decode, "]", [Int(1)]) == Ok(([Int(1), Int(2)], p + 4));
    assert [] + [Int(1)] == [Int(1)];
    assert ItemsAt(t, p + 1, decode, "]", []) == Ok(([Int(1), Int(2)], p + 4));
  }

  /** A vector inside a set cannot be hashed: `#{[1]}` raises `TypeError`. */
  lemma UnhashableSetElement(decode: Decoder)
    ensures ParseTokens(["#{", "[", "1", "]", "}"], decode) == Err(Unhashable)
  {
    var t := ["#{", "[", "1", "]", "}"];
    SmallInts(decode);
    assert ValueAt(t, 2, decode) == Ok((Int(1), 3));
    assert t[2] != "]" by {
      assert t[2][0] != ']';
    }
    assert [] + [Int(1)] == [Int(1)];
    assert ItemsAt(t, 2, decode, "]", []) == Ok(([Int(1)], 4));
    assert ValueAt(t, 1, decode) == Ok((List([Int(1)]), 4));
    assert ElemsAt(t, 1, decode, {}) == Err(Unhashable);
  }

  // ---------------------------------------------------------------------------
  // The parser class

  /** `LogseqConfigEDN`: the token list and the reading position. */
  class LogseqConfigEDN {
    const tokens: seq<string>
    var pos: nat
    /** `ast.literal_eval` as `parse_string` uses it. */
    const decode: Decoder

    constructor(toks: seq<string>, decode: Decoder)
      ensures tokens == toks && pos == 0 && this.decode == decode
    {
      tokens := toks;
      pos := 0;
      this.decode := decode;
    }

    /** `peek()`: the token at the position, `None` past the end. */
    method Peek() returns (tok: Option<string>)
      ensures tok == if pos < |tokens| then Some(tokens[pos]) else None
    {
      tok := if pos < |tokens| then Some(tokens[pos]) else None;
    }

    /** `next()`: the token at the position, which moves on by exactly one. */
    method Next() returns (tok: Option<string>)
      modifies this`pos
      ensures tok == if old(pos) < |tokens| then Some(tokens[old(pos)]) else None
      ensures pos == old(pos) + 1
    {
      tok := Peek();
      pos := pos + 1;
    }

    /** `parse()`. */
    method Parse() returns (r: Result<Val>)
      requires pos == 0
      modifies this`pos
      ensures r == ParseTokens(tokens, decode)
    {
      var v := ParseValue();
      if v.Err? {
        return Err(v.error);
      }
      var tok := Peek();
      if tok.Some? {
        return Err(ExtraData(tok.value));
      }
      r := Ok(v.value);
    }

    /** `parse_value()`: dispatch on the next token. */
    method ParseValue() returns (r: Result<Val>)
      requires pos <= |tokens|
      modifies this`pos
      ensures Outcome(r, pos) == ValueAt(tokens, old(pos), decode)
      decreases |tokens| - pos, 1
    {
      var tok := Peek();
      if tok.None? {
        return Err(EndOfInput);
      }
      if tok.value == "{" {
        var m := ParseMap();
        r := if m.Ok? then Ok(Dict(m.value)) else Err(m.error);
      } else if tok.value == "[" || tok.value == "(" {
        var items := ParseSequence(if tok.value == "[" then "]" else ")");
        r := if items.Ok? then Ok(List(items.value)) else Err(items.error);
      } else if tok.value == "#{" {
        var s := ParseSet();
        r := if s.Ok? then Ok(PySet(s.value)) else Err(s.error);
      } else {
        var t := Next();
        r := Scalar(t.value, decode);
      }
    }

    /** The outcome of a parse as the position-tracking functions give it. */
    function Outcome<T>(r: Result<T>, p: nat): Result<(T, nat)>
    {
      if r.Ok? then Ok((r.value, p)) else Err(r.error)
    }

    /** `parse_vector()` and `parse_list()`, which differ only in the closing token. */
    method ParseSequence(close: string) returns (r: Result<seq<Val>>)
      requires pos < |tokens|
      modifies this`pos
      ensures Outcome(r, pos) == ItemsAt(tokens, old(pos) + 1, decode, close, [])
      decreases |tokens| - pos, 0
    {
      var start := pos;
      var _ := Next();
      var result: seq<Val> := [];
      while true
        invariant start < pos <= |tokens|
        invariant ItemsAt(tokens, start + 1, decode, close, []) == ItemsAt(tokens, pos, decode, close, result)
        decreases |tokens| - pos
      {
        var tok := Peek();
        if tok == Some(close) {
          var _ := Next();
          return Ok(result);
        }
        var before := pos;
        var v := ParseValue();
        if v.Err? {
          return Err(v.error);
        }
        result := result + [v.value];
      }
    }

    /** `parse_set()`. */
    method ParseSet() returns (r: Result<set<Val>>)
      requires pos < |tokens|
      modifies this`pos
      ensures Outcome(r, pos) == ElemsAt(tokens, old(pos) + 1, decode, {})
      decreases |tokens| - pos, 0
    {
      var start := pos;
      var _ := Next();
      var result: set<Val> := {};
      while true
        invariant start < pos <= |tokens|
        invariant ElemsAt(tokens, start + 1, decode, {}) == ElemsAt(tokens, pos, decode, result)
        decreases |tokens| - pos
      {
        var tok := Peek();
        if tok == Some("}") {
          var _ := Next();
          return Ok(result);
        }
        var v := ParseValue();
        if v.Err? {
          return Err(v.error);
        }
        if !Hashable(v.value) {
          return Err(Unhashable);
        }
        result := AddElem(result, v.value);
      }
    }

    /** `parse_map()`. */
    method ParseMap() returns (r: Result<seq<(Val, Val)>>)
      requires pos < |tokens|
      modifies this`pos
      ensures Outcome(r, pos) == EntriesAt(tokens, old(pos) + 1, decode, [])
      decreases |tokens| - pos, 0
    {
      var start := pos;
      var _ := Next();
      var result: seq<(Val, Val)> := [];
      while true
        invariant start < pos <= |tokens|
        invariant EntriesAt(tokens, start + 1, decode, []) == EntriesAt(tokens, pos, decode, result)
        decreases |tokens| - pos
      {
        var tok := Peek();
        if tok == Some("}") {
          var _ := Next();
          return Ok(result);
        }
        var key := ParseValue();
        if key.Err? {
          return Err(key.error);
        }
        var val := ParseValue();
        if val.Err? {
          return Err(val.error);
        }
        var k := AsKey(key.value);
        if !Hashable(k) {
          return Err(Unhashable);
        }
        result := Put(result, k, val.value);
      }
    }
  }

  // ---------------------------------------------------------------------------
  // The tokenizer

  /** The text from a `;` up to, not including, the end of its line. */
  function LineRest(s: string): (r: string)
    ensures |r| <= |s|
    decreases |s|
  {
    if s == [] || s[0] == '\n' then s else LineRest(s[1..])
  }

  /** `re.sub(r";.*", "", s)`: every `;` and the rest of its line removed. */
  function StripComments(s: string): (r: string)
    decreases |s|
  {
    if s == [] then []
    else if s[0] == ';' then StripComments(LineRest(s[1..]))
    else [s[0]] + StripComments(s[1..])
  }

  /** Without a `;` there is nothing to remove. */
  lemma {:induction false} NoCommentsKept(s: string)
    requires !HasChar(s, ';')
    ensures StripComments(s) == s
    decreases |s|
  {
    if s != [] {
      assert s[0] != ';';
      assert !HasChar(s[1..], ';') by {
        forall k | 0 <= k < |s[1..]| ensures s[1..][k] != ';' {
          assert s[1..][k] == s[k + 1];
        }
      }
      NoCommentsKept(s[1..]);
      assert s == [s[0]] + s[1..];
    }
  }

  /** A character of an atom: `[^"\s{}\[\](),]`. */
  predicate AtomChar(c: char)
  {
    c != '"' && !IsSpace(c) && c != '{' && c != '}' && c != '[' && c != ']' && c != '(' && c != ')' && c != ','
  }

  predicate IsDelimiter(c: char)
  {
    c == '{' || c == '}' || c == '[' || c == ']' || c == '(' || c == ')'
  }

  /** The end of the atom that starts at `i`. */
  function AtomEnd(s: string, i: nat): (e: nat)
    requires i <= |s|
    ensures i <= e <= |s|
    decreases |s| - i
  {
    if i < |s| && AtomChar(s[i]) then AtomEnd(s, i + 1) else i
  }

  /**
   * The closing quote of a string literal whose text starts at `i`: a
   * backslash takes the next character along unless it is a newline, any
   * other character but `"` is part of the text.
   */
  function StringEnd(s: string, i: nat): (r: Option<nat>)
    requires i <= |s|
    ensures r.Some? ==> i <= r.value < |s|
    decreases |s| - i
  {
    if i == |s| then None
    else if s[i] == '"' then Some(i)
    else if s[i] == '\\' then (if i + 1 < |s| && s[i + 1] != '\n' then StringEnd(s, i + 2) else None)
    else StringEnd(s, i + 1)
  }

  /**
   * `TOKEN_REGEX.finditer`: the matches from left to right, trying a string
   * literal, `#{`, a delimiter and an atom in that order, and stepping over
   * a character where none matches.
   */
  function Lex(s: string): seq<string>
    decreases |s|
  {
    if s == [] then []
    else if s[0] == '"' then
      match StringEnd(s, 1)
      case Some(j) => [s[..j + 1]] + Lex(s[j + 1..])
      case None => Lex(s[1..])
    else if s[0] == '#' && |s| >= 2 && s[1] == '{' then ["#{"] + Lex(s[2..])
    else if IsDelimiter(s[0]) then [[s[0]]] + Lex(s[1..])
    else if AtomChar(s[0]) then [s[..AtomEnd(s, 0)]] + Lex(s[AtomEnd(s, 0)..])
    else Lex(s[1..])
  }

  /** `tokenize(edn_str)`. */
  function Tokenize(s: string): seq<string>
  {
    Lex(StripComments(s))
  }

  /** `loads(edn_str)`. */
  function Loads(s: string, decode: Decoder): Result<Val>
  {
    ParseTokens(Tokenize(s), decode)
  }

  /** A comment is cut at the `;` even inside a string literal: `"a;b"` leaves the atom `a`. */
  lemma CommentCutsString()
    ensures Tokenize("\"a;b\"") == ["a"]
  {
    var s := "\"a;b\"";
    assert s[0] != ';' && s[1] != ';' && s[2] == ';';
    assert LineRest(s[3..]) == [] by {
      assert s[3..] == "b\"";
      assert LineRest("b\"") == LineRest("\"");
      assert LineRest("\"") == LineRest("");
    }
    assert StripComments(s[2..]) == [];
    assert StripComments(s[1..]) == "a";
    assert StripComments(s) == "\"a";
    var c := "\"a";
    assert StringEnd(c, 1) == StringEnd(c, 2) == None;
    assert Lex(c) == Lex("a");
    assert AtomEnd("a", 0) == 1;
    assert Lex("a") == ["a"] + Lex([]);
  }

  /** A comment runs from its `;` to the end of its line; the newline stays. */
  lemma CommentDropped(a: string, comment: string, b: string)
    requires !HasChar(a, ';') && !HasChar(comment, '\n')
    ensures StripComments(a + [';'] + comment + ['\n'] + b) == a + ['\n'] + StripComments(b)
  {
    var rest := ['\n'] + b;
    assert a + [';'] + comment + ['\n'] + b == a + ([';'] + (comment + rest));
    StripCommentsPrefix(a, [';'] + (comment + rest));
    assert ([';'] + (comment + rest))[1..] == comment + rest;
    LineRestFindsNewline(comment, rest);
    assert rest[1..] == b;
    assert a + (['\n'] + StripComments(b)) == a + ['\n'] + StripComments(b);
  }

  /** A character that no token starts with. */
  predicate Separator(c: char)
  {
    !AtomChar(c) && !IsDelimiter(c) && c != '"'
  }

  /** A run of separators is stepped over. */
  lemma {:induction false} LexSkipsRun(run: string, rest: string)
    requires forall k :: 0 <= k < |run| ==> Separator(run[k])
    ensures Lex(run + rest) == Lex(rest)
    decreases |run|
  {
    if run != [] {
      assert run + rest == [run[0]] + (run[1..] + rest);
      LexSkip(run[0], run[1..] + rest);
      LexSkipsRun(run[1..], rest);
    } else {
      assert run + rest == rest;
    }
  }

  /** A one-character atom, then separators. */
  lemma AtomThenSeparators(x: char, run: string, rest: string)
    requires AtomChar(x) && x != '#' && run != []
    requires forall k :: 0 <= k < |run| ==> Separator(run[k])
    ensures Lex([x] + run + rest) == [[x]] + Lex(rest)
  {
    assert [x] + run + rest == [x] + (run + rest);
    assert Separator((run + rest)[0]);
    LexSingleAtom(x, run + rest);
    LexSkipsRun(run, rest);
  }

  /** A one-character atom followed by a character that ends it. */
  lemma LexSingleAtom(x: char, rest: string)
    requires AtomChar(x) && x != '#'
    requires rest == [] || !AtomChar(rest[0])
    ensures Lex([x] + rest) == [[x]] + Lex(rest)
  {
    var s := [x] + rest;
    assert AtomEnd(s, 1) == 1;
    assert s[1..] == rest;
  }

  /** A character no token starts with is stepped over. */
  lemma LexSkip(c: char, rest: string)
    requires !AtomChar(c) && !IsDelimiter(c) && c != '"'
    ensures Lex([c] + rest) == Lex(rest)
  {
    assert ([c] + rest)[1..] == rest;
  }

  lemma {:induction false} LineRestFindsNewline(a: string, b: string)
    requires !HasChar(a, '\n') && b != [] && b[0] == '\n'
    ensures LineRest(a + b) == b
    decreases |a|
  {
    if a != [] {
      assert (a + b)[0] == a[0] && a[0] != '\n';
      assert (a + b)[1..] == a[1..] + b;
      assert !HasChar(a[1..], '\n') by {
        forall k | 0 <= k < |a[1..]| ensures a[1..][k] != '\n' {
          assert a[1..][k] == a[k + 1];
        }
      }
      LineRestFindsNewline(a[1..], b);
    } else {
      assert a + b == b;
    }
  }

  lemma {:induction false} StripCommentsPrefix(a: string, b: string)
    requires !HasChar(a, ';')
    ensures StripComments(a + b) == a + StripComments(b)
    decreases |a|
  {
    if a != [] {
      assert (a + b)[0] == a[0] && a[0] != ';';
      assert (a + b)[1..] == a[1..] + b;
      assert !HasChar(a[1..], ';') by {
        forall k | 0 <= k < |a[1..]| ensures a[1..][k] != ';' {
          assert a[1..][k] == a[k + 1];
        }
      }
      StripCommentsPrefix(a[1..], b);
      assert a == [a[0]] + a[1..];
    } else {
      assert a + b == b;
    }
  }

  // ---------------------------------------------------------------------------
  // Printing the values the parser reads back

  /** A keyword that prints as one atom. */
  predicate KeywordText(s: string)
  {
    s != [] && s[0] == ':' && forall k :: 0 <= k < |s| ==> AtomChar(s[k]) && s[k] != ';'
  }

  predicate ScalarPrintable(v: Val)
  {
    v.Int? || v.Bool? || v.Nil? || (v.Str? && KeywordText(v.s))
  }

  /** No key equals an earlier one in Python's sense. */
  predicate DistinctKeys(entries: seq<(Val, Val)>)
  {
    forall i, j :: 0 <= i < j < |entries| ==> !KeyEq(entries[i].0, entries[j].0)
  }

  /** The keys of a printable map: distinct, and each a printable scalar. */
  predicate KeysPrintable(entries: seq<(Val, Val)>)
  {
    DistinctKeys(entries) && forall k :: 0 <= k < |entries| ==> ScalarPrintable(entries[k].0)
  }

  /** The values `Dumps` writes: numbers, booleans, nil and keywords, in vectors and maps with scalar keys. */
  predicate Printable(v: Val)
  {
    match v
    case List(items) => forall k :: 0 <= k < |items| ==> Printable(items[k])
    case Dict(entries) =>
      DistinctKeys(entries) && forall k :: 0 <= k < |entries| ==> ScalarPrintable(entries[k].0) && Printable(entries[k].1)
    case _ => ScalarPrintable(v)
  }

  function Flatten(xs: seq<seq<string>>): seq<string>
  {
    if xs == [] then [] else xs[0] + Flatten(xs[1..])
  }

  /** The tokens of a value. */
  function Encode(v: Val): seq<string>
    decreases v, 1
  {
    match v
    case Int(i) => [IntToString(i)]
    case Bool(b) => [if b then "true" else "false"]
    case Nil => ["nil"]
    case Str(s) => [s]
    case List(_) => ["["] + Flatten(Parts(v)) + ["]"]
    case Dict(_) => ["{"] + Flatten(Parts(v)) + ["}"]
    case _ => []
  }

  /** The token runs of a vector's items, or of a map's entries (key then value). */
  function Parts(v: Val): (xs: seq<seq<string>>)
    requires v.List? || v.Dict?
    decreases v, 0
  {
    if v.List? then seq(|v.items|, k requires 0 <= k < |v.items| => Encode(v.items[k]))
    else seq(|v.entries|, k requires 0 <= k < |v.entries| => Encode(v.entries[k].0) + Encode(v.entries[k].1))
  }

  /** The EDN text of a value: its tokens separated by spaces. */
  function Dumps(v: Val): string
  {
    Join(Encode(v), ' ')
  }

  // ---------------------------------------------------------------------------
  // Reading back what was printed

  /** The tokens `e` stand in `t` from position `p` on. */
  predicate At(t: seq<string>, p: nat, e: seq<string>)
  {
    p + |e| <= |t| && forall i :: 0 <= i < |e| ==> t[p + i] == e[i]
  }

  lemma AtConcat(t: seq<string>, p: nat, a: seq<string>, b: seq<string>)
    requires At(t, p, a + b)
    ensures At(t, p, a) && At(t, p + |a|, b)
  {
    forall i | 0 <= i < |a| ensures t[p + i] == a[i] {
      assert (a + b)[i] == a[i];
    }
    forall i | 0 <= i < |b| ensures t[p + |a| + i] == b[i] {
      assert (a + b)[|a| + i] == b[i];
    }
  }

  lemma {:induction false} FlattenSnoc(xs: seq<seq<string>>, x: seq<string>)
    ensures Flatten(xs + [x]) == Flatten(xs) + x
    decreases |xs|
  {
    if xs == [] {
      assert [] + [x] == [x];
      assert Flatten([x]) == x + Flatten([]);
    } else {
      assert (xs + [x])[1..] == xs[1..] + [x];
      FlattenSnoc(xs[1..], x);
      assert xs[0] + (Flatten(xs[1..]) + x) == (xs[0] + Flatten(xs[1..])) + x;
    }
  }

  /** The position of the `k`-th part when the parts stand from `q` on. */
  function Off(q: nat, xs: seq<seq<string>>, k: nat): nat
    requires k <= |xs|
  {
    q + |Flatten(xs[..k])|
  }

  lemma OffNext(q: nat, xs: seq<seq<string>>, k: nat)
    requires k < |xs|
    ensures Off(q, xs, k + 1) == Off(q, xs, k) + |xs[k]|
  {
    assert xs[..k + 1] == xs[..k] + [xs[k]];
    FlattenSnoc(xs[..k], xs[k]);
  }

  lemma OffEnds(q: nat, xs: seq<seq<string>>)
    ensures Off(q, xs, 0) == q && Off(q, xs, |xs|) == q + |Flatten(xs)|
  {
    assert xs[..|xs|] == xs;
    assert xs[..0] == [];
  }

  /** Each part of a flattened run stands at its offset. */
  lemma {:induction false} FlattenAt(t: seq<string>, q: nat, xs: seq<seq<string>>, k: nat)
    requires At(t, q, Flatten(xs)) && k < |xs|
    ensures At(t, Off(q, xs, k), xs[k])
    decreases k
  {
    AtConcat(t, q, xs[0], Flatten(xs[1..]));
    if k == 0 {
      assert xs[..0] == [];
    } else {
      FlattenAt(t, q + |xs[0]|, xs[1..], k - 1);
      assert xs[..k] == [xs[0]] + xs[1..][..k - 1];
      assert Flatten(xs[..k]) == xs[0] + Flatten(xs[1..][..k - 1]);
    }
  }

  predicate IsCloser(tok: string)
  {
    tok == "]" || tok == "}" || tok == ")"
  }

  /** The first character of `str(i)` is a minus sign or a digit. */
  lemma IntTextStart(i: int)
    ensures IntToString(i)[0] == '-' || IsDigit(IntToString(i)[0])
  {
    if i < 0 {
      assert IntToString(i) == "-" + NatToString(-i);
    }
  }

  /** A scalar prints as one token that opens nothing and closes nothing, and reads back as itself. */
  lemma ScalarParses(v: Val, t: seq<string>, p: nat, decode: Decoder)
    requires ScalarPrintable(v) && At(t, p, Encode(v))
    ensures |Encode(v)| == 1 && !IsCloser(t[p])
    ensures ValueAt(t, p, decode) == Ok((v, p + 1))
  {
    var tok := Encode(v)[0];
    assert t[p + 0] == tok;
    if v.Int? {
      IntParses(v.i, decode);
    } else if v.Str? {
      KeywordParses(v.s, decode);
    } else {
      LiteralParses(v, decode);
    }
  }

  /** The token of an integer is taken for a number. */
  lemma IntParses(i: int, decode: Decoder)
    ensures !IsOpener(IntToString(i)) && !IsCloser(IntToString(i)) && !StartsWith(IntToString(i), "\"")
    ensures !IsLiteral(IntToString(i)) && Scalar(IntToString(i), decode) == Ok(Int(i))
  {
    IntTokenShape(i);
    IntToStringIsNumber(i);
  }

  /** `str(i)` starts with `-` or a digit, so it is no bracket, literal or string. */
  lemma IntTokenShape(i: int)
    ensures !IsOpener(IntToString(i)) && !IsCloser(IntToString(i)) && !StartsWith(IntToString(i), "\"")
    ensures !IsLiteral(IntToString(i))
  {
    var tok := IntToString(i);
    IntTextStart(i);
    assert tok[0] != '"' && tok[0] != '{' && tok[0] != '[' && tok[0] != '(' && tok[0] != '#';
    assert tok[0] != ']' && tok[0] != '}' && tok[0] != ')' && tok[0] != 't' && tok[0] != 'f' && tok[0] != 'n';
    assert !StartsWith(tok, "\"") by { assert tok[..1] != "\""; }
  }

  /** A keyword token is returned as itself. */
  lemma KeywordParses(s: string, decode: Decoder)
    requires KeywordText(s)
    ensures !IsOpener(s) && !IsCloser(s) && !StartsWith(s, "\"")
    ensures Scalar(s, decode) == Ok(Str(s))
  {
    assert !StartsWith(s, "\"") by { assert s[..1] != "\""; }
    assert !IsNumber(s) by {
      assert SignEnd(s) == 0;
      assert DigitsEnd(s, 0) == 0;
    }
    assert s[0] != 't' && s[0] != 'f' && s[0] != 'n' && s[0] != '{' && s[0] != '[';
    assert s[0] != '(' && s[0] != '#' && s[0] != ']' && s[0] != '}' && s[0] != ')';
  }

  /** `true`, `false` and `nil` read back as themselves. */
  lemma LiteralParses(v: Val, decode: Decoder)
    requires v.Bool? || v.Nil?
    ensures !IsOpener(Encode(v)[0]) && !IsCloser(Encode(v)[0])
    ensures Scalar(Encode(v)[0], decode) == Ok(v)
  {
    var tok := Encode(v)[0];
    assert tok == "true" || tok == "false" || tok == "nil";
    assert tok[0] == 't' || tok[0] == 'f' || tok[0] == 'n';
    assert !StartsWith(tok, "\"") by { assert tok[..1] != "\""; }
  }

  /** The `k`-th printed item is read back, ending where the next one starts. */
  predicate ItemReads(t: seq<string>, q: nat, xs: seq<seq<string>>, k: nat, item: Val, close: string, decode: Decoder)
    requires k < |xs|
  {
    Off(q, xs, k) < |t| && t[Off(q, xs, k)] != close
    && ValueAt(t, Off(q, xs, k), decode) == Ok((item, Off(q, xs, k + 1)))
  }

  /** The entry standing at `o` is read back as a key and then a value, ending at `o2`. */
  predicate EntryAt(t: seq<string>, o: nat, o2: nat, entry: (Val, Val), decode: Decoder)
  {
    o < |t| && t[o] != "}" && o + 1 <= |t|
    && ValueAt(t, o, decode) == Ok((entry.0, o + 1))
    && ValueAt(t, o + 1, decode) == Ok((entry.1, o2))
  }

  /** The `k`-th printed entry is read back as a key and then a value. */
  predicate EntryReads(t: seq<string>, q: nat, xs: seq<seq<string>>, k: nat, entry: (Val, Val), decode: Decoder)
    requires k < |xs|
  {
    EntryAt(t, Off(q, xs, k), Off(q, xs, k + 1), entry, decode)
  }

  /** The loop of `parse_vector` over printed items. */
  lemma {:induction false} ItemsLoop(t: seq<string>, q: nat, items: seq<Val>, xs: seq<seq<string>>, j: nat, close: string, decode: Decoder)
    requires |xs| == |items| && j <= |items| && Off(q, xs, j) <= |t|
    requires q + |Flatten(xs)| < |t| && t[q + |Flatten(xs)|] == close
    requires forall k :: j <= k < |items| ==> ItemReads(t, q, xs, k, items[k], close, decode)
    ensures ItemsAt(t, Off(q, xs, j), decode, close, items[..j]) == Ok((items, q + |Flatten(xs)| + 1))
    decreases |items| - j
  {
    OffEnds(q, xs);
    if j == |items| {
      assert items[..j] == items;
    } else {
      assert ItemReads(t, q, xs, j, items[j], close, decode);
      ItemsLoop(t, q, items, xs, j + 1, close, decode);
      assert items[..j] + [items[j]] == items[..j + 1];
    }
  }

  /** Every entry from the `j`-th on is read back, the `k`-th from `offs[k]` to `offs[k + 1]`. */
  predicate EntriesRead(t: seq<string>, offs: seq<nat>, entries: seq<(Val, Val)>, j: nat, decode: Decoder)
    requires |offs| == |entries| + 1
    decreases |entries| - j
  {
    j < |entries| ==> EntryAt(t, offs[j], offs[j + 1], entries[j], decode) && EntriesRead(t, offs, entries, j + 1, decode)
  }

  lemma {:induction false} AllEntriesRead(t: seq<string>, offs: seq<nat>, entries: seq<(Val, Val)>, j: nat, decode: Decoder)
    requires |offs| == |entries| + 1
    requires forall k :: j <= k < |entries| ==> EntryAt(t, offs[k], offs[k + 1], entries[k], decode)
    ensures EntriesRead(t, offs, entries, j, decode)
    decreases |entries| - j
  {
    if j < |entries| {
      AllEntriesRead(t, offs, entries, j + 1, decode);
    }
  }

  /** The loop of `parse_map` over printed entries with distinct scalar keys. */
  lemma {:induction false} EntriesLoop(t: seq<string>, offs: seq<nat>, entries: seq<(Val, Val)>, j: nat, decode: Decoder)
    requires |offs| == |entries| + 1 && j <= |entries| && offs[j] <= |t|
    requires KeysPrintable(entries)
    requires offs[|entries|] < |t| && t[offs[|entries|]] == "}"
    requires EntriesRead(t, offs, entries, j, decode)
    ensures EntriesAt(t, offs[j], decode, entries[..j]) == Ok((entries, offs[|entries|] + 1))
    decreases |entries| - j
  {
    if j == |entries| {
      assert entries[..j] == entries;
      EntriesClose(t, offs[j], decode, entries);
    } else {
      PutNewKey(entries, j);
      EntriesLoop(t, offs, entries, j + 1, decode);
      EntriesLoopStep(t, offs, entries, j, offs[|entries|] + 1, decode);
    }
  }

  /** The loop from entry `j` is one round and then the loop from entry `j + 1`. */
  lemma EntriesLoopStep(t: seq<string>, offs: seq<nat>, entries: seq<(Val, Val)>, j: nat, e: nat, decode: Decoder)
    requires |offs| == |entries| + 1 && j < |entries|
    requires EntryAt(t, offs[j], offs[j + 1], entries[j], decode)
    requires Hashable(AsKey(entries[j].0)) && Put(entries[..j], AsKey(entries[j].0), entries[j].1) == entries[..j + 1]
    requires offs[j + 1] <= |t| && EntriesAt(t, offs[j + 1], decode, entries[..j + 1]) == Ok((entries, e))
    ensures EntriesAt(t, offs[j], decode, entries[..j]) == Ok((entries, e))
  {
    EntriesStep(t, offs[j], decode, entries[..j], entries[j].0, entries[j].1, offs[j] + 1, offs[j + 1], entries[..j + 1], Ok((entries, e)));
  }

  /** The `}` ends the `parse_map` loop. */
  lemma EntriesClose(t: seq<string>, p: nat, decode: Decoder, acc: seq<(Val, Val)>)
    requires p < |t| && t[p] == "}"
    ensures EntriesAt(t, p, decode, acc) == Ok((acc, p + 1))
  {
  }

  /** One round of the `parse_map` loop: a key, a value, and the entry stored. */
  lemma EntriesStep(t: seq<string>, q: nat, decode: Decoder, acc: seq<(Val, Val)>, key: Val, val: Val, q1: nat, q2: nat,
                    acc': seq<(Val, Val)>, r: Result<(seq<(Val, Val)>, nat)>)
    requires q < |t| && t[q] != "}"
    requires ValueAt(t, q, decode) == Ok((key, q1)) && q1 <= |t| && ValueAt(t, q1, decode) == Ok((val, q2))
    requires Hashable(AsKey(key)) && acc' == Put(acc, AsKey(key), val)
    requires q2 <= |t| && EntriesAt(t, q2, decode, acc') == r
    ensures EntriesAt(t, q, decode, acc) == r
  {
  }

  /** The whole loop of `parse_vector`, from the first printed item. */
  lemma ItemsFromStart(t: seq<string>, q: nat, items: seq<Val>, xs: seq<seq<string>>, close: string, e: nat, decode: Decoder)
    requires |xs| == |items| && q <= |t|
    requires q + |Flatten(xs)| < |t| && t[q + |Flatten(xs)|] == close && e == q + |Flatten(xs)| + 1
    requires forall k :: 0 <= k < |items| ==> ItemReads(t, q, xs, k, items[k], close, decode)
    ensures ItemsAt(t, q, decode, close, []) == Ok((items, e))
  {
    OffEnds(q, xs);
    ItemsLoop(t, q, items, xs, 0, close, decode);
    assert items[..0] == [];
  }

  /** The whole loop of `parse_map`, from the first printed entry. */
  lemma EntriesFromStart(t: seq<string>, q: nat, entries: seq<(Val, Val)>, xs: seq<seq<string>>, e: nat, decode: Decoder)
    requires |xs| == |entries| && q <= |t|
    requires KeysPrintable(entries)
    requires q + |Flatten(xs)| < |t| && t[q + |Flatten(xs)|] == "}" && e == q + |Flatten(xs)| + 1
    requires forall k :: 0 <= k < |entries| ==> EntryReads(t, q, xs, k, entries[k], decode)
    ensures EntriesAt(t, q, decode, []) == Ok((entries, e))
  {
    var offs := seq(|entries| + 1, k requires 0 <= k <= |entries| => Off(q, xs, k));
    OffsRead(t, q, entries, xs, offs, decode);
    EntriesFromOffs(t, q, entries, offs, e, decode);
  }

  /** Entries that read one after the other between their offsets, then a `}`, read as the whole map. */
  lemma EntriesFromOffs(t: seq<string>, q: nat, entries: seq<(Val, Val)>, offs: seq<nat>, e: nat, decode: Decoder)
    requires |offs| == |entries| + 1 && offs[0] == q && q <= |t|
    requires KeysPrintable(entries)
    requires offs[|entries|] < |t| && t[offs[|entries|]] == "}" && e == offs[|entries|] + 1
    requires EntriesRead(t, offs, entries, 0, decode)
    ensures EntriesAt(t, q, decode, []) == Ok((entries, e))
  {
    assert entries[..0] == [];
    EntriesLoop(t, offs, entries, 0, decode);
  }

  /** The entry offsets as a list: they start at `q`, end after the flattened parts, and every entry reads between them. */
  lemma OffsRead(t: seq<string>, q: nat, entries: seq<(Val, Val)>, xs: seq<seq<string>>, offs: seq<nat>, decode: Decoder)
    requires |xs| == |entries|
    requires offs == seq(|entries| + 1, k requires 0 <= k <= |entries| => Off(q, xs, k))
    requires forall k :: 0 <= k < |entries| ==> EntryReads(t, q, xs, k, entries[k], decode)
    ensures |offs| == |entries| + 1 && offs[0] == q && offs[|entries|] == q + |Flatten(xs)|
    ensures EntriesRead(t, offs, entries, 0, decode)
  {
    OffEnds(q, xs);
    forall k | 0 <= k < |entries|
      ensures EntryAt(t, offs[k], offs[k + 1], entries[k], decode)
    {
      assert EntryReads(t, q, xs, k, entries[k], decode);
    }
    AllEntriesRead(t, offs, entries, 0, decode);
  }

  /** Every printable value is read back whole from its tokens. */
  lemma EncodeParses(v: Val, t: seq<string>, p: nat, decode: Decoder)
    requires Printable(v) && At(t, p, Encode(v))
    ensures Encode(v) != [] && !IsCloser(t[p])
    ensures ValueAt(t, p, decode) == Ok((v, p + |Encode(v)|))
    decreases v
  {
    match v
    case List(items) =>
      var xs := Parts(v);
      ListParses(v, items, xs, t, p, decode);
    case Dict(entries) =>
      var xs := Parts(v);
      DictParses(v, entries, xs, t, p, decode);
    case _ =>
      ScalarParses(v, t, p, decode);
  }

  lemma ListParses(v: Val, items: seq<Val>, xs: seq<seq<string>>, t: seq<string>, p: nat, decode: Decoder)
    requires v == List(items) && Printable(v) && At(t, p, Encode(v))
    requires xs == Parts(v)
    ensures Encode(v) != [] && !IsCloser(t[p])
    ensures ValueAt(t, p, decode) == Ok((v, p + |Encode(v)|))
    decreases v, 2
  {
    var f := Flatten(xs);
    var e := p + |Encode(v)|;
    assert p < |t| && t[p] == "[" && At(t, p + 1, f) && p + 1 + |f| < |t| && t[p + 1 + |f|] == "]" && e == p + 1 + |f| + 1 by {
      assert Encode(v) == ["["] + f + ["]"];
      BracketLayout(t, p, "[", f, "]");
    }
    ListBody(v, items, xs, t, p + 1, e, decode);
    ListHead(t, p, v, items, e, decode);
  }

  /** The items of a printed vector, read up to and over its `]`. */
  lemma ListBody(v: Val, items: seq<Val>, xs: seq<seq<string>>, t: seq<string>, q: nat, e: nat, decode: Decoder)
    requires v == List(items) && Printable(v) && xs == Parts(v)
    requires At(t, q, Flatten(xs)) && q + |Flatten(xs)| < |t| && t[q + |Flatten(xs)|] == "]"
    requires e == q + |Flatten(xs)| + 1
    ensures ItemsAt(t, q, decode, "]", []) == Ok((items, e))
    decreases v, 1
  {
    forall k | 0 <= k < |items| ensures ItemReads(t, q, xs, k, items[k], "]", decode) {
      ItemParses(v, items, xs, t, q, k, decode);
    }
    ItemsFromStart(t, q, items, xs, "]", e, decode);
  }

  lemma DictParses(v: Val, entries: seq<(Val, Val)>, xs: seq<seq<string>>, t: seq<string>, p: nat, decode: Decoder)
    requires v == Dict(entries) && Printable(v) && At(t, p, Encode(v))
    requires xs == Parts(v)
    ensures Encode(v) != [] && !IsCloser(t[p])
    ensures ValueAt(t, p, decode) == Ok((v, p + |Encode(v)|))
    decreases v, 3
  {
    var f := Flatten(xs);
    var e := p + |Encode(v)|;
    assert p < |t| && t[p] == "{" && At(t, p + 1, f) && p + 1 + |f| < |t| && t[p + 1 + |f|] == "}" && e == p + 1 + |f| + 1 by {
      assert Encode(v) == ["{"] + f + ["}"];
      BracketLayout(t, p, "{", f, "}");
    }
    DictRead(v, entries, xs, t, p, e, decode);
  }

  /** A printed map laid out from `p`: its value, read up to `e`. */
  lemma DictRead(v: Val, entries: seq<(Val, Val)>, xs: seq<seq<string>>, t: seq<string>, p: nat, e: nat, decode: Decoder)
    requires v == Dict(entries) && Printable(v) && xs == Parts(v)
    requires p < |t| && t[p] == "{" && At(t, p + 1, Flatten(xs))
    requires p + 1 + |Flatten(xs)| < |t| && t[p + 1 + |Flatten(xs)|] == "}" && e == p + 1 + |Flatten(xs)| + 1
    ensures ValueAt(t, p, decode) == Ok((v, e))
    decreases v, 2
  {
    DictBody(v, entries, xs, t, p + 1, e, decode);
    DictHead(t, p, v, entries, e, decode);
  }

  /** The entries of a printed map, read up to and over its `}`. */
  lemma DictBody(v: Val, entries: seq<(Val, Val)>, xs: seq<seq<string>>, t: seq<string>, q: nat, e: nat, decode: Decoder)
    requires v == Dict(entries) && Printable(v) && xs == Parts(v)
    requires At(t, q, Flatten(xs)) && q + |Flatten(xs)| < |t| && t[q + |Flatten(xs)|] == "}"
    requires e == q + |Flatten(xs)| + 1
    ensures EntriesAt(t, q, decode, []) == Ok((entries, e))
    decreases v, 1
  {
    forall k | 0 <= k < |entries| ensures EntryReads(t, q, xs, k, entries[k], decode) {
      EntryLayout(v, entries, xs, t, q, k);
      EncodeParses(entries[k].1, t, Off(q, xs, k) + 1, decode);
      EntryParses(t, Off(q, xs, k), Off(q, xs, k + 1), entries[k].0, entries[k].1, decode);
    }
    PrintableKeys(v, entries);
    EntriesFromStart(t, q, entries, xs, e, decode);
  }

  /** The keys of a printable map are distinct scalars. */
  lemma PrintableKeys(v: Val, entries: seq<(Val, Val)>)
    requires v == Dict(entries) && Printable(v)
    ensures KeysPrintable(entries)
  {
  }

  /** A vector whose items read up to position `q`. */
  lemma ListHead(t: seq<string>, p: nat, v: Val, items: seq<Val>, q: nat, decode: Decoder)
    requires v == List(items)
    requires p < |t| && t[p] == "[" && ItemsAt(t, p + 1, decode, "]", []) == Ok((items, q))
    ensures ValueAt(t, p, decode) == Ok((v, q))
  {
  }

  /** A map whose entries read up to position `q`. */
  lemma DictHead(t: seq<string>, p: nat, v: Val, entries: seq<(Val, Val)>, q: nat, decode: Decoder)
    requires v == Dict(entries)
    requires p < |t| && t[p] == "{" && EntriesAt(t, p + 1, decode, []) == Ok((entries, q))
    ensures ValueAt(t, p, decode) == Ok((v, q))
  {
  }

  /** One printed item, at its offset inside the vector. */
  lemma ItemParses(v: Val, items: seq<Val>, xs: seq<seq<string>>, t: seq<string>, q: nat, k: nat, decode: Decoder)
    requires v == List(items) && Printable(v) && k < |items|
    requires xs == Parts(v)
    requires At(t, q, Flatten(xs))
    ensures ItemReads(t, q, xs, k, items[k], "]", decode)
    decreases v, 0
  {
    FlattenAt(t, q, xs, k);
    OffNext(q, xs, k);
    EncodeParses(items[k], t, Off(q, xs, k), decode);
  }

  /** One printed entry, key then value, standing at `o` inside the map, once its value reads up to `o2`. */
  lemma EntryParses(t: seq<string>, o: nat, o2: nat, key: Val, val: Val, decode: Decoder)
    requires ScalarPrintable(key) && At(t, o, Encode(key))
    requires o + 1 <= |t| && ValueAt(t, o + 1, decode) == Ok((val, o2))
    ensures EntryAt(t, o, o2, (key, val), decode)
  {
    ScalarParses(key, t, o, decode);
  }

  /** Where the key and the value of the `k`-th printed entry stand; a key is one token. */
  lemma EntryLayout(v: Val, entries: seq<(Val, Val)>, xs: seq<seq<string>>, t: seq<string>, q: nat, k: nat)
    requires v == Dict(entries) && Printable(v) && k < |entries|
    requires xs == Parts(v)
    requires At(t, q, Flatten(xs))
    ensures ScalarPrintable(entries[k].0) && Printable(entries[k].1) && |Encode(entries[k].0)| == 1
    ensures At(t, Off(q, xs, k), Encode(entries[k].0)) && At(t, Off(q, xs, k) + 1, Encode(entries[k].1))
    ensures Off(q, xs, k + 1) == Off(q, xs, k) + 1 + |Encode(entries[k].1)|
  {
    var o := Off(q, xs, k);
    var key, val := entries[k].0, entries[k].1;
    assert xs[k] == Encode(key) + Encode(val);
    FlattenAt(t, q, xs, k);
    OffNext(q, xs, k);
    AtConcat(t, o, Encode(key), Encode(val));
  }

  /** Storing the `j`-th printed entry after the ones before it appends it. */
  lemma PutNewKey(entries: seq<(Val, Val)>, j: nat)
    requires j < |entries|
    requires KeysPrintable(entries)
    ensures Hashable(AsKey(entries[j].0))
    ensures Put(entries[..j], AsKey(entries[j].0), entries[j].1) == entries[..j + 1]
  {
    var key := entries[j].0;
    assert ScalarPrintable(key);
    assert AsKey(key) == key && Hashable(key);
    assert !HasKey(entries[..j], key) by {
      forall i | 0 <= i < |entries[..j]| ensures !KeyEq(entries[..j][i].0, key) {
        assert entries[..j][i] == entries[i];
      }
    }
    assert entries[..j] + [(key, entries[j].1)] == entries[..j + 1];
  }

  /** Where the opener, the body and the closer of a bracketed run stand. */
  lemma BracketLayout(t: seq<string>, p: nat, open: string, f: seq<string>, close: string)
    requires At(t, p, [open] + f + [close])
    ensures p < |t| && t[p] == open && At(t, p + 1, f)
    ensures p + 1 + |f| < |t| && t[p + 1 + |f|] == close
  {
    AtConcat(t, p, [open] + f, [close]);
    AtConcat(t, p, [open], f);
    assert t[p + 0] == [open][0];
    assert t[p + |[open] + f| + 0] == [close][0];
  }

  // ---------------------------------------------------------------------------
  // Reading back what was dumped

  /** A token that the tokenizer reads as one atom. */
  predicate AtomToken(tok: string)
  {
    tok != [] && forall k :: 0 <= k < |tok| ==> AtomChar(tok[k]) && tok[k] != ';'
  }

  /** A token `Dumps` writes: an atom or a bracket. */
  predicate SimpleToken(tok: string)
  {
    AtomToken(tok) || tok == "[" || tok == "]" || tok == "{" || tok == "}"
  }

  predicate AllSimple(toks: seq<string>)
  {
    forall k :: 0 <= k < |toks| ==> SimpleToken(toks[k])
  }

  lemma AllSimpleConcat(a: seq<string>, b: seq<string>)
    requires AllSimple(a) && AllSimple(b)
    ensures AllSimple(a + b)
  {
    forall k | 0 <= k < |a + b| ensures SimpleToken((a + b)[k]) {
      if k >= |a| {
        assert (a + b)[k] == b[k - |a|];
      }
    }
  }

  lemma {:induction false} FlattenSimple(xs: seq<seq<string>>)
    requires forall i :: 0 <= i < |xs| ==> AllSimple(xs[i])
    ensures AllSimple(Flatten(xs))
    decreases |xs|
  {
    if xs != [] {
      FlattenSimple(xs[1..]);
      AllSimpleConcat(xs[0], Flatten(xs[1..]));
    }
  }

  /** `str(i)` is an atom. */
  lemma IntTokenAtom(i: int)
    ensures AtomToken(IntToString(i))
  {
    var s := IntToString(i);
    if i < 0 {
      var d := NatToString(-i);
      assert s == "-" + d;
      forall k | 0 <= k < |s| ensures AtomChar(s[k]) && s[k] != ';' {
        if k > 0 {
          assert s[k] == d[k - 1];
        }
      }
    }
  }

  /** Every token of a printable value is an atom or a bracket. */
  lemma EncodeSimple(v: Val)
    requires Printable(v)
    ensures AllSimple(Encode(v))
    decreases v
  {
    match v
    case Int(i) =>
      IntTokenAtom(i);
    case List(items) =>
      var xs := Parts(v);
      forall i | 0 <= i < |xs| ensures AllSimple(xs[i]) {
        EncodeSimple(items[i]);
      }
      FlattenSimple(xs);
      AllSimpleConcat(["["], Flatten(xs));
      AllSimpleConcat(["["] + Flatten(xs), ["]"]);
    case Dict(entries) =>
      var xs := Parts(v);
      forall i | 0 <= i < |xs| ensures AllSimple(xs[i]) {
        EncodeSimple(entries[i].0);
        EncodeSimple(entries[i].1);
        AllSimpleConcat(Encode(entries[i].0), Encode(entries[i].1));
      }
      FlattenSimple(xs);
      AllSimpleConcat(["{"], Flatten(xs));
      AllSimpleConcat(["{"] + Flatten(xs), ["}"]);
    case _ =>
  }

  /** An atom runs up to the first character that is not an atom character. */
  lemma {:induction false} AtomEndRun(s: string, i: nat, n: nat)
    requires i <= n <= |s|
    requires forall k :: i <= k < n ==> AtomChar(s[k])
    requires n == |s| || !AtomChar(s[n])
    ensures AtomEnd(s, i) == n
    decreases n - i
  {
    if i < n {
      AtomEndRun(s, i + 1, n);
    }
  }

  /** A printed token, followed by a space or nothing, is read as itself. */
  lemma LexToken(tok: string, rest: string)
    requires SimpleToken(tok)
    requires rest == [] || rest[0] == ' '
    ensures Lex(tok + rest) == [tok] + Lex(rest)
  {
    var s := tok + rest;
    if AtomToken(tok) {
      assert s[0] == tok[0];
      if |s| >= 2 {
        assert s[1] == if |tok| >= 2 then tok[1] else rest[0];
      }
      forall k | 0 <= k < |tok| ensures AtomChar(s[k]) {
        assert s[k] == tok[k];
      }
      if |s| > |tok| {
        assert s[|tok|] == rest[0];
      }
      AtomEndRun(s, 0, |tok|);
      assert s[..|tok|] == tok;
      assert s[|tok|..] == rest;
    } else {
      assert s[0] == tok[0] && [s[0]] == tok;
      assert s[1..] == rest;
    }
  }

  /** The tokenizer splits space-joined printed tokens back into those tokens. */
  lemma {:induction false} LexJoin(toks: seq<string>)
    requires AllSimple(toks)
    ensures Lex(Join(toks, ' ')) == toks
    decreases |toks|
  {
    if |toks| == 1 {
      LexToken(toks[0], []);
      assert toks[0] + [] == toks[0];
      assert toks == [toks[0]];
    } else if |toks| > 1 {
      var j := Join(toks[1..], ' ');
      assert Join(toks, ' ') == toks[0] + ([' '] + j);
      assert SimpleToken(toks[0]);
      LexToken(toks[0], [' '] + j);
      LexSkip(' ', j);
      assert AllSimple(toks[1..]) by {
        forall k | 0 <= k < |toks[1..]| ensures SimpleToken(toks[1..][k]) {
          assert toks[1..][k] == toks[k + 1];
        }
      }
      LexJoin(toks[1..]);
      assert toks == [toks[0]] + toks[1..];
    }
  }

  /** Printed tokens carry no `;`, so no comment is cut out of the dump. */
  lemma {:induction false} JoinKeepsText(toks: seq<string>)
    requires AllSimple(toks)
    ensures StripComments(Join(toks, ' ')) == Join(toks, ' ')
    decreases |toks|
  {
    if toks != [] {
      assert SimpleToken(toks[0]);
      assert !HasChar(toks[0], ';');
      if |toks| == 1 {
        NoCommentsKept(toks[0]);
      } else {
        var j := Join(toks[1..], ' ');
        assert Join(toks, ' ') == toks[0] + ([' '] + j);
        assert AllSimple(toks[1..]) by {
          forall k | 0 <= k < |toks[1..]| ensures SimpleToken(toks[1..][k]) {
            assert toks[1..][k] == toks[k + 1];
          }
        }
        JoinKeepsText(toks[1..]);
        StripCommentsPrefix(toks[0], [' '] + j);
        assert !HasChar([' '], ';');
        StripCommentsPrefix([' '], j);
      }
    }
  }

  /** The dump of a printable value tokenizes to that value's tokens. */
  lemma DumpsTokens(v: Val)
    requires Printable(v)
    ensures Tokenize(Dumps(v)) == Encode(v)
  {
    EncodeSimple(v);
    JoinKeepsText(Encode(v));
    LexJoin(Encode(v));
  }

  /** `loads(dumps(v)) == v` for every printable value, whatever `literal_eval` does. */
  lemma LoadsDumps(v: Val, decode: Decoder)
    requires Printable(v)
    ensures Loads(Dumps(v), decode) == Ok(v)
  {
    DumpsTokens(v);
    var t := Encode(v);
    assert At(t, 0, t);
    EncodeParses(v, t, 0, decode);
  }

  /** A map whose keys `1` and `true` are one key in Python is not printable, so the round trip says nothing about it. */
  lemma EqualKeysNotPrintable(a: Val, b: Val)
    ensures !Printable(Dict([(Int(1), a), (Bool(true), b)]))
  {
    var entries := [(Int(1), a), (Bool(true), b)];
    assert KeyEq(entries[0].0, entries[1].0);
    assert !DistinctKeys(entries);
  }
}

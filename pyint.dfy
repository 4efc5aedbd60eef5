/**
 * Python's `str(n)` and `int(s)` on decimal integers, shared by the name
 * processing and the configuration parser.
 */
module PyInt {
  import opened Wrappers

  /** The character of a decimal digit. */
  function DigitChar(d: int): char
    requires 0 <= d < 10
  {
    ('0' as int + d) as char
  }

  /** `str(n)` for a non-negative integer. */
  function NatToString(n: nat): (s: string)
    ensures s != [] && forall i :: 0 <= i < |s| ==> '0' <= s[i] <= '9'
    decreases n
  {
    if n < 10 then [DigitChar(n)] else NatToString(n / 10) + [DigitChar(n % 10)]
  }

  /** `str(i)`. */
  function IntToString(i: int): (s: string)
    ensures s != []
  {
    if i < 0 then "-" + NatToString(-i) else NatToString(i)
  }

  /** `int(s)` on an optional sign and decimal digits: `ValueError` otherwise. */
  function ParseInt(s: string): (r: Result<int>)
  {
    if s != [] && (s[0] == '-' || s[0] == '+') then
      (match ParseDigits(s[1..])
       case Some(n) => var v: int := n; Ok(if s[0] == '-' then -v else v)
       case None => Err(ValueInvalid(s)))
    else
      match ParseDigits(s)
      case Some(n) => Ok(n)
      case None => Err(ValueInvalid(s))
  }

  /** The value of a non-empty run of decimal digits. */
  function ParseDigits(s: string): (r: Option<nat>)
    ensures r.Some? <==> s != [] && forall i :: 0 <= i < |s| ==> '0' <= s[i] <= '9'
    decreases |s|
  {
    if s == [] || !('0' <= s[|s| - 1] <= '9') then None
    else if |s| == 1 then Some(s[0] as int - '0' as int)
    else
      match ParseDigits(s[..|s| - 1])
      case Some(n) => Some(10 * n + (s[|s| - 1] as int - '0' as int))
      case None => None
  }

  /** Reading back what `str` wrote gives the number. */
  lemma {:induction false} ParseNatToString(n: nat)
    ensures ParseDigits(NatToString(n)) == Some(n)
    decreases n
  {
    if n >= 10 {
      ParseNatToString(n / 10);
      var s := NatToString(n);
      assert s[..|s| - 1] == NatToString(n / 10);
    }
  }

  lemma ParseIntToString(i: int)
    ensures ParseInt(IntToString(i)) == Ok(i)
  {
    if i < 0 {
      var d := NatToString(-i);
      ParseNatToString(-i);
      assert ("-" + d)[0] == '-';
      assert ("-" + d)[1..] == d;
    } else {
      var d := NatToString(i);
      ParseNatToString(i);
      assert d[0] != '-' && d[0] != '+';
    }
  }
}

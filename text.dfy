/** Text helpers used to build the validator's error messages the way the
    Python server formats them (`str(int)`, `repr(list_of_str)`, f-string prefixes). */
module Text {

  /** Decimal digits of a natural number, as Python's `str(n)` prints it. */
  function NatToString(n: nat): (s: string)
    ensures |s| > 0
    decreases n
  {
    if n < 10 then [DigitChar(n)] else NatToString(n / 10) + [DigitChar(n % 10)]
  }

  function DigitChar(d: nat): char
    requires d < 10
  {
    "0123456789"[d]
  }

  /** `str(i)` for a Python int that may be negative. */
  function IntToString(i: int): string
  {
    if i < 0 then "-" + NatToString(-i) else NatToString(i)
  }

  /** Python's `repr` of a list of strings: `['a', 'b']`. */
  function ListRepr(items: seq<string>): string
  {
    "[" + JoinQuoted(items) + "]"
  }

  function JoinQuoted(items: seq<string>): string
    decreases |items|
  {
    if |items| == 0 then ""
    else if |items| == 1 then "'" + items[0] + "'"
    else "'" + items[0] + "', " + JoinQuoted(items[1..])
  }

  /** `[prefix + e for e in errs]`: every message keeps its place and gains the prefix. */
  function Prefixed(prefix: string, errs: seq<string>): (r: seq<string>)
    ensures |r| == |errs|
    ensures forall i :: 0 <= i < |errs| ==> r[i] == prefix + errs[i]
  {
    if errs == [] then [] else [prefix + errs[0]] + Prefixed(prefix, errs[1..])
  }
}

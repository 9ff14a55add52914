/** Decimal rendering of counters, as Python's f-string `{n}` prints a non-negative int. */
module Decimal {

  predicate IsDigit(c: char)
  {
    '0' <= c <= '9'
  }

  /** The number a string of decimal digits denotes. */
  function Value(s: string): nat
    requires forall i :: 0 <= i < |s| ==> IsDigit(s[i])
  {
    if s == [] then 0
    else
      assert IsDigit(s[|s| - 1]);
      10 * Value(s[..|s| - 1]) + (s[|s| - 1] as int - '0' as int)
  }

  /**
   `str(n)`: digits only, no leading zero (so "0" only for zero), and reading the
   digits back gives `n`.
   */
  function NatToString(n: nat): (s: string)
    ensures |s| >= 1
    ensures forall i :: 0 <= i < |s| ==> IsDigit(s[i])
    ensures s[0] == '0' ==> n == 0 && s == "0"
    ensures Value(s) == n
  {
    var d := ('0' as int + n % 10) as char;
    if n < 10 then
      [d]
    else
      var prefix := NatToString(n / 10);
      var s := prefix + [d];
      assert s[..|s| - 1] == prefix;
      s
  }
}

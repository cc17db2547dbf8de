/** Base-10 formatting of unsigned integers, as strconv.FormatUint(x, 10) does it. */
module Strconv {
  predicate IsDigit(c: char) {
    '0' <= c <= '9'
  }

  predicate AllDigits(s: string) {
    forall i :: 0 <= i < |s| ==> IsDigit(s[i])
  }

  function DigitChar(d: nat): (c: char)
    requires d < 10
    ensures IsDigit(c) && c as int - '0' as int == d
  {
    (d + '0' as int) as char
  }

  /** The decimal string of n: digits only, no leading zero except for "0" itself. */
  function FormatUint(n: nat): (s: string)
    ensures |s| >= 1 && AllDigits(s)
    ensures (s == "0") == (n == 0)
    ensures s[0] == '0' ==> s == "0"
    decreases n
  {
    if n < 10 then [DigitChar(n)] else FormatUint(n / 10) + [DigitChar(n % 10)]
  }

  /** Reads a string of decimal digits back as a number. */
  function ParseUint(s: string): nat
    requires AllDigits(s)
    decreases |s|
  {
    if s == [] then 0 else 10 * ParseUint(s[..|s| - 1]) + (s[|s| - 1] as int - '0' as int)
  }

  /** Parsing the label back yields the id it was formatted from. */
  lemma {:induction false} ParseFormatUint(n: nat)
    ensures ParseUint(FormatUint(n)) == n
  {
    if n >= 10 {
      var s := FormatUint(n);
      assert s[..|s| - 1] == FormatUint(n / 10);
      ParseFormatUint(n / 10);
    }
  }

  /** Distinct ids never share a label. */
  lemma FormatUintInjective(a: nat, b: nat)
    ensures FormatUint(a) == FormatUint(b) ==> a == b
  {
    ParseFormatUint(a);
    ParseFormatUint(b);
  }
}

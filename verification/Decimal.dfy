/** Decimal numbers as text. */
module Decimal {
  import opened Net

  predicate IsDigit(c: char) {
    '0' <= c <= '9'
  }

  predicate AllDigits(s: string) {
    forall c <- s :: IsDigit(c)
  }

  function Print(n: nat): string {
    if n < 10 then [n as char + '0'] else Print(n / 10) + [(n % 10) as char + '0']
  }

  /** The number that a non-empty string of digits denotes. */
  function Parse(s: string): Option<nat> {
    if s == "" || !IsDigit(s[|s| - 1]) then None
    else
      var d := (s[|s| - 1] - '0') as nat;
      if |s| == 1 then Some(d)
      else match Parse(s[..|s| - 1])
        case None => None
        case Some(n) => Some(10 * n + d)
  }

  lemma {:induction false} PrintParses(n: nat)
    ensures Parse(Print(n)) == Some(n) && AllDigits(Print(n)) && Print(n) != ""
  {
    if n >= 10 {
      PrintParses(n / 10);
      var s := Print(n);
      assert s[..|s| - 1] == Print(n / 10);
    }
  }

  /** Different numbers print differently. */
  lemma PrintInjective(m: nat, n: nat)
    requires Print(m) == Print(n)
    ensures m == n
  {
    PrintParses(m);
    PrintParses(n);
  }

  /** Only strings of digits parse. */
  lemma {:induction false} ParsesDigits(s: string)
    ensures Parse(s).Some? <==> s != "" && AllDigits(s)
  {
    if |s| > 1 {
      ParsesDigits(s[..|s| - 1]);
      assert s == s[..|s| - 1] + [s[|s| - 1]];
    }
  }
}

/** Choosing a name for a new server: the first number that no description uses. */
module ServerNames {
  import opened Decimal

  function Name(word: string, i: nat): string {
    word + " " + Print(i)
  }

  lemma NameInjective(word: string, i: nat, j: nat)
    requires Name(word, i) == Name(word, j)
    ensures i == j
  {
    var s := word + " ";
    assert Print(i) == Name(word, i)[|s|..] == Name(word, j)[|s|..] == Print(j);
    PrintInjective(i, j);
  }

  /** The names numbered 1 to n. */
  function Names(word: string, n: nat): set<string> {
    if n == 0 then {} else Names(word, n - 1) + {Name(word, n)}
  }

  lemma {:induction false} NamesAre(word: string, n: nat, s: string)
    ensures s in Names(word, n) <==> exists i :: 1 <= i <= n && s == Name(word, i)
  {
    if n > 0 {
      NamesAre(word, n - 1, s);
    }
  }

  lemma {:induction false} NamesCount(word: string, n: nat)
    ensures |Names(word, n)| == n
  {
    if n > 0 {
      NamesCount(word, n - 1);
      NamesAre(word, n - 1, Name(word, n));
      if Name(word, n) in Names(word, n - 1) {
        var i :| 1 <= i <= n - 1 && Name(word, n) == Name(word, i);
        NameInjective(word, n, i);
        assert false;
      }
    }
  }

  lemma {:induction false} SubsetCount(a: set<string>, b: set<string>)
    requires a <= b
    ensures |a| <= |b|
  {
    if a != {} {
      var x :| x in a;
      SubsetCount(a - {x}, b - {x});
    }
  }

  function ToSet(s: seq<string>): set<string> {
    if s == [] then {} else ToSet(s[1..]) + {s[0]}
  }

  lemma {:induction false} ToSetBound(s: seq<string>)
    ensures |ToSet(s)| <= |s|
    ensures forall x :: x in s <==> x in ToSet(s)
  {
    if s != [] {
      ToSetBound(s[1..]);
    }
  }

  /** If the first n names are all taken there are at least n descriptions. */
  lemma Pigeonhole(word: string, n: nat, descriptions: seq<string>)
    requires forall i | 1 <= i <= n :: Name(word, i) in descriptions
    ensures n <= |descriptions|
  {
    NamesCount(word, n);
    ToSetBound(descriptions);
    forall s | s in Names(word, n) ensures s in ToSet(descriptions) {
      NamesAre(word, n, s);
    }
    SubsetCount(Names(word, n), ToSet(descriptions));
  }

  /** The search ends after at most one more round than there are servers, with the least free number. */
  method NextAvailableServerName(word: string, descriptions: seq<string>) returns (name: string, i: nat)
    ensures 1 <= i <= |descriptions| + 1
    ensures name == Name(word, i) && name !in descriptions
    ensures forall j | 1 <= j < i :: Name(word, j) in descriptions
  {
    i := 0;
    var nameExists := true;
    while nameExists
      invariant 0 <= i
      invariant forall j | 1 <= j < i :: Name(word, j) in descriptions
      invariant i >= 1 && nameExists ==> Name(word, i) in descriptions
      invariant i == 0 ==> nameExists
      invariant !nameExists ==> Name(word, i) !in descriptions
      decreases nameExists, |descriptions| + 1 - i
    {
      Pigeonhole(word, i, descriptions);
      i := i + 1;
      nameExists := false;
      var n := 0;
      while n < |descriptions| && !nameExists
        invariant 0 <= n <= |descriptions|
        invariant nameExists ==> Name(word, i) in descriptions
        invariant !nameExists ==> Name(word, i) !in descriptions[..n]
      {
        if descriptions[n] == Name(word, i) {
          nameExists := true;
        }
        n := n + 1;
      }
      assert descriptions[..|descriptions|] == descriptions;
    }
    Pigeonhole(word, i - 1, descriptions);
    name := Name(word, i);
  }
}

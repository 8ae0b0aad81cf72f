/**
  Tool output may be handed over in pieces that end inside a line. Where such a
  cut leaves the listed addresses right, and where it leaves the next number right.
*/
module AddressCuts {
  import opened Net
  import opened Decimal
  import opened TextTools
  import opened AddressPool

  /** The text that a line leaves before a cut. */
  function Before(ip: string, k: nat): string
    requires k <= |AddressLine(ip)|
  {
    var end := |LABEL| + |ip|;
    if k < |LABEL| then LABEL[..k]
    else if k <= end then ip[..k - |LABEL|]
    else if k < end + |MASK| then ip + MASK[..k - end]
    else ip
  }

  /** The text that it leaves after the cut. */
  function After(ip: string, k: nat): string
    requires k <= |AddressLine(ip)|
  {
    var end := |LABEL| + |ip|;
    if k == 0 then ip
    else if k < |LABEL| then LABEL[k..] + ip
    else if k <= end then ip[k - |LABEL|..]
    else MASK[k - end..]
  }

  // ----- Stripping the two pieces -----

  lemma {:induction false} StripShort(s: string, pattern: string)
    requires |s| < |pattern|
    ensures Strip(s, pattern) == s
  {
    if s != "" {
      StripShort(s[1..], pattern);
    }
  }

  /** The start of a pattern at the end of a text is kept. */
  lemma {:induction false} StripPartial(s: string, pattern: string, m: nat)
    requires m < |pattern| && pattern[0] !in s
    ensures Strip(s + pattern[..m], pattern) == s + pattern[..m]
    decreases |s|
  {
    var t := s + pattern[..m];
    if s == "" {
      StripShort(t, pattern);
    } else {
      assert t[0] == s[0] && s[0] in s && t[1..] == s[1..] + pattern[..m];
      StripPartial(s[1..], pattern, m);
    }
  }

  lemma CutInLabel(ip: string, k: nat)
    requires Dotted(ip) && 0 < k < |LABEL|
    ensures Bare(LABEL[..k]) == LABEL[..k] && Bare(LABEL[k..] + ip + MASK) == LABEL[k..] + ip
  {
    assert LABEL[0] == 'A' && MASK[0] == '/';
    assert 'A' !in LABEL[1..] && '/' !in LABEL;
    assert forall c <- LABEL[k..] :: c in LABEL[1..];
    assert 'A' !in LABEL[k..] + ip + MASK && '/' !in LABEL[k..] + ip && '/' !in LABEL[..k];
    StripShort(LABEL[..k], LABEL);
    StripAbsent(LABEL[..k], MASK);
    StripAbsent(LABEL[k..] + ip + MASK, LABEL);
    StripSuffix(LABEL[k..] + ip, MASK);
  }

  lemma CutInAddress(a: string, b: string)
    requires Dotted(a) && Dotted(b)
    ensures Bare(LABEL + a) == a && Bare(b + MASK) == b
  {
    assert LABEL[0] == 'A' && MASK[0] == '/';
    assert 'A' !in a && '/' !in a && 'A' !in b + MASK && '/' !in b;
    StripPrefix(a, LABEL);
    StripAbsent(a, MASK);
    StripAbsent(b + MASK, LABEL);
    StripSuffix(b, MASK);
  }

  lemma CutInMask(ip: string, m: nat)
    requires Dotted(ip) && 0 < m < |MASK|
    ensures Bare(LABEL + (ip + MASK[..m])) == ip + MASK[..m] && Bare(MASK[m..]) == MASK[m..]
  {
    assert LABEL[0] == 'A' && MASK[0] == '/';
    assert 'A' !in ip + MASK[..m] && '/' !in ip && 'A' !in MASK[m..] && '/' !in MASK[m..];
    StripPrefix(ip + MASK[..m], LABEL);
    StripPartial(ip, MASK, m);
    StripAbsent(MASK[m..], LABEL);
    StripAbsent(MASK[m..], MASK);
  }

  lemma CutBare(ip: string, k: nat)
    requires Dotted(ip) && k <= |AddressLine(ip)|
    ensures var line := AddressLine(ip);
      Bare(line[..k]) == Before(ip, k) && Bare(line[k..]) == After(ip, k)
  {
    var line, end := AddressLine(ip), |LABEL| + |ip|;
    if k == 0 || k == |line| {
      LineIsBare(ip);
      assert line[..k] == (if k == 0 then "" else line) && line[k..] == (if k == 0 then line else "");
    } else if k < |LABEL| {
      assert line[..k] == LABEL[..k] && line[k..] == LABEL[k..] + ip + MASK;
      CutInLabel(ip, k);
    } else if k <= end {
      var j := k - |LABEL|;
      assert line[..k] == LABEL + ip[..j] && line[k..] == ip[j..] + MASK;
      CutInAddress(ip[..j], ip[j..]);
    } else {
      var m := k - end;
      assert line[..k] == LABEL + (ip + MASK[..m]) && line[k..] == MASK[m..];
      CutInMask(ip, m);
    }
  }

  /** What the two pieces of a line are listed as. */
  function Pieces(ip: string, k: nat): seq<string>
    requires k <= |AddressLine(ip)|
  {
    BareLine(AddressLine(ip)[..k]) + BareLine(AddressLine(ip)[k..])
  }

  /** A cut that leaves one piece without text. */
  predicate CleanCut(ip: string, k: nat) {
    k in {0, |LABEL|, |LABEL| + |ip|, |AddressLine(ip)|}
  }

  /** The address is listed as it is exactly at the four clean cuts. */
  lemma PiecesExactly(ip: string, k: nat)
    requires Dotted(ip) && ip != "" && k <= |AddressLine(ip)|
    ensures Pieces(ip, k) == [ip] <==> CleanCut(ip, k)
    ensures |Pieces(ip, k)| == if CleanCut(ip, k) then 1 else 2
    ensures var last := Pieces(ip, k)[|Pieces(ip, k)| - 1];
      last == if After(ip, k) == "" then ip else After(ip, k)
  {
    CutBare(ip, k);
    assert Before(ip, k) == "" <==> k == 0 || k == |LABEL|;
    assert After(ip, k) == "" <==> k == |LABEL| + |ip| || k == |AddressLine(ip)|;
    if After(ip, k) == "" {
      assert Before(ip, k) == ip;
    } else if Before(ip, k) == "" {
      assert After(ip, k) == ip;
    }
  }

  // ----- The last number of a piece -----

  /** The last part is what follows the last dot. */
  lemma {:induction false} LastPartIs(pre: string, last: string)
    requires '.' !in last && (pre == "" || pre[|pre| - 1] == '.')
    ensures LastPart(pre + last) == last
    ensures pre != "" ==> |Split(pre + last, '.')| >= 2
  {
    if pre == "" {
      assert pre + last == last;
      SplitNone(last, '.');
    } else {
      var s := pre + last;
      assert s[0] == pre[0] && s[1..] == pre[1..] + last;
      LastPartIs(pre[1..], last);
    }
  }

  lemma {:induction false} LastPartExact(s: string) returns (pre: string)
    ensures s == pre + LastPart(s) && '.' !in LastPart(s) && (pre == "" || pre[|pre| - 1] == '.')
    ensures pre != "" <==> '.' in s
  {
    if '.' !in s {
      pre := "";
      SplitNone(s, '.');
    } else if s[0] == '.' && '.' !in s[1..] {
      pre := ".";
      assert s == "." + s[1..];
      LastPartIs(".", s[1..]);
    } else {
      var p := LastPartExact(s[1..]);
      pre := [s[0]] + p;
      assert s == pre + LastPart(s[1..]);
      LastPartIs(pre, LastPart(s[1..]));
    }
  }

  predicate AllZeros(s: string) {
    forall c <- s :: c == '0'
  }

  lemma {:induction false} ParseZero(z: string)
    requires z != "" && AllDigits(z)
    ensures Parse(z).Some? && (Parse(z).value == 0 <==> AllZeros(z))
  {
    assert z[|z| - 1] in z;
    var d := z[|z| - 1];
    assert d - '0' == 0 as char <==> d == '0';
    if |z| > 1 {
      var z' := z[..|z| - 1];
      ParseZero(z');
      assert z == z' + [d] && forall c <- z' :: c in z;
      assert AllZeros(z) <==> AllZeros(z') && d == '0';
      assert Parse(z).value == 10 * Parse(z').value + (d - '0') as nat;
    } else {
      assert z == [d];
    }
  }

  /** Digits in front change a number exactly when one of them is not 0. */
  lemma {:induction false} ParseFront(z: string, b: string)
    requires z != "" && b != "" && AllDigits(z) && AllDigits(b)
    ensures Parse(z + b).Some? && Parse(b).Some?
    ensures Parse(z + b).value >= Parse(b).value
    ensures Parse(z + b).value == Parse(b).value <==> AllZeros(z)
    decreases |b|
  {
    var b', s := b[..|b| - 1], z + b;
    assert b[|b| - 1] in b && s[|s| - 1] == b[|b| - 1] && s[..|s| - 1] == z + b';
    if |b| == 1 {
      assert z + b' == z;
      ParseZero(z);
    } else {
      ParseFront(z, b');
    }
  }

  /**
    Cuts that keep the last number: up to its first digit, unless the rest of the
    label sticks to it; after leading zeros; at its end or the end of the line;
    or inside the mask when what is left of that happens to be the number.
  */
  predicate KeepsNumber(ip: string, k: nat)
    requires k <= |AddressLine(ip)| && |LastPart(ip)| <= |ip|
  {
    var end := |LABEL| + |ip|;
    var start := end - |LastPart(ip)|;
    if k <= start then k == 0 || '.' in ip || k >= |LABEL| - 1
    else if k <= end then k == end || AllZeros(AddressLine(ip)[start..k])
    else if k == end + 1 then Octet(ip) == 32
    else if k == end + 2 then Octet(ip) == 2
    else true
  }

  /** Text around a number other than blanks makes it no number. */
  lemma NoNumber(s: string, c: char)
    requires c in s && !IsSpace(c) && !IsDigit(c)
    ensures Parse(Trim(s)) == None
  {
    var left, right := TrimExact(s);
    assert c in Trim(s);
    ParsesDigits(Trim(s));
  }

  lemma OctetIs(pre: string, last: string)
    requires '.' !in last && (pre == "" || pre[|pre| - 1] == '.')
    ensures Octet(pre + last) == ToInt(last)
  {
    LastPartIs(pre, last);
  }

  /** The last part of an address with a number. */
  lemma NumberedPart(ip: string) returns (pre: string)
    requires Dotted(ip) && Octet(ip) != 0
    ensures ip == pre + LastPart(ip) && (pre == "" || pre[|pre| - 1] == '.') && (pre != "" <==> '.' in ip)
    ensures AllDigits(LastPart(ip)) && Parse(LastPart(ip)) == Some(Octet(ip)) && '.' !in LastPart(ip)
  {
    pre := LastPartExact(ip);
    assert forall c <- LastPart(ip) :: c in ip;
    DigitsUntrimmed(LastPart(ip));
    assert Octet(ip) != 0;
  }

  lemma OctetInLabel(ip: string, k: nat)
    requires Dotted(ip) && Octet(ip) != 0 && 0 < k < |LABEL|
    ensures Octet(LABEL[k..] + ip) == if '.' in ip || k == |LABEL| - 1 then Octet(ip) else 0
  {
    var pre := NumberedPart(ip);
    var last, s := LastPart(ip), LABEL[k..] + ip;
    DigitsUntrimmed(last);
    if '.' in ip {
      assert s == (LABEL[k..] + pre) + last;
      OctetIs(LABEL[k..] + pre, last);
    } else {
      assert ip == last && '.' !in LABEL && '.' !in s && s == "" + s;
      OctetIs("", s);
      LabelOctet(ip, k);
    }
  }

  lemma LabelOctet(last: string, k: nat)
    requires AllDigits(last) && 0 < k < |LABEL|
    ensures Parse(Trim(LABEL[k..] + last)) == if k == |LABEL| - 1 then Parse(last) else None
  {
    var s := LABEL[k..] + last;
    if k == |LABEL| - 1 {
      assert s[0] == ' ' && s[1..] == last;
      DigitsUntrimmed(last);
      assert last == "" || last[0] in last;
    } else {
      assert s[11 - k] == '=';
      NoNumber(s, '=');
    }
  }

  lemma DigitsOctet(b: string)
    requires AllDigits(b)
    ensures Octet(b) == match Parse(b) case Some(n) => if n <= INT_MAX then n else 0 case None => 0
  {
    assert b == "" + b;
    OctetIs("", b);
    DigitsUntrimmed(b);
  }

  lemma OctetInPart(ip: string, pre: string, last: string, j: nat)
    requires ip == pre + last && AllDigits(last) && Parse(last) == Some(Octet(ip)) && |pre| < j < |ip|
    ensures Octet(ip[j..]) <= Octet(ip)
    ensures Octet(ip[j..]) == Octet(ip) <==> AllZeros(ip[|pre|..j])
  {
    var z, b := ip[|pre|..j], ip[j..];
    assert last == z + b;
    assert forall c <- b :: c in last;
    assert forall c <- z :: c in last;
    DigitsOctet(b);
    ParseFront(z, b);
  }

  lemma OctetInAddress(ip: string, j: nat)
    requires Dotted(ip) && Octet(ip) != 0 && j < |ip| && |LastPart(ip)| <= |ip|
    ensures Octet(ip[j..]) <= Octet(ip)
    ensures var start := |ip| - |LastPart(ip)|;
      Octet(ip[j..]) == Octet(ip) <==> j <= start || AllZeros(ip[start..j])
  {
    var pre := NumberedPart(ip);
    var last := LastPart(ip);
    if j <= |pre| {
      assert ip[j..] == pre[j..] + last;
      OctetIs(pre[j..], last);
      OctetIs(pre, last);
    } else {
      OctetInPart(ip, pre, last, j);
    }
  }

  lemma OctetInMask()
    ensures Octet(MASK[1..]) == 32 && Octet(MASK[2..]) == 2
  {
    assert MASK[1..] == "32" && MASK[2..] == "2";
    DigitsOctet("32");
    DigitsOctet("2");
    assert "32"[..1] == "3";
  }

  lemma KeptInAddress(ip: string, k: nat)
    requires Dotted(ip) && Octet(ip) != 0 && |LABEL| <= k < |LABEL| + |ip| && |LastPart(ip)| <= |ip|
    ensures Octet(ip[k - |LABEL|..]) <= Octet(ip)
    ensures Octet(ip[k - |LABEL|..]) == Octet(ip) <==> KeepsNumber(ip, k)
  {
    var j, start := k - |LABEL|, |ip| - |LastPart(ip)|;
    OctetInAddress(ip, j);
    if start < j {
      assert AddressLine(ip)[|LABEL| + start..k] == ip[start..j];
    }
  }

  /** The text after a cut has the last number exactly where the cut keeps it. */
  lemma KeptExactly(ip: string, k: nat)
    requires Dotted(ip) && 2 <= Octet(ip) <= 254 && |LastPart(ip)| <= |ip|
    requires k <= |AddressLine(ip)| && After(ip, k) != ""
    ensures Octet(After(ip, k)) <= 254
    ensures Octet(After(ip, k)) == Octet(ip) <==> KeepsNumber(ip, k)
  {
    if k == 0 {
    } else if k < |LABEL| {
      OctetInLabel(ip, k);
    } else if k < |LABEL| + |ip| {
      KeptInAddress(ip, k);
    } else {
      OctetInMask();
    }
  }

  /** The next number depends on the last text alone. */
  lemma NextNumberLast(ips: seq<string>, x: string)
    requires ips != [] && Octet(x) <= 254 && Octet(ips[|ips| - 1]) <= 254
    ensures NextNumber(ips) == NextNumber([x]) <==> Octet(ips[|ips| - 1]) == Octet(x)
  {
  }

  /** The next number is right exactly at the cuts that keep the last one. */
  lemma NextNumberExactly(ip: string, k: nat)
    requires Dotted(ip) && 2 <= Octet(ip) <= 254 && k <= |AddressLine(ip)|
    ensures |LastPart(ip)| <= |ip| && (NextNumber(Pieces(ip, k)) == NextNumber([ip]) <==> KeepsNumber(ip, k))
  {
    var pre := NumberedPart(ip);
    var ips := Pieces(ip, k);
    PiecesExactly(ip, k);
    if After(ip, k) != "" {
      KeptExactly(ip, k);
    }
    NextNumberLast(ips, ip);
  }

  // ----- A cut in the listing -----

  lemma {:induction false} CollectedAppend(a: seq<string>, b: seq<string>)
    ensures Collected(a + b) == Collected(a) + Collected(b)
    decreases |b|
  {
    if b == [] {
      assert a + b == a;
    } else {
      var c, last := b[..|b| - 1], b[|b| - 1];
      assert (a + b)[..|a + b| - 1] == a + c && (a + b)[|a + b| - 1] == last;
      CollectedAppend(a, c);
      assert Collected(a) + Collected(c) + last + "\n" == Collected(a) + (Collected(c) + last + "\n");
    }
  }

  lemma CollectedAround(a: seq<string>, x: string, b: seq<string>)
    ensures Collected(a + [x] + b) == Collected(a) + (x + "\n" + Collected(b))
  {
    CollectedAppend(a + [x], b);
    assert (a + [x])[..|a|] == a && (a + [x])[|a|] == x;
    var p, q, r := Collected(a), x + "\n", Collected(b);
    assert Collected(a + [x]) == p + x + "\n" == p + q;
    assert p + q + r == p + (q + r);
  }

  /** The lines before a cut, its two sides and the lines after it are listed in turn. */
  lemma CutAddresses(before: seq<seq<string>>, x: string, after: seq<seq<string>>)
    requires '\n' !in x
    requires forall l <- Flatten(before) :: '\n' !in l
    requires forall l <- Flatten(after) :: '\n' !in l
    ensures Addresses(Collected(DataOf(before) + [x] + DataOf(after))) ==
            BareLines(Flatten(before)) + (BareLine(x) + BareLines(Flatten(after)))
  {
    var rest := x + "\n" + Collected(DataOf(after));
    CollectedAround(DataOf(before), x, DataOf(after));
    GroupingIrrelevant(before, rest);
    AddressesLine(x, Collected(DataOf(after)));
    GroupingIrrelevant(after, "");
    NothingListed();
    assert Collected(DataOf(after)) + "" == Collected(DataOf(after));
    assert BareLines(Flatten(after)) + [] == BareLines(Flatten(after));
  }

  /** Replacing one element of a list by others leaves the list exactly when they are that element. */
  lemma ReplacedExactly(a: seq<string>, x: string, b: seq<string>, ys: seq<string>)
    ensures a + (ys + b) == a + ([x] + b) <==> ys == [x]
  {
    var s, t := a + (ys + b), a + ([x] + b);
    if s == t {
      assert |s| == |a| + |ys| + |b| && |t| == |a| + 1 + |b|;
      assert ys[0] == s[|a|] == t[|a|] == x;
    }
  }

  lemma {:induction false} IpsAppend(a: seq<Peer>, b: seq<Peer>)
    ensures Ips(a + b) == Ips(a) + Ips(b) && AddressLines(a + b) == AddressLines(a) + AddressLines(b)
  {
    if a == [] {
      assert a + b == b;
    } else {
      assert (a + b)[0] == a[0] && (a + b)[1..] == a[1..] + b;
      IpsAppend(a[1..], b);
    }
  }

  /** The lines of the listing around one peer's. */
  lemma AroundPeer(ps: seq<Peer>, i: nat)
    requires i < |ps|
    ensures Ips(ps) == Ips(ps[..i]) + ([ps[i].ip] + Ips(ps[i + 1..]))
  {
    var rest := ps[i..];
    assert ps == ps[..i] + rest && rest[0] == ps[i] && rest[1..] == ps[i + 1..];
    assert Ips(rest) == [rest[0].ip] + Ips(rest[1..]);
    IpsAppend(ps[..i], rest);
  }

  /**
    One line of a valid file's listing is cut between two pieces, the others
    are whole. The addresses are read back right if and only if the cut is
    clean, and the next number if and only if a line follows or the cut keeps
    the number.
  */
  lemma CutListing(f: File, i: nat, k: nat, before: seq<seq<string>>, after: seq<seq<string>>)
    requires Valid(f) && i < |f.peers| && k <= |AddressLine(f.peers[i].ip)|
    requires Flatten(before) == AddressLines(f.peers[..i])
    requires Flatten(after) == [AddressLine(f.peers[i].ip)[k..]] + AddressLines(f.peers[i + 1..])
    ensures var ip := f.peers[i].ip;
      var ips := Addresses(Collected(DataOf(before) + [AddressLine(ip)[..k]] + DataOf(after)));
      && |LastPart(ip)| <= |ip|
      && (ips == Ips(f.peers) <==> CleanCut(ip, k))
      && (NextNumber(ips) == NextNumber(Ips(f.peers)) <==> i < |f.peers| - 1 || KeepsNumber(ip, k))
  {
    var ps, p := f.peers, f.peers[i];
    assert p in ps && forall q <- ps[..i] :: q in ps;
    assert forall q <- ps[i + 1..] :: q in ps;
    var line := AddressLine(p.ip);
    BareAddressLines(ps[..i]);
    BareAddressLines(ps[i + 1..]);
    LineIsBare(p.ip);
    CutAddresses(before, line[..k], after);
    var later := AddressLines(ps[i + 1..]);
    assert ([line[k..]] + later)[1..] == later;
    var ips := Ips(ps[..i]) + (Pieces(p.ip, k) + Ips(ps[i + 1..]));
    Associate(BareLine(line[..k]), BareLine(line[k..]), Ips(ps[i + 1..]));
    assert Addresses(Collected(DataOf(before) + [line[..k]] + DataOf(after))) == ips;
    AroundPeer(ps, i);
    PiecesExactly(p.ip, k);
    NextNumberExactly(p.ip, k);
    ReplacedExactly(Ips(ps[..i]), p.ip, Ips(ps[i + 1..]), Pieces(p.ip, k));
    LastOf(Ips(ps[..i]), Pieces(p.ip, k), Ips(ps[i + 1..]));
    LastOf(Ips(ps[..i]), [p.ip], Ips(ps[i + 1..]));
    IpsAt(ps[i + 1..]);
  }

  /** The next number depends on the last text alone. */
  lemma LastOf(a: seq<string>, b: seq<string>, c: seq<string>)
    requires b != []
    ensures NextNumber(a + (b + c)) == if c == [] then NextNumber(b) else NextNumber(c)
  {
    var s := a + (b + c);
    assert s[|s| - 1] == if c == [] then b[|b| - 1] else c[|c| - 1];
  }
}

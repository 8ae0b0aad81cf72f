/**
  Split tunnelling: the user's route mode and site list travel through the
  client's configuration, the request to the daemon and the daemon's parser,
  and end as routes. What an address means on the way in is what the routes do
  to it on the way out.
*/
module SplitTunnel {
  import opened Net
  import opened Decimal
  import opened TextTools

  datatype RouteMode = AllSites | OnlyForwardSites | AllExceptSites

  /** The library's parser of dotted quads; no text with a slash parses. */
  type Parser = string -> Option<nat>

  ghost predicate ParsesHosts(host: Parser) {
    forall s :: host(s).Some? ==> '/' !in s && s != "::"
  }

  // ----- Prefixes -----

  /** Membership of an IPv4 address in a prefix. */
  predicate Covers(p: Prefix, a: nat) {
    p.addr.V4? &&
    (p.len == 0 ||
     (if 0 < p.len < 32 then p.addr.bits / Pow2(32 - p.len) == a / Pow2(32 - p.len) else p.addr.bits == a))
  }

  /** The most specific route wins; at equal length an exclusion wins over the tunnel. */
  ghost predicate Tunnelled(allowed: seq<Prefix>, excluded: seq<Prefix>, a: nat) {
    exists r <- allowed :: Covers(r, a) && forall e <- excluded :: Covers(e, a) ==> e.len < r.len
  }

  // ----- Sites -----

  /** An address, or an address with a prefix length of at most 32. */
  predicate IsSubnetText(host: Parser, s: string) {
    if '/' !in s then host(s).Some?
    else
      var parts := Split(s, '/');
      |parts| == 2 && Parse(parts[1]).Some? && Parse(parts[1]).value <= 32 && host(parts[0]).Some?
  }

  /** The prefix that such a text denotes. */
  function SitePrefix(host: Parser, s: string): Prefix
    requires IsSubnetText(host, s)
  {
    if '/' !in s then Prefix(V4(host(s).value), 32)
    else Prefix(V4(host(Split(s, '/')[0]).value), Parse(Split(s, '/')[1]).value)
  }

  /** The text a stored entry stands for: its name, or else the address looked up for it. */
  predicate Stored(host: Parser, entries: seq<(string, string)>, s: string) {
    exists e <- entries :: Stands(host, e, s)
  }

  predicate Stands(host: Parser, e: (string, string), s: string) {
    IsSubnetText(host, s) && (s == e.0 || (s == e.1 && !IsSubnetText(host, e.0)))
  }

  /** An address is in a stored site range. */
  ghost predicate InSites(host: Parser, entries: seq<(string, string)>, a: nat) {
    exists s :: Stored(host, entries, s) && Covers(SitePrefix(host, s), a)
  }

  method GetVpnIps(host: Parser, entries: seq<(string, string)>) returns (ips: seq<string>)
    ensures forall s :: s in ips <==> Stored(host, entries, s)
    ensures forall i, j | 0 <= i < j < |ips| :: ips[i] != ips[j]
  {
    var all: seq<string> := [];
    for i := 0 to |entries|
      invariant forall s :: s in all <==> Stored(host, entries[..i], s)
    {
      var e := entries[i];
      assert entries[..i + 1] == entries[..i] + [e];
      assert forall s :: Stored(host, entries[..i + 1], s) <==> Stored(host, entries[..i], s) || Stands(host, e, s);
      if IsSubnetText(host, e.0) {
        all := all + [e.0];
      } else if IsSubnetText(host, e.1) {
        all := all + [e.1];
      }
    }
    assert entries[..|entries|] == entries;
    ips := RemoveDuplicates(all);
  }

  method RemoveDuplicates(all: seq<string>) returns (ips: seq<string>)
    ensures forall s :: s in ips <==> s in all
    ensures forall i, j | 0 <= i < j < |ips| :: ips[i] != ips[j]
  {
    ips := [];
    for i := 0 to |all|
      invariant forall s :: s in ips <==> s in all[..i]
      invariant forall m, n | 0 <= m < n < |ips| :: ips[m] != ips[n]
    {
      assert all[..i + 1] == all[..i] + [all[i]];
      if all[i] !in ips {
        ips := ips + [all[i]];
      }
    }
    assert all[..|all|] == all;
  }

  // ----- From the settings to the request -----

  function Effective(enabled: bool, mode: RouteMode): RouteMode {
    if enabled then mode else AllSites
  }

  /** The type and sites put into the configuration. */
  method AppendSplitTunneling(host: Parser, enabled: bool, mode: RouteMode, entries: seq<(string, string)>,
                              dns1: string, dns2: string)
    returns (kind: RouteMode, sites: seq<string>)
    ensures kind == Effective(enabled, mode)
    ensures forall s :: s in sites <==>
      enabled && (Stored(host, entries, s) || (kind == OnlyForwardSites && (s == dns1 || s == dns2)))
  {
    kind, sites := AllSites, [];
    if enabled {
      kind := mode;
      var ips := GetVpnIps(host, entries);
      sites := sites + ips;
      if kind == OnlyForwardSites {
        sites := sites + [dns1];
        sites := sites + [dns2];
      }
    }
  }

  /** A range of the request. */
  datatype Range = Range(address: string, len: int, isIpv6: bool)

  /** The value of the leading digits. */
  function Atoi(s: string): nat {
    if Parse(s).Some? then Parse(s).value
    else if s == "" then 0 else Atoi(s[..|s| - 1])
  }

  function RangeOf(text: string): Range {
    if '/' in text && |Split(text, '/')| > 1
    then Range(Split(text, '/')[0], Atoi(Split(text, '/')[1]), false)
    else Range(text, 32, false)
  }

  function RangesOf(texts: seq<string>): seq<Range> {
    seq(|texts|, i requires 0 <= i < |texts| => RangeOf(texts[i]))
  }

  const EVERYTHING := [Range("0.0.0.0", 0, false), Range("::", 0, true)]
  const DEFAULT_ALLOWED := ["0.0.0.0/0", " ::/0"]

  /** The ranges and exclusions of a request; an explicit list takes priority over the mode. */
  method BuildRequest(kind: RouteMode, sites: seq<string>, server: string, explicit: seq<string>)
    returns (allowed: seq<Range>, excluded: seq<string>)
    ensures explicit != [] && explicit != DEFAULT_ALLOWED ==> allowed == RangesOf(explicit)
    ensures explicit == [] || explicit == DEFAULT_ALLOWED ==>
      allowed == (if kind == OnlyForwardSites then RangesOf(sites) else EVERYTHING)
    ensures excluded == [server] + (if kind == AllExceptSites then sites else [])
  {
    allowed := [];
    if explicit != DEFAULT_ALLOWED && explicit != [] {
      allowed := AppendRanges(explicit);
    } else {
      if kind == AllSites || kind == AllExceptSites {
        allowed := allowed + [Range("0.0.0.0", 0, false)];
        allowed := allowed + [Range("::", 0, true)];
      }
      if kind == OnlyForwardSites {
        allowed := AppendRanges(sites);
      }
    }
    excluded := [server];
    if kind == AllExceptSites {
      for i := 0 to |sites|
        invariant excluded == [server] + sites[..i]
      {
        assert sites[..i + 1] == sites[..i] + [sites[i]];
        excluded := excluded + [sites[i]];
      }
      assert sites[..|sites|] == sites;
    }
  }

  method AppendRanges(texts: seq<string>) returns (ranges: seq<Range>)
    ensures ranges == RangesOf(texts)
  {
    ranges := [];
    for i := 0 to |texts|
      invariant ranges == RangesOf(texts[..i])
    {
      SplitSeparates(texts[i]);
      var parts := Split(texts[i], '/');
      if |parts| > 1 {
        ranges := ranges + [Range(parts[0], Atoi(parts[1]), false)];
      } else {
        ranges := ranges + [Range(texts[i], 32, false)];
      }
      assert RangesOf(texts[..i + 1]) == RangesOf(texts[..i]) + [RangeOf(texts[i])];
    }
    assert texts[..|texts|] == texts;
  }

  /** Text splits in two or more exactly when the separator occurs. */
  lemma {:induction false} SplitSeparates(s: string)
    ensures |Split(s, '/')| > 1 <==> '/' in s
  {
    if s != "" {
      SplitSeparates(s[1..]);
    }
  }

  // ----- The daemon's parser -----

  function ToAddress(host: Parser, text: string): Address {
    match host(text)
    case Some(b) => V4(b)
    case None => if text == "::" then V6(0) else NullAddress
  }

  function RangePrefix(host: Parser, r: Range): Prefix {
    Prefix(ToAddress(host, r.address), r.len)
  }

  /** An excluded text as the daemon parses it. */
  function ExcludedPrefix(host: Parser, text: string): Prefix {
    if '/' in text then
      if IsSubnetText(host, text) then SitePrefix(host, text) else Prefix(NullAddress, -1)
    else
      var a := ToAddress(host, text);
      Prefix(a, if a.V4? then 32 else if a.V6? then 128 else 999999)
  }

  predicate LongestFirst(ps: seq<Prefix>) {
    forall i, j | 0 <= i < j < |ps| :: ps[i].len >= ps[j].len
  }

  /** The allowed prefixes, longest first. */
  method ParseAllowed(host: Parser, ranges: seq<Range>) returns (ps: seq<Prefix>)
    ensures LongestFirst(ps)
    ensures multiset(ps) == multiset(seq(|ranges|, i requires 0 <= i < |ranges| => RangePrefix(host, ranges[i])))
    ensures forall p :: p in ps <==> exists r <- ranges :: p == RangePrefix(host, r)
  {
    ps := [];
    ghost var all := seq(|ranges|, i requires 0 <= i < |ranges| => RangePrefix(host, ranges[i]));
    for i := 0 to |ranges|
      invariant LongestFirst(ps)
      invariant multiset(ps) == multiset(all[..i])
    {
      assert all[..i + 1] == all[..i] + [all[i]];
      ps := InsertByLength(ps, RangePrefix(host, ranges[i]));
    }
    assert all[..|all|] == all;
    forall p ensures p in ps <==> exists r <- ranges :: p == RangePrefix(host, r) {
      assert p in ps <==> p in multiset(ps);
      assert p in all <==> p in multiset(all);
      if p in all {
        var i :| 0 <= i < |all| && all[i] == p;
        assert ranges[i] in ranges;
      }
      if r :| r in ranges && p == RangePrefix(host, r) {
        var i :| 0 <= i < |ranges| && ranges[i] == r;
        assert all[i] == p;
      }
    }
  }

  lemma Inserted(ps: seq<Prefix>, n: nat, p: Prefix)
    requires n <= |ps|
    ensures multiset(ps[..n] + [p] + ps[n..]) == multiset(ps) + multiset{p}
  {
    assert ps == ps[..n] + ps[n..];
  }

  method InsertByLength(ps: seq<Prefix>, p: Prefix) returns (qs: seq<Prefix>)
    requires LongestFirst(ps)
    ensures LongestFirst(qs) && multiset(qs) == multiset(ps) + multiset{p}
  {
    var n := 0;
    while n < |ps| && ps[n].len >= p.len
      invariant 0 <= n <= |ps|
      invariant forall i | 0 <= i < n :: ps[i].len >= p.len
    {
      n := n + 1;
    }
    qs := ps[..n] + [p] + ps[n..];
    Inserted(ps, n, p);
  }

  method ParseExcluded(host: Parser, texts: seq<string>) returns (ps: seq<Prefix>)
    ensures ps == seq(|texts|, i requires 0 <= i < |texts| => ExcludedPrefix(host, texts[i]))
    ensures forall p :: p in ps <==> exists t <- texts :: p == ExcludedPrefix(host, t)
  {
    ps := [];
    for i := 0 to |texts|
      invariant |ps| == i && forall j | 0 <= j < i :: ps[j] == ExcludedPrefix(host, texts[j])
    {
      ps := ps + [ExcludedPrefix(host, texts[i])];
    }
    forall t <- texts ensures ExcludedPrefix(host, t) in ps {
      var i :| 0 <= i < |texts| && texts[i] == t;
      assert ps[i] == ExcludedPrefix(host, t);
    }
  }

  // ----- The meaning survives -----

  /** A site text becomes the same prefix on either route through the daemon. */
  lemma SiteSurvives(host: Parser, s: string)
    requires ParsesHosts(host) && IsSubnetText(host, s)
    ensures RangePrefix(host, RangeOf(s)) == SitePrefix(host, s)
    ensures ExcludedPrefix(host, s) == SitePrefix(host, s)
  {
  }

  /** A text without a slash becomes the one address it denotes, or covers nothing. */
  lemma LiteralCovers(host: Parser, s: string, a: nat)
    requires '/' !in s
    ensures Covers(RangePrefix(host, RangeOf(s)), a) <==> host(s) == Some(a)
    ensures Covers(ExcludedPrefix(host, s), a) <==> host(s) == Some(a)
    ensures RangePrefix(host, RangeOf(s)).len == 32
  {
  }

  /** What the user asked for. */
  ghost predicate Wanted(host: Parser, kind: RouteMode, entries: seq<(string, string)>,
                         dns1: string, dns2: string, server: string, a: nat) {
    host(server) != Some(a) &&
    match kind
    case AllSites => true
    case OnlyForwardSites => InSites(host, entries, a) || host(dns1) == Some(a) || host(dns2) == Some(a)
    case AllExceptSites => !InSites(host, entries, a)
  }

  /** Forward mode: only the ranges of the sites, the server being a single excluded address. */
  lemma ForwardMeaning(host: Parser, sites: seq<string>, server: string,
                       allowed: seq<Prefix>, excluded: seq<Prefix>, a: nat)
    requires '/' !in server
    requires forall s <- sites :: RangePrefix(host, RangeOf(s)).len <= 32
    requires forall p :: p in allowed <==> exists r <- RangesOf(sites) :: p == RangePrefix(host, r)
    requires forall p :: p in excluded <==> p == ExcludedPrefix(host, server)
    ensures Tunnelled(allowed, excluded, a) <==>
            host(server) != Some(a) && exists s <- sites :: Covers(RangePrefix(host, RangeOf(s)), a)
  {
    LiteralCovers(host, server, a);
    var e := ExcludedPrefix(host, server);
    assert e in excluded;
    forall s <- sites ensures RangePrefix(host, RangeOf(s)) in allowed {
      var i :| 0 <= i < |sites| && sites[i] == s;
      assert RangesOf(sites)[i] == RangeOf(s);
      assert RangeOf(s) in RangesOf(sites);
    }
    forall r <- allowed ensures exists s <- sites :: r == RangePrefix(host, RangeOf(s)) {
      var x :| x in RangesOf(sites) && r == RangePrefix(host, x);
      var i :| 0 <= i < |sites| && RangesOf(sites)[i] == x;
      assert sites[i] in sites;
    }
  }

  /** Full-tunnel modes: everything but what is excluded. */
  lemma ExceptMeaning(host: Parser, texts: seq<string>, allowed: seq<Prefix>, excluded: seq<Prefix>, a: nat)
    requires ParsesHosts(host) && host("0.0.0.0").Some?
    requires forall p :: p in allowed <==> exists r <- EVERYTHING :: p == RangePrefix(host, r)
    requires forall p :: p in excluded <==> exists t <- texts :: p == ExcludedPrefix(host, t)
    requires forall t <- texts :: '/' !in t || IsSubnetText(host, t)
    ensures Tunnelled(allowed, excluded, a) <==> !exists t <- texts :: Covers(ExcludedPrefix(host, t), a)
  {
    var v4 := RangePrefix(host, EVERYTHING[0]);
    assert EVERYTHING[0] in EVERYTHING && v4 in allowed && Covers(v4, a);
    forall r <- allowed | Covers(r, a) ensures r.len == 0 {
    }
    forall t <- texts ensures ExcludedPrefix(host, t) in excluded {
    }
    forall t <- texts | Covers(ExcludedPrefix(host, t), a) ensures ExcludedPrefix(host, t).len >= 0 {
    }
  }

  /**
    From the settings to the routes: with no explicit list, an address goes
    through the tunnel exactly when the user's mode and sites say so and it is
    not the server.
  */
  method Translate(host: Parser, enabled: bool, mode: RouteMode, entries: seq<(string, string)>,
                   dns1: string, dns2: string, server: string)
    returns (allowed: seq<Prefix>, excluded: seq<Prefix>)
    requires ParsesHosts(host) && host("0.0.0.0").Some?
    requires '/' !in dns1 && '/' !in dns2 && '/' !in server
    ensures LongestFirst(allowed)
    ensures forall a: nat :: Tunnelled(allowed, excluded, a) <==>
              Wanted(host, Effective(enabled, mode), entries, dns1, dns2, server, a)
  {
    var kind, sites := AppendSplitTunneling(host, enabled, mode, entries, dns1, dns2);
    var ranges, texts := BuildRequest(kind, sites, server, []);
    allowed := ParseAllowed(host, ranges);
    excluded := ParseExcluded(host, texts);
    forall a: nat ensures Tunnelled(allowed, excluded, a) <==>
      Wanted(host, kind, entries, dns1, dns2, server, a)
    {
      LiteralCovers(host, server, a);
      match kind {
        case AllSites =>
          ExceptMeaning(host, texts, allowed, excluded, a);
        case AllExceptSites =>
          ExceptMeaning(host, texts, allowed, excluded, a);
          SitesMeaning(host, entries, sites, a);
          assert forall t :: t in texts <==> t == server || t in sites;
        case OnlyForwardSites =>
          LiteralCovers(host, dns1, a);
          LiteralCovers(host, dns2, a);
          forall s <- sites ensures RangePrefix(host, RangeOf(s)).len <= 32 {
            if Stored(host, entries, s) {
              SiteSurvives(host, s);
            } else {
              LiteralCovers(host, s, a);
            }
          }
          assert forall p :: p in excluded <==> p == ExcludedPrefix(host, server);
          ForwardMeaning(host, sites, server, allowed, excluded, a);
          ForwardSitesMeaning(host, entries, sites, dns1, dns2, a);
      }
    }
  }

  lemma SitesMeaning(host: Parser, entries: seq<(string, string)>, sites: seq<string>, a: nat)
    requires ParsesHosts(host) && forall s :: s in sites <==> Stored(host, entries, s)
    ensures InSites(host, entries, a) <==> exists s <- sites :: Covers(ExcludedPrefix(host, s), a)
  {
  }

  lemma ForwardSitesMeaning(host: Parser, entries: seq<(string, string)>, sites: seq<string>,
                            dns1: string, dns2: string, a: nat)
    requires ParsesHosts(host) && '/' !in dns1 && '/' !in dns2
    requires forall s :: s in sites <==> Stored(host, entries, s) || s == dns1 || s == dns2
    ensures (exists s <- sites :: Covers(RangePrefix(host, RangeOf(s)), a)) <==>
            InSites(host, entries, a) || host(dns1) == Some(a) || host(dns2) == Some(a)
  {
    LiteralCovers(host, dns1, a);
    LiteralCovers(host, dns2, a);
    forall s | Stored(host, entries, s) ensures RangePrefix(host, RangeOf(s)) == SitePrefix(host, s) {
      SiteSurvives(host, s);
    }
    assert dns1 in sites && dns2 in sites;
  }
}

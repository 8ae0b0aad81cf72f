/**
  Addresses of WireGuard clients: the next number is read back from the server
  file to which the last client was appended.
*/
module AddressPool {
  import opened Net
  import opened Decimal
  import opened TextTools

  const KEYWORD := "AllowedIPs"
  const LABEL := "AllowedIPs = "
  const MASK := "/32"

  // ----- Computing the next address -----

  /** The text of the listed addresses, one per line. */
  function Bare(s: string): string {
    Strip(Strip(s, LABEL), MASK)
  }

  function Addresses(stdOut: string): seq<string> {
    SkipEmpty(Split(Bare(stdOut), '\n'))
  }

  function LastPart(ip: string): string {
    Split(ip, '.')[|Split(ip, '.')| - 1]
  }

  const INT_MAX := 0x7fff_ffff

  /** Blanks around a number are ignored; text that is no 32-bit number counts as 0. */
  function ToInt(s: string): nat {
    match Parse(Trim(s)) case Some(n) => if n <= INT_MAX then n else 0 case None => 0
  }

  function Octet(ip: string): nat {
    ToInt(LastPart(ip))
  }

  function NextNumber(ips: seq<string>): Option<nat> {
    if ips == [] then Some(2)
    else if Octet(ips[|ips| - 1]) + 1 > 254 then None
    else Some(Octet(ips[|ips| - 1]) + 1)
  }

  function SubnetParts(subnet: string): seq<string> {
    SkipEmpty(Split(subnet, '.'))
  }

  /** The subnet address with its last part replaced. */
  function ClientIp(subnet: string, n: nat): string
    requires SubnetParts(subnet) != []
  {
    var parts := SubnetParts(subnet);
    Join(parts[..|parts| - 1] + [Print(n)], '.')
  }

  datatype Result = AddressPoolError | Assigned(ip: string)

  function Allocate(ips: seq<string>, subnet: string): Result {
    if NextNumber(ips).None? || SubnetParts(subnet) == [] then AddressPoolError
    else Assigned(ClientIp(subnet, NextNumber(ips).value))
  }

  /** Each piece of tool output is collected with a newline after it. */
  function Collected(pieces: seq<string>): string {
    if pieces == [] then "" else Collected(pieces[..|pieces| - 1]) + pieces[|pieces| - 1] + "\n"
  }

  method NextAddress(pieces: seq<string>, subnet: string) returns (r: Result)
    ensures r == Allocate(Addresses(Collected(pieces)), subnet)
  {
    var stdOut := "";
    for i := 0 to |pieces|
      invariant stdOut == Collected(pieces[..i])
    {
      assert pieces[..i + 1][..i] == pieces[..i];
      stdOut := stdOut + pieces[i] + "\n";
    }
    assert pieces[..|pieces|] == pieces;
    stdOut := Strip(stdOut, LABEL);
    stdOut := Strip(stdOut, MASK);
    var ips := SkipEmpty(Split(stdOut, '\n'));
    var number := "2";
    if ips != [] {
      var next := Octet(ips[|ips| - 1]) + 1;
      if next > 254 {
        return AddressPoolError;
      }
      number := Print(next);
    }
    var l := SkipEmpty(Split(subnet, '.'));
    if l == [] {
      return AddressPoolError;
    }
    l := l[..|l| - 1];
    l := l + [number];
    r := Assigned(Join(l, '.'));
  }

  // ----- The server file -----

  datatype Peer = Peer(publicKey: string, presharedKey: string, ip: string)

  /** The interface section, then one section a client. */
  datatype File = File(head: seq<string>, peers: seq<Peer>)

  function PeerLines(p: Peer): seq<string> {
    ["[Peer]", "PublicKey = " + p.publicKey, "PresharedKey = " + p.presharedKey, LABEL + p.ip + MASK, ""]
  }

  function PeersLines(ps: seq<Peer>): seq<string> {
    if ps == [] then [] else PeerLines(ps[0]) + PeersLines(ps[1..])
  }

  /** The lines that mention allowed addresses. */
  function Grep(lines: seq<string>): seq<string> {
    if lines == [] then []
    else GrepLine(lines[0]) + Grep(lines[1..])
  }

  function GrepLine(line: string): seq<string> {
    if Contains(line, KEYWORD) then [line] else []
  }

  function Listing(f: File): seq<string> {
    Grep(f.head + PeersLines(f.peers))
  }

  /** Whole lines as one piece of output. */
  function Data(lines: seq<string>): string {
    if lines == [] then "" else lines[0] + "\n" + Data(lines[1..])
  }

  function DataOf(groups: seq<seq<string>>): seq<string> {
    seq(|groups|, i requires 0 <= i < |groups| => Data(groups[i]))
  }

  function Flatten(groups: seq<seq<string>>): seq<string> {
    if groups == [] then [] else Flatten(groups[..|groups| - 1]) + groups[|groups| - 1]
  }

  predicate Dotted(s: string) {
    forall c <- s :: IsDigit(c) || c == '.'
  }

  predicate Quiet(line: string) {
    '\n' !in line && !Contains(line, KEYWORD)
  }

  predicate ValidPeer(p: Peer) {
    && Quiet("PublicKey = " + p.publicKey) && Quiet("PresharedKey = " + p.presharedKey)
    && Dotted(p.ip) && p.ip != "" && 2 <= Octet(p.ip) <= 254
  }

  function Octets(ps: seq<Peer>): seq<nat> {
    seq(|ps|, i requires 0 <= i < |ps| => Octet(ps[i].ip))
  }

  predicate Increasing(ns: seq<nat>) {
    forall i, j | 0 <= i < j < |ns| :: ns[i] < ns[j]
  }

  /** The file as client creations and removals keep it. */
  predicate Valid(f: File) {
    && (forall l <- f.head :: Quiet(l))
    && (forall p <- f.peers :: ValidPeer(p))
    && Increasing(Octets(f.peers))
  }

  function Ips(ps: seq<Peer>): seq<string> {
    if ps == [] then [] else [ps[0].ip] + Ips(ps[1..])
  }

  function AddressLine(ip: string): string {
    LABEL + ip + MASK
  }

  // ----- The listing reads back as the addresses -----

  lemma LineIsBare(ip: string)
    requires Dotted(ip)
    ensures Bare(AddressLine(ip)) == ip && '\n' !in AddressLine(ip)
  {
    assert AddressLine(ip) == LABEL + (ip + MASK);
    assert LABEL[0] == 'A' && 'A' !in ip + MASK;
    StripPrefix(ip + MASK, LABEL);
    assert MASK[0] == '/' && '/' !in ip;
    StripSuffix(ip, MASK);
  }

  lemma {:induction false} GrepAppend(a: seq<string>, b: seq<string>)
    ensures Grep(a + b) == Grep(a) + Grep(b)
  {
    if a == [] {
      assert a + b == b;
    } else {
      GrepAppend(a[1..], b);
      assert (a + b)[0] == a[0] && (a + b)[1..] == a[1..] + b;
      Associate(GrepLine(a[0]), Grep(a[1..]), Grep(b));
    }
  }

  lemma {:induction false} GrepQuiet(lines: seq<string>)
    requires forall l <- lines :: Quiet(l)
    ensures Grep(lines) == []
  {
    if lines != [] {
      assert lines[0] in lines;
      GrepQuiet(lines[1..]);
    }
  }

  lemma PeerListing(p: Peer)
    requires ValidPeer(p)
    ensures Grep(PeerLines(p)) == [AddressLine(p.ip)]
  {
    var quiet := ["[Peer]", "PublicKey = " + p.publicKey, "PresharedKey = " + p.presharedKey];
    var line := AddressLine(p.ip);
    assert PeerLines(p) == quiet + [line, ""];
    assert Quiet("[Peer]") by {
      FirstCharAbsent("[Peer]", KEYWORD);
    }
    GrepQuiet(quiet);
    GrepAppend(quiet, [line, ""]);
    assert Contains(line, KEYWORD) by {
      assert line[..|KEYWORD|] == KEYWORD;
    }
    assert !Contains("", KEYWORD);
    assert [line, ""][1..] == [""] && [""][1..] == [];
    assert Grep([""]) == [];
    assert Grep([line, ""]) == [line];
  }

  lemma {:induction false} FirstCharAbsent(s: string, pattern: string)
    requires pattern != "" && pattern[0] !in s
    ensures !Contains(s, pattern)
  {
    if s != "" {
      assert s[0] in s;
      FirstCharAbsent(s[1..], pattern);
    }
  }

  function AddressLines(ps: seq<Peer>): seq<string> {
    if ps == [] then [] else [AddressLine(ps[0].ip)] + AddressLines(ps[1..])
  }

  lemma {:induction false} PeersListing(ps: seq<Peer>)
    requires forall p <- ps :: ValidPeer(p)
    ensures Grep(PeersLines(ps)) == AddressLines(ps)
  {
    if ps != [] {
      assert ps[0] in ps;
      PeerListing(ps[0]);
      PeersListing(ps[1..]);
      GrepAppend(PeerLines(ps[0]), PeersLines(ps[1..]));
    }
  }

  /** One more line in front. */
  lemma AddressesLine(a: string, b: string)
    requires '\n' !in a
    ensures Addresses(a + "\n" + b) == BareLine(a) + Addresses(b)
  {
    StripLine(a, b, LABEL);
    var a1, b1 := Strip(a, LABEL), Strip(b, LABEL);
    StripChars(a, LABEL);
    StripLine(a1, b1, MASK);
    StripChars(a1, MASK);
    SplitFirst(Bare(a), Bare(b), '\n');
    var parts := Split(Bare(b), '\n');
    assert ([Bare(a)] + parts)[1..] == parts;
    assert Bare(a + "\n" + b) == Bare(a) + "\n" + Bare(b);
  }

  /** What one line contributes. */
  function BareLine(line: string): seq<string> {
    if Bare(line) == "" then [] else [Bare(line)]
  }

  /** The addresses of whole lines. */
  function BareLines(lines: seq<string>): seq<string> {
    if lines == [] then [] else BareLine(lines[0]) + BareLines(lines[1..])
  }

  lemma {:induction false} AddressesData(lines: seq<string>, rest: string)
    requires forall l <- lines :: '\n' !in l
    ensures Addresses(Data(lines) + rest) == BareLines(lines) + Addresses(rest)
  {
    if lines == [] {
      assert Data(lines) + rest == rest;
    } else {
      assert lines[0] in lines;
      var more := Data(lines[1..]) + rest;
      assert Data(lines) + rest == lines[0] + "\n" + more;
      AddressesData(lines[1..], rest);
      AddressesLine(lines[0], more);
      Associate(BareLine(lines[0]), BareLines(lines[1..]), Addresses(rest));
    }
  }

  lemma {:induction false} BareLinesAppend(a: seq<string>, b: seq<string>)
    ensures BareLines(a + b) == BareLines(a) + BareLines(b)
  {
    if a == [] {
      assert a + b == b;
    } else {
      BareLinesAppend(a[1..], b);
      assert (a + b)[0] == a[0] && (a + b)[1..] == a[1..] + b;
      Associate(BareLine(a[0]), BareLines(a[1..]), BareLines(b));
    }
  }

  /** A piece of whole lines with the newline collected after it. */
  lemma AddressesPiece(lines: seq<string>, rest: string)
    requires forall l <- lines :: '\n' !in l
    ensures Addresses(Data(lines) + "\n" + rest) == BareLines(lines) + Addresses(rest)
  {
    AddressesData(lines, "\n" + rest);
    assert Data(lines) + "\n" + rest == Data(lines) + ("\n" + rest);
    AddressesLine("", rest);
    assert "" + "\n" + rest == "\n" + rest;
    assert BareLine("") + Addresses(rest) == Addresses(rest);
  }

  /** However whole lines are grouped into pieces, the addresses are those of the lines. */
  lemma {:induction false} GroupingIrrelevant(groups: seq<seq<string>>, rest: string)
    requires forall l <- Flatten(groups) :: '\n' !in l
    ensures Addresses(Collected(DataOf(groups)) + rest) == BareLines(Flatten(groups)) + Addresses(rest)
    decreases |groups|
  {
    if groups == [] {
      assert Collected(DataOf(groups)) + rest == rest;
    } else {
      var init, last := groups[..|groups| - 1], groups[|groups| - 1];
      assert DataOf(groups)[..|groups| - 1] == DataOf(init);
      assert forall l <- last :: l in Flatten(groups);
      assert forall l <- Flatten(init) :: l in Flatten(groups);
      var tail := Data(last) + "\n" + rest;
      assert Collected(DataOf(groups)) + rest == Collected(DataOf(init)) + tail;
      GroupingIrrelevant(init, tail);
      AddressesPiece(last, rest);
      BareLinesAppend(Flatten(init), last);
      Associate(BareLines(Flatten(init)), BareLines(last), Addresses(rest));
    }
  }

  lemma {:induction false} BareAddressLines(ps: seq<Peer>)
    requires forall p <- ps :: ValidPeer(p)
    ensures BareLines(AddressLines(ps)) == Ips(ps)
    ensures forall l <- AddressLines(ps) :: '\n' !in l
  {
    if ps != [] {
      assert ps[0] in ps;
      BareAddressLines(ps[1..]);
      LineIsBare(ps[0].ip);
    }
  }

  lemma NothingListed()
    ensures Addresses("") == []
  {
  }

  /** Reading a valid file back, in any grouping of whole lines, yields exactly its addresses. */
  lemma ListingReadsBack(f: File, groups: seq<seq<string>>)
    requires Valid(f) && Flatten(groups) == Listing(f)
    ensures Addresses(Collected(DataOf(groups))) == Ips(f.peers)
  {
    GrepAppend(f.head, PeersLines(f.peers));
    GrepQuiet(f.head);
    PeersListing(f.peers);
    BareAddressLines(f.peers);
    assert Listing(f) == AddressLines(f.peers);
    GroupingIrrelevant(groups, "");
    NothingListed();
    assert Collected(DataOf(groups)) + "" == Collected(DataOf(groups));
    assert Ips(f.peers) + [] == Ips(f.peers);
  }

  // ----- Allocation stays collision free -----

  lemma {:induction false} IpsAt(ps: seq<Peer>)
    ensures |Ips(ps)| == |ps| && forall i | 0 <= i < |ps| :: Ips(ps)[i] == ps[i].ip
  {
    if ps != [] {
      IpsAt(ps[1..]);
    }
  }

  lemma {:induction false} JoinDotted(parts: seq<string>)
    requires forall p <- parts :: Dotted(p)
    ensures Dotted(Join(parts, '.'))
    ensures parts != [] && parts[|parts| - 1] != "" ==> Join(parts, '.') != ""
  {
    if |parts| >= 1 {
      assert parts[0] in parts;
      if |parts| > 1 {
        JoinDotted(parts[1..]);
      }
    }
  }

  lemma DigitsUntrimmed(s: string)
    requires AllDigits(s)
    ensures Trim(s) == s
  {
    if s != "" {
      assert s[0] in s && s[|s| - 1] in s;
    }
  }

  /** The text of a new address parses back to its number. */
  lemma ClientIpOctet(subnet: string, n: nat)
    requires Dotted(subnet) && SubnetParts(subnet) != []
    ensures var ip := ClientIp(subnet, n);
      Octet(ip) == (if n <= INT_MAX then n else 0) && Dotted(ip) && ip != ""
  {
    var parts := SubnetParts(subnet);
    SplitParts(subnet, '.');
    SkipEmptyParts(Split(subnet, '.'));
    PrintParses(n);
    DigitsUntrimmed(Print(n));
    var l := parts[..|parts| - 1] + [Print(n)];
    forall p <- l ensures '.' !in p && Dotted(p) {
      if p != Print(n) {
        assert p in parts;
      }
    }
    SplitJoin(l, '.');
    JoinDotted(l);
    assert l[|l| - 1] == Print(n);
  }

  datatype Event =
    | Create(publicKey: string, presharedKey: string, subnet: string)
    | RemovePeer(index: nat)

  predicate Sensible(e: Event) {
    e.Create? ==> Dotted(e.subnet) &&
                  Quiet("PublicKey = " + e.publicKey) && Quiet("PresharedKey = " + e.presharedKey)
  }

  function Step(f: File, e: Event): File {
    match e
    case RemovePeer(i) => if i < |f.peers| then f.(peers := f.peers[..i] + f.peers[i + 1..]) else f
    case Create(k, psk, subnet) =>
      match Allocate(Ips(f.peers), subnet)
      case AddressPoolError => f
      case Assigned(ip) => f.(peers := f.peers + [Peer(k, psk, ip)])
  }

  function Run(f: File, es: seq<Event>): File {
    if es == [] then f else Step(Run(f, es[..|es| - 1]), es[|es| - 1])
  }

  /** Creation fails exactly when the last client has number 254, or the subnet has no parts. */
  lemma CreationFailsExactly(f: File, subnet: string)
    requires Valid(f)
    ensures Allocate(Ips(f.peers), subnet) == AddressPoolError <==>
            SubnetParts(subnet) == [] || (f.peers != [] && Octet(f.peers[|f.peers| - 1].ip) == 254)
  {
    IpsAt(f.peers);
    if f.peers != [] {
      assert f.peers[|f.peers| - 1] in f.peers;
    }
  }

  lemma CreateValid(f: File, k: string, psk: string, subnet: string)
    requires Valid(f) && Sensible(Create(k, psk, subnet))
    ensures Valid(Step(f, Create(k, psk, subnet)))
  {
    IpsAt(f.peers);
    var r := Allocate(Ips(f.peers), subnet);
    if r.Assigned? {
      var n := NextNumber(Ips(f.peers)).value;
      ClientIpOctet(subnet, n);
      var g := Step(f, Create(k, psk, subnet));
      if f.peers != [] {
        assert f.peers[|f.peers| - 1] in f.peers;
        assert forall i | 0 <= i < |f.peers| :: Octets(f.peers)[i] <= Octets(f.peers)[|f.peers| - 1];
      }
      assert Octets(g.peers) == Octets(f.peers) + [n];
    }
  }

  lemma RemoveValid(f: File, i: nat)
    requires Valid(f)
    ensures Valid(Step(f, RemovePeer(i)))
  {
    if i < |f.peers| {
      var g := Step(f, RemovePeer(i));
      var ns := Octets(f.peers);
      assert Octets(g.peers) == ns[..i] + ns[i + 1..];
      assert Increasing(ns[..i] + ns[i + 1..]);
    }
  }

  /**
    Over every interleaving of creations and removals the file stays valid:
    numbers strictly increase within 2 to 254, so no two clients share an
    address.
  */
  lemma {:induction false} RunValid(f: File, es: seq<Event>)
    requires Valid(f) && forall e <- es :: Sensible(e)
    ensures Valid(Run(f, es))
    ensures var ps := Run(f, es).peers; forall i, j | 0 <= i < j < |ps| :: ps[i].ip != ps[j].ip
  {
    if es != [] {
      RunValid(f, es[..|es| - 1]);
      assert es[|es| - 1] in es;
      match es[|es| - 1] {
        case Create(k, psk, subnet) => CreateValid(Run(f, es[..|es| - 1]), k, psk, subnet);
        case RemovePeer(i) => RemoveValid(Run(f, es[..|es| - 1]), i);
      }
    }
    var ps := Run(f, es).peers;
    forall i, j | 0 <= i < j < |ps| ensures ps[i].ip != ps[j].ip {
      assert Octets(ps)[i] < Octets(ps)[j];
    }
  }

  /** The server, whose file the configurator reads and appends to. */
  class WireguardServer {
    var file: File

    constructor (head: seq<string>)
      ensures file == File(head, [])
    {
      file := File(head, []);
    }

    method AddClient(publicKey: string, presharedKey: string, subnet: string, groups: seq<seq<string>>)
      returns (r: Result)
      requires Valid(file) && Flatten(groups) == Listing(file)
      requires Sensible(Create(publicKey, presharedKey, subnet))
      modifies this
      ensures Valid(file) && file == Step(old(file), Create(publicKey, presharedKey, subnet))
      ensures r == Allocate(Ips(old(file).peers), subnet)
    {
      ListingReadsBack(file, groups);
      CreateValid(file, publicKey, presharedKey, subnet);
      r := NextAddress(DataOf(groups), subnet);
      if r.Assigned? {
        file := file.(peers := file.peers + [Peer(publicKey, presharedKey, r.ip)]);
      }
    }
  }
}

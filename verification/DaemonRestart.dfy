/**
  Switching in place refines restarting: both end in the one state that the
  new configuration determines, except for what only the creation of the
  interface can set.
*/
module DaemonRestart {
  import opened Net
  import opened Daemon
  import opened DaemonExclusions
  import DaemonSwitch

  /** Every call succeeds. */
  ghost predicate Reliable(env: Env) {
    Enumerates(env) && forall n, op :: env.outcome(n, op) == Ok
  }

  function ToSet(ps: seq<Prefix>): set<Prefix> {
    set p | p in ps
  }

  function Less(ps: seq<Prefix>, keep: seq<Prefix>): set<Prefix> {
    set p | p in ps && p !in keep
  }

  /** No connection and nothing installed. */
  predicate Idle(s: State) {
    s.conns == map[] && s.counts == map[] && s.sys.kernel == Kernel(None, map[], {}, {}, [])
  }

  function ResolversFor(env: Env, c: Config): seq<string> {
    if SetsResolvers(env, c) then Resolvers(c) else []
  }

  /** The link a configuration can run over without recreating the interface. */
  predicate Carries(link: Link, c: Config) {
    link.privateKey == c.privateKey && link.deviceV4 == c.deviceV4 && link.deviceV6 == c.deviceV6
  }

  /** The state that one configuration, running alone over a link, determines. */
  ghost predicate Settled(s: State, env: Env, c: Config, link: Link) {
    && s.conns.Keys == {c.hop} && s.conns[c.hop].config == c
    && Carries(link, c) && AllPlain(c.excluded)
    && Positive(s) && (forall p :: Count(s, p) == Occurrences(c.excluded, p))
    && s.sys.kernel == Kernel(Some(link), map[c.serverKey := c], ToSet(c.allowed),
                              s.counts.Keys, ResolversFor(env, c))
  }

  /** Positive counts are determined by the count of each prefix. */
  lemma CountsDetermined(s: State, t: State)
    requires Positive(s) && Positive(t) && forall p :: Count(s, p) == Count(t, p)
    ensures s.counts == t.counts
  {
    assert forall p :: p in s.counts <==> Count(s, p) >= 1;
    assert forall p :: p in t.counts <==> Count(t, p) >= 1;
    assert s.counts.Keys == t.counts.Keys;
    forall p <- s.counts ensures s.counts[p] == t.counts[p] {
      assert Count(s, p) == Count(t, p);
    }
  }

  lemma {:induction false} AddRoutesReliable(y: Sys, env: Env, ps: seq<Prefix>)
    requires Reliable(env)
    ensures var (ok, z) := AddRoutes(y, env, ps);
      ok && z.kernel == y.kernel.(routes := y.kernel.routes + ToSet(ps))
    decreases |ps|
  {
    if ps == [] {
      assert y.kernel.routes + ToSet(ps) == y.kernel.routes;
    } else {
      AddRoutesReliable(Call(y, env, AddRoute(ps[0])).1, env, ps[1..]);
      assert y.kernel.routes + {ps[0]} + ToSet(ps[1..]) == y.kernel.routes + ToSet(ps);
    }
  }

  lemma {:induction false} DropRoutesReliable(y: Sys, env: Env, ps: seq<Prefix>, keep: seq<Prefix>)
    requires Reliable(env)
    ensures DropRoutes(y, env, ps, keep).kernel ==
            y.kernel.(routes := y.kernel.routes - Less(ps, keep))
    decreases |ps|
  {
    if ps == [] {
      assert y.kernel.routes - Less(ps, keep) == y.kernel.routes;
    } else {
      var z := if ps[0] in keep then y else Call(y, env, DeleteRoute(ps[0])).1;
      DropRoutesReliable(z, env, ps[1..], keep);
      assert z.kernel.routes - Less(ps[1..], keep) ==
             y.kernel.routes - Less(ps, keep);
    }
  }

  lemma {:induction false} AddAllKernel(s: State, env: Env, es: seq<Excluded>)
    ensures var k := AddAll(s, env, es).sys.kernel; k == s.sys.kernel.(exclusions := k.exclusions)
    decreases |es|
  {
    if es != [] {
      AddAllKernel(AddOne(s, env, AddKey(es[0])), env, es[1..]);
    }
  }

  lemma {:induction false} DelAllKernel(s: State, env: Env, es: seq<Excluded>)
    ensures var k := DelAll(s, env, es).sys.kernel; k == s.sys.kernel.(exclusions := k.exclusions)
    decreases |es|
  {
    if es != [] {
      DelAllKernel(DelOne(s, env, DelKey(es[0])), env, es[1..]);
    }
  }

  /** Where the counts are exact and installed, the kernel has exactly their keys. */
  lemma InstalledIsCounted(s: State, env: Env)
    requires Reliable(env) && Kept(s, env)
    ensures s.sys.kernel.exclusions == s.counts.Keys
  {
  }

  lemma BringUpReliable(y: Sys, env: Env, c: Config)
    requires Reliable(env) && y.kernel.link == Some(NewLink(c, !env.hasIp))
    ensures var (ok, z) := BringUp(y, env, c);
      ok && z.kernel == y.kernel.(link := Some(LinkOf(c)), routes := y.kernel.routes + ToSet(c.allowed),
                                  resolvers := if SetsResolvers(env, c) then Resolvers(c) else y.kernel.resolvers)
  {
    var y1 := UpdateResolvers(y, env, c).1;
    var y2 := ConfigureLink(y1, env, c).1;
    assert y2.kernel == y1.kernel.(link := Some(LinkOf(c)));
    AddRoutesReliable(y2, env, c.allowed);
  }

  /** What a fresh start from nothing leaves, apart from the counts. */
  lemma FreshReliable(s: State, env: Env, c: Config)
    requires Reliable(env) && Idle(s)
    ensures var s0 := s.(sys := Call(s.sys, env, AddInterface(c, !env.hasIp)).1);
      var s1 := AddAll(s0, env, c.excluded);
      var (ok, t) := FreshPath(s, env, c);
      && ok && t.armed && t.signals == s.signals && t.conns == Record(s, c).conns && t.counts == s1.counts
      && t.sys.kernel == Kernel(Some(LinkOf(c)), map[c.serverKey := c], ToSet(c.allowed),
                                s1.sys.kernel.exclusions, ResolversFor(env, c))
  {
    var s0 := s.(sys := Call(s.sys, env, AddInterface(c, !env.hasIp)).1);
    AddAllKernel(s0, env, c.excluded);
    AddAllFrame(s0, env, c.excluded);
    BringUpReliable(Call(AddAll(s0, env, c.excluded).sys, env, UpdatePeer(c)).1, env, c);
    assert {} + ToSet(c.allowed) == ToSet(c.allowed);
  }

  /** A fresh start from nothing settles on the configuration, over a link of its own. */
  lemma FreshSettles(s: State, env: Env, c: Config)
    requires Reliable(env) && Idle(s) && AllPlain(c.excluded)
    ensures var (ok, t) := FreshPath(s, env, c);
      && ok && Settled(t, env, c, LinkOf(c)) && t.armed && t.signals == s.signals
      && t.conns[c.hop].date == None
  {
    FreshReliable(s, env, c);
    var s0 := s.(sys := Call(s.sys, env, AddInterface(c, !env.hasIp)).1);
    AddAllPositive(s0, env, c.excluded);
    AddAllKept(s0, env, c.excluded);
    InstalledIsCounted(AddAll(s0, env, c.excluded), env);
    var t := FreshPath(s, env, c).1;
    forall p ensures Count(t, p) == Occurrences(c.excluded, p) {
      AddAllCounts(s0, env, c.excluded, p);
    }
  }

  lemma QuiesceReliable(s: State, env: Env, b: bool)
    requires Reliable(env) && s.sys.kernel.link.Some? && (!env.hasDns ==> s.sys.kernel.resolvers == [])
    ensures var (ok, t) := Quiesce(s, env, b);
      && ok && t.sys.kernel == s.sys.kernel.(resolvers := [])
      && t == s.(sys := t.sys, signals := if b then s.signals + [Disconnected] else s.signals)
  {
    var hops := LiveHops(s.conns);
    var y := if hops == [] then s.sys else Call(s.sys, env, Hook(Down, s.conns[hops[0]].config)).1;
    assert y.kernel == s.sys.kernel;
    var (ok, z) := Restore(y, env);
    assert ok && z.kernel == y.kernel.(resolvers := []);
  }

  /** Removing peers and their routes changes nothing else. */
  lemma {:induction false} TearDownReliable(y: Sys, env: Env, conns: map<Hop, Conn>, hops: seq<Hop>)
    requires Reliable(env) && forall h <- hops :: h in conns
    ensures var k := TearDown(y, env, conns, hops).kernel; k == y.kernel.(routes := k.routes, peers := k.peers)
    decreases |hops|
  {
    if hops != [] {
      var c := conns[hops[0]].config;
      DropRoutesReliable(y, env, c.allowed, []);
      var z := Call(DropRoutes(y, env, c.allowed, []), env, DeletePeer(c)).1;
      TearDownReliable(z, env, conns, hops[1..]);
    }
  }

  /** Tearing a settled state down leaves nothing. */
  lemma SettledToIdle(s: State, env: Env, c: Config, link: Link, b: bool)
    requires Reliable(env) && Settled(s, env, c, link)
    ensures var (ok, t) := Deactivate(s, env, b);
      ok && Idle(t) && t.signals == (if b then s.signals + [Disconnected] else s.signals) &&
      t.tripped == s.tripped
  {
    QuiesceReliable(s, env, b);
    DismantleReliable(Quiesce(s, env, b).1, env);
  }

  /** Whatever hops are in use, taking everything down leaves nothing. */
  lemma DismantleReliable(t: State, env: Env)
    requires Reliable(env) && t.sys.kernel.resolvers == [] && t.sys.kernel.exclusions == t.counts.Keys
    ensures var (ok, u) := Dismantle(t, env);
      ok && Idle(u) && u.signals == t.signals && u.tripped == t.tripped
  {
    TearDownReliable(t.sys, env, t.conns, LiveHops(t.conns));
    var y := TearDown(t.sys, env, t.conns, LiveHops(t.conns));
    ClearRemoves(y, env, env.order(t.counts.Keys));
    ClearKeepsRest(y, env, env.order(t.counts.Keys));
  }

  lemma {:induction false} ClearKeepsRest(y: Sys, env: Env, ps: seq<Prefix>)
    ensures var k := ClearExclusions(y, env, ps).kernel; k == y.kernel.(exclusions := k.exclusions)
    decreases |ps|
  {
    if ps != [] {
      ClearKeepsRest(Call(y, env, DeleteExclusion(ps[0])).1, env, ps[1..]);
    }
  }

  lemma RewireReliable(y: Sys, env: Env, c: Config)
    requires Reliable(env) && (!env.hasDns ==> y.kernel.resolvers == [])
    ensures var (ok, z) := Rewire(y, env, c); ok && z.kernel == y.kernel.(resolvers := ResolversFor(env, c))
  {
  }

  lemma JoinReliable(s: State, env: Env, d: Config)
    requires Reliable(env)
    ensures var (ok, u) := JoinServer(s, env, d);
      ok && u.sys.kernel == s.sys.kernel.(
        peers := s.sys.kernel.peers[d.serverKey := d], routes := s.sys.kernel.routes + ToSet(d.allowed),
        exclusions := u.sys.kernel.exclusions)
  {
    AddAllKernel(s, env, d.excluded);
    AddRoutesReliable(Call(AddAll(s, env, d.excluded).sys, env, UpdatePeer(d)).1, env, d.allowed);
  }

  lemma LeaveReliable(u: State, env: Env, c: Config, d: Config)
    requires Reliable(env)
    ensures var (ok, w) := LeaveServer(u, env, c, d);
      ok && w.sys.kernel == u.sys.kernel.(
        peers := if d.serverKey == c.serverKey then u.sys.kernel.peers else u.sys.kernel.peers - {c.serverKey},
        routes := u.sys.kernel.routes - Less(c.allowed, d.allowed),
        exclusions := w.sys.kernel.exclusions)
  {
    DelAllKernel(u, env, c.excluded);
    DropRoutesReliable(DelAll(u, env, c.excluded).sys, env, c.allowed, d.allowed);
  }

  /** The counts after leaving are those of the new configuration alone. */
  lemma SwitchCountsReliable(s: State, env: Env, c: Config, d: Config, link: Link)
    requires Reliable(env) && Settled(s, env, c, link)
    ensures var u := JoinServer(s, env, d).1;
      var w := LeaveServer(u, env, c, d).1;
      && u == s.(counts := u.counts, sys := u.sys) && w == u.(counts := w.counts, sys := w.sys)
      && Positive(w) && (forall p :: Count(w, p) == Occurrences(d.excluded, p))
      && w.sys.kernel.exclusions == w.counts.Keys
  {
    InstalledWhenSettled(s, env, c, link);
    assert Dependable(env);
    JoinKept(s, env, d);
    JoinCounts(s, env, d);
    var u := JoinServer(s, env, d).1;
    forall p ensures Count(u, p) == Occurrences(c.excluded, p) + Occurrences(d.excluded, p) {
      assert Count(s, p) == Occurrences(c.excluded, p);
    }
    LeaveKept(u, env, c, d);
    LeaveCounts(u, env, c, d);
    InstalledIsCounted(LeaveServer(u, env, c, d).1, env);
  }

  /** A switch moves a settled state to the new configuration, over the same link. */
  lemma SwitchServerSettles(s: State, env: Env, c: Config, d: Config, link: Link)
    requires Reliable(env) && Settled(s, env, c, link) && d.hop == c.hop
    ensures var (ok, t) := SwitchServer(s, env, d);
      && ok && t.signals == s.signals && t.conns == Record(s, d).conns && t.tripped == s.tripped
      && Positive(t) && (forall p :: Count(t, p) == Occurrences(d.excluded, p))
      && t.sys.kernel == Kernel(Some(link), map[d.serverKey := d], ToSet(d.allowed),
                                t.counts.Keys, s.sys.kernel.resolvers)
  {
    SwitchCountsReliable(s, env, c, d, link);
    JoinReliable(s, env, d);
    var u := JoinServer(s, env, d).1;
    LeaveReliable(u, env, c, d);
    var w := LeaveServer(u, env, c, d).1;
    assert SwitchServer(s, env, d) == (true, Record(w, d));
    var t := Record(w, d);
    forall p ensures Count(t, p) == Occurrences(d.excluded, p) {
      assert Count(w, p) == Occurrences(d.excluded, p);
    }
    MovedKernel(s.sys.kernel, w.sys.kernel, c, d);
  }

  /** The peers and routes after joining one server and leaving the other. */
  lemma MovedKernel(k: Kernel, l: Kernel, c: Config, d: Config)
    requires k.peers == map[c.serverKey := c] && k.routes == ToSet(c.allowed)
    requires var joined := k.peers[d.serverKey := d];
      l.peers == if d.serverKey == c.serverKey then joined else joined - {c.serverKey}
    requires l.routes == k.routes + ToSet(d.allowed) - Less(c.allowed, d.allowed)
    ensures l.peers == map[d.serverKey := d] && l.routes == ToSet(d.allowed)
  {
  }

  lemma InstalledWhenSettled(s: State, env: Env, c: Config, link: Link)
    requires Settled(s, env, c, link)
    ensures Kept(s, env)
  {
  }

  lemma SwitchSettles(s: State, env: Env, c: Config, d: Config, link: Link)
    requires Reliable(env) && Settled(s, env, c, link)
    requires d.hop == c.hop && AllPlain(d.excluded) && SupportsSwitch(s.conns, d)
    ensures var (ok, t) := Activate(s, env, d);
      && ok && Settled(t, env, d, link) && t.armed && t.signals == s.signals
      && t.conns[d.hop].date == None
  {
    SwitchServerSettles(s, env, c, d, link);
    var u := SwitchServer(s, env, d).1;
    RewireReliable(u.sys, env, d);
    var t := Activate(s, env, d).1;
    assert t.counts == u.counts;
    forall p ensures Count(t, p) == Occurrences(d.excluded, p) {
      assert Count(u, p) == Occurrences(d.excluded, p);
    }
    assert t.conns.Keys == {d.hop};
  }

  /** What a client of the daemon can observe, apart from the link. */
  predicate SameBut(s: State, t: State) {
    && s.conns.Keys == t.conns.Keys
    && (forall h <- s.conns :: s.conns[h].config == t.conns[h].config && s.conns[h].date == t.conns[h].date)
    && s.counts == t.counts && s.armed == t.armed && s.signals == t.signals
    && s.sys.kernel == t.sys.kernel.(link := s.sys.kernel.link)
  }

  /** Two settled states of one configuration differ in the link at most. */
  lemma SettledIsUnique(a: State, b: State, env: Env, d: Config, link: Link, other: Link)
    requires Settled(a, env, d, link) && Settled(b, env, d, other)
    requires a.conns[d.hop].date == b.conns[d.hop].date && a.armed == b.armed && a.signals == b.signals
    ensures SameBut(a, b)
  {
    forall p ensures Count(a, p) == Count(b, p) {
      assert Count(a, p) == Occurrences(d.excluded, p) == Count(b, p);
    }
    CountsDetermined(a, b);
  }

  /**
    Switching in place refines a restart: for every old and new configuration
    the two paths both succeed and agree on connections, counts, peers, routes,
    exclusions, resolvers, timer and signals. They agree on the interface too
    exactly when its MTU and junk-packet parameters are those the new
    configuration asks for.
  */
  lemma SwitchRefinesRestart(s: State, env: Env, c: Config, d: Config, link: Link)
    requires Reliable(env) && Settled(s, env, c, link)
    requires d.hop == c.hop && AllPlain(d.excluded) && SupportsSwitch(s.conns, d)
    ensures var (ok1, switched) := Activate(s, env, d);
      var (ok2, down) := Deactivate(s, env, false);
      var (ok3, restarted) := Activate(down, env, d);
      && ok1 && ok2 && ok3
      && SameBut(switched, restarted)
      && (switched.sys.kernel.link == restarted.sys.kernel.link <==> link.mtu == d.mtu && link.junk == d.junk)
  {
    SwitchSettles(s, env, c, d, link);
    SettledToIdle(s, env, c, link, false);
    var down := Deactivate(s, env, false).1;
    FreshSettles(down, env, d);
    var a, b := Activate(s, env, d).1, Activate(down, env, d).1;
    assert b == FreshPath(down, env, d).1;
    SettledIsUnique(a, b, env, d, link, LinkOf(d));
  }

  /** A run that keeps the old MTU and junk packets, where a restart applies the new ones. */
  lemma SwitchKeepsOldLink(env: Env, c: Config, mtu: int, junk: seq<string>)
    requires Reliable(env) && AllPlain(c.excluded)
    ensures var d := c.(mtu := mtu, junk := junk);
      var switched := Run(Initial(), env, [ActivateRequest(c), ActivateRequest(d)]);
      var restarted := Run(Initial(), env, [ActivateRequest(c), DeactivateRequest(false), ActivateRequest(d)]);
      && d.hop in switched.conns && d.hop in restarted.conns
      && switched.conns[d.hop].config == restarted.conns[d.hop].config == d
      && switched.sys.kernel.link == Some(LinkOf(c)) && restarted.sys.kernel.link == Some(LinkOf(d))
  {
    var d := c.(mtu := mtu, junk := junk);
    FreshSettles(Initial(), env, c);
    var s := Activate(Initial(), env, c).1;
    SwitchSettles(s, env, c, d, LinkOf(c));
    SettledToIdle(s, env, c, LinkOf(c), false);
    FreshSettles(Deactivate(s, env, false).1, env, d);
    RunTwo(env, ActivateRequest(c), ActivateRequest(d));
    RunThree(env, ActivateRequest(c), DeactivateRequest(false), ActivateRequest(d));
  }

  lemma SubnetActivated(env: Env, c: Config, e: Excluded)
    requires Reliable(env) && c.excluded == [e]
    ensures var s := Activate(Initial(), env, c).1;
      && s.conns == map[c.hop := Conn(c, None, 0)] && s.counts == map[AddKey(e) := 1]
      && s.sys.kernel.exclusions == {AddKey(e)} && !s.tripped
  {
    var s0 := Initial().(sys := Call(Initial().sys, env, AddInterface(c, !env.hasIp)).1);
    assert [e][1..] == [];
    var s1 := AddOne(s0, env, AddKey(e));
    assert AddAll(s0, env, [e]) == s1;
    BringUpReliable(Call(s1.sys, env, UpdatePeer(c)).1, env, c);
  }

  lemma SubnetLeft(s: State, env: Env, c: Config, e: Excluded, d: Config)
    requires Reliable(env) && c.excluded == [e] && DelKey(e) != AddKey(e) && d == c.(excluded := [])
    requires c.hop in s.conns && s.conns[c.hop].config == c && s.counts == map[AddKey(e) := 1]
    requires s.sys.kernel.exclusions == {AddKey(e)}
    ensures var (ok, t) := SwitchServer(s, env, d);
      && ok && t.conns == Record(s, d).conns && t.counts == s.counts
      && t.sys.kernel.exclusions == {AddKey(e)} && t.tripped
  {
    var u := JoinServer(s, env, d).1;
    RoutesKeepExclusions(Call(s.sys, env, UpdatePeer(d)).1, env, d.allowed, []);
    assert u == s.(sys := u.sys) && u.sys.kernel.exclusions == {AddKey(e)};
    assert [e][1..] == [];
    var v := DelOne(u, env, DelKey(e));
    assert DelAll(u, env, [e]) == v && v.counts == s.counts && v.tripped;
    RoutesKeepExclusions(v.sys, env, c.allowed, d.allowed);
    var w := LeaveServer(u, env, c, d).1;
    assert SwitchServer(s, env, d) == (true, Record(w, d));
  }

  /**
    A run that leaves a subnet excluded: the server that asked for it is
    replaced by one that excludes nothing, yet its route and count remain.
  */
  lemma SubnetOutlivesSwitch(env: Env, c: Config, bits: nat, len: nat)
    requires Reliable(env) && c.excluded == [Subnet(V4(bits), len)]
    ensures var d := c.(excluded := []);
      var p := AddKey(Subnet(V4(bits), len));
      var t := Run(Initial(), env, [ActivateRequest(c), ActivateRequest(d)]);
      && d.hop in t.conns && t.conns[d.hop].config == d
      && t.counts == map[p := 1] && t.sys.kernel.exclusions == {p} && t.tripped
  {
    var d := c.(excluded := []);
    SubnetActivated(env, c, Subnet(V4(bits), len));
    var s := Activate(Initial(), env, c).1;
    SubnetLeft(s, env, c, Subnet(V4(bits), len), d);
    RewireKeepsExclusions(SwitchServer(s, env, d).1.sys, env, d);
    assert Activate(s, env, d) == Guarded(SwitchPath(s, env, d));
    RunTwo(env, ActivateRequest(c), ActivateRequest(d));
  }

  // ----- Settled states are the reachable ones -----

  /** One configuration runs alone over some link. */
  ghost predicate Alone(s: State, env: Env, h: Hop)
    requires h in s.conns
  {
    exists link :: Settled(s, env, s.conns[h].config, link)
  }

  /** Nothing runs, or something runs over an interface; what runs alone has settled. */
  ghost predicate AtRest(s: State, env: Env) {
    && Kept(s, env)
    && (Idle(s) || (
      && s.conns != map[] && s.sys.kernel.link.Some? && (!env.hasDns ==> s.sys.kernel.resolvers == [])
      && forall h <- s.conns :: s.conns.Keys == {h} ==> Alone(s, env, h)))
  }

  lemma SettledAtRest(s: State, env: Env, c: Config, link: Link)
    requires Settled(s, env, c, link)
    ensures AtRest(s, env)
  {
    InstalledWhenSettled(s, env, c, link);
    forall h <- s.conns ensures Alone(s, env, h) {
      assert h == c.hop;
    }
  }

  lemma IdleAtRest(s: State, env: Env)
    requires Idle(s)
    ensures AtRest(s, env)
  {
  }

  /** Polling keeps everything but dates, signals and the timer. */
  lemma PollAtRest(s: State, env: Env, peers: seq<PeerStatus>)
    requires AtRest(s, env)
    ensures AtRest(CheckHandshake(s, peers), env)
  {
    var s0 := s.(armed := false);
    PollKeepsCounts(s0, peers, LiveHops(s.conns));
    PollKeepsConfigs(s0, peers, LiveHops(s.conns));
    var t := CheckHandshake(s, peers);
    forall h <- t.conns | t.conns.Keys == {h} && !Idle(s) ensures Alone(t, env, h) {
      var c := s.conns[h].config;
      assert Alone(s, env, h);
      var link :| Settled(s, env, c, link);
      forall p ensures Count(t, p) == Occurrences(c.excluded, p) {
        assert Count(s, p) == Occurrences(c.excluded, p);
      }
      assert Settled(t, env, c, link);
    }
  }

  lemma DeactivateAtRest(s: State, env: Env, b: bool)
    requires Reliable(env) && AtRest(s, env)
    ensures var (ok, t) := Deactivate(s, env, b); Idle(t) && (ok <==> !Idle(s))
  {
    if Idle(s) {
      assert LiveHops(s.conns) == [];
    } else {
      InstalledIsCounted(s, env);
      QuiesceReliable(s, env, b);
      DismantleReliable(Quiesce(s, env, b).1, env);
    }
  }

  lemma BringUpOverLink(y: Sys, env: Env, d: Config)
    requires Reliable(env) && y.kernel.link.Some?
    ensures var (ok, z) := BringUp(y, env, d);
      ok && z.kernel.link.Some? && (!env.hasDns ==> z.kernel.resolvers == y.kernel.resolvers)
  {
    var y1 := UpdateResolvers(y, env, d).1;
    AddRoutesReliable(ConfigureLink(y1, env, d).1, env, d.allowed);
  }

  lemma FreshOverLink(s: State, env: Env, d: Config)
    requires Reliable(env) && s.sys.kernel.link.Some?
    ensures var (ok, t) := FreshPath(s, env, d);
      && ok && t.conns.Keys == s.conns.Keys + {d.hop} && t.sys.kernel.link.Some?
      && (!env.hasDns ==> t.sys.kernel.resolvers == s.sys.kernel.resolvers)
  {
    AddAllKernel(s, env, d.excluded);
    AddAllFrame(s, env, d.excluded);
    BringUpOverLink(Call(AddAll(s, env, d.excluded).sys, env, UpdatePeer(d)).1, env, d);
  }

  /** A second hop joins over the interface that is there. */
  lemma JoinsAtRest(s: State, env: Env, d: Config)
    requires Reliable(env) && AtRest(s, env) && !Idle(s) && d.hop !in s.conns
    ensures AtRest(Activate(s, env, d).1, env)
  {
    FreshKept(s, env, d);
    FreshOverLink(s, env, d);
    var t := FreshPath(s, env, d).1;
    assert Activate(s, env, d) == (true, t);
    TwoHops(s.conns, t.conns, d.hop);
  }

  lemma TwoHops(a: map<Hop, Conn>, b: map<Hop, Conn>, h: Hop)
    requires a != map[] && h !in a && b.Keys == a.Keys + {h}
    ensures forall g :: b.Keys != {g}
  {
    var x :| x in a;
    assert x in b && h in b && x != h;
  }

  /** One of several hops moves to another server. */
  lemma SwitchAtRest(s: State, env: Env, d: Config)
    requires Reliable(env) && AtRest(s, env) && SupportsSwitch(s.conns, d) && s.conns.Keys != {d.hop}
    ensures AtRest(Activate(s, env, d).1, env)
  {
    SwitchKept(s, env, d);
    JoinReliable(s, env, d);
    var u := JoinServer(s, env, d).1;
    AddAllFrame(s, env, d.excluded);
    LeaveReliable(u, env, s.conns[d.hop].config, d);
    DelAllConns(u, env, s.conns[d.hop].config.excluded);
    var w := SwitchServer(s, env, d).1;
    RewireReliable(w.sys, env, d);
    assert Activate(s, env, d).1.conns.Keys == s.conns.Keys;
  }

  lemma {:induction false} DelAllConns(s: State, env: Env, es: seq<Excluded>)
    ensures DelAll(s, env, es).conns == s.conns
    decreases |es|
  {
    if es != [] {
      DelAllConns(DelOne(s, env, DelKey(es[0])), env, es[1..]);
    }
  }

  lemma ActivateAtRest(s: State, env: Env, d: Config)
    requires Reliable(env) && AtRest(s, env) && AllPlain(d.excluded)
    ensures AtRest(Activate(s, env, d).1, env)
  {
    var t := Activate(s, env, d).1;
    if Idle(s) {
      FreshSettles(s, env, d);
      SettledAtRest(t, env, d, LinkOf(d));
    } else if d.hop !in s.conns {
      JoinsAtRest(s, env, d);
    } else if !SupportsSwitch(s.conns, d) {
      DeactivateAtRest(s, env, false);
      RestartIsFresh(s, env, d);
      FreshSettles(Deactivate(s, env, false).1, env, d);
      SettledAtRest(t, env, d, LinkOf(d));
    } else if s.conns.Keys == {d.hop} {
      assert Alone(s, env, d.hop);
      var c := s.conns[d.hop].config;
      var link :| Settled(s, env, c, link);
      SwitchSettles(s, env, c, d, link);
      SettledAtRest(t, env, d, link);
    } else {
      SwitchAtRest(s, env, d);
    }
  }

  /**
    While calls succeed, every run with plain exclusions, over any hops, is
    always at rest: a state with one hop in use is settled, so the refinement
    above applies to it, and a deactivation leaves nothing.
  */
  lemma {:induction false} RunAtRest(env: Env, es: seq<Event>)
    requires Reliable(env) && forall e <- es :: PlainEvent(e)
    ensures var s := Run(Initial(), env, es);
      AtRest(s, env) && forall b :: Idle(Deactivate(s, env, b).1)
  {
    if es == [] {
      IdleAtRest(Initial(), env);
    } else {
      var s := Run(Initial(), env, es[..|es| - 1]);
      RunAtRest(env, es[..|es| - 1]);
      assert es[|es| - 1] in es;
      match es[|es| - 1] {
        case ActivateRequest(c) => ActivateAtRest(s, env, c);
        case DeactivateRequest(b) =>
          DeactivateAtRest(s, env, b);
          IdleAtRest(Deactivate(s, env, b).1, env);
        case TimerFires(peers) =>
          if s.armed {
            PollAtRest(s, env, peers);
          }
      }
    }
    var t := Run(Initial(), env, es);
    forall b ensures Idle(Deactivate(t, env, b).1) {
      DeactivateAtRest(t, env, b);
    }
  }

  /** In such a state, whatever fails from then on, a switch never lets go of what the servers share. */
  lemma SettledSwitchKeepsShared(s: State, env: Env, c: Config, link: Link, later: Env, d: Config)
    requires Settled(s, env, c, link) && d.hop == c.hop
    ensures DaemonSwitch.Holds(SwitchServer(s, later, d).1.sys, |s.sys.history|,
                               DaemonSwitch.SharedExclusions(c, d), DaemonSwitch.SharedRoutes(c, d))
  {
    var ps, rs := DaemonSwitch.SharedExclusions(c, d), DaemonSwitch.SharedRoutes(c, d);
    forall p <- ps ensures p in s.counts && DaemonSwitch.Survives(s, d, p) {
      DaemonSwitch.OccurrencesPositive(c.excluded, p);
      DaemonSwitch.OccurrencesPositive(d.excluded, p);
      DaemonSwitch.NowhereNotAdded(c.excluded);
      DaemonSwitch.RemovalsAtMost(c.excluded, p);
      assert Count(s, p) == Occurrences(c.excluded, p);
    }
    InstalledWhenSettled(s, env, c, link);
    DaemonSwitch.SwitchHolds(s, later, d, ps, rs);
  }
}

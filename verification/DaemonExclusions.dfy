/**
  Reference counting of exclusion routes over whole runs of the daemon: the
  bookkeeping never loses a route and never counts too few.
*/
module DaemonExclusions {
  import opened Net
  import opened Daemon

  // ----- Under arbitrary failures -----

  /** Every counted prefix has a positive count and is installed. */
  predicate Backed(s: State) {
    forall p <- s.counts :: s.counts[p] >= 1 && p in s.sys.kernel.exclusions
  }

  /** Nothing else is installed. */
  predicate Tight(s: State) {
    s.sys.kernel.exclusions <= s.counts.Keys
  }

  /** Deletions succeed, and an addition that reports failure leaves nothing behind. */
  ghost predicate CleanExclusions(env: Env) {
    && Enumerates(env)
    && (forall n, p :: env.outcome(n, DeleteExclusion(p)) == Ok)
    && (forall n, p :: env.outcome(n, AddExclusion(p)) != Fail(true))
  }

  ghost predicate Kept(s: State, env: Env) {
    Backed(s) && (CleanExclusions(env) ==> Tight(s))
  }

  /** Two states with the same counts and the same installed exclusions. */
  predicate SameExclusions(s: State, t: State) {
    s.counts == t.counts && s.sys.kernel.exclusions == t.sys.kernel.exclusions
  }

  /** Calls other than those on exclusion routes leave the installed set alone. */
  lemma RoutesKeepExclusions(y: Sys, env: Env, ps: seq<Prefix>, keep: seq<Prefix>)
    ensures AddRoutes(y, env, ps).1.kernel.exclusions == y.kernel.exclusions
    ensures DropRoutes(y, env, ps, keep).kernel.exclusions == y.kernel.exclusions
    decreases |ps|
  {
    if ps != [] {
      RoutesKeepExclusions(Call(y, env, AddRoute(ps[0])).1, env, ps[1..], keep);
      RoutesKeepExclusions(y, env, ps[1..], keep);
      RoutesKeepExclusions(Call(y, env, DeleteRoute(ps[0])).1, env, ps[1..], keep);
    }
  }

  lemma TearDownKeepsExclusions(y: Sys, env: Env, conns: map<Hop, Conn>, hops: seq<Hop>)
    requires forall h <- hops :: h in conns
    ensures TearDown(y, env, conns, hops).kernel.exclusions == y.kernel.exclusions
    decreases |hops|
  {
    if hops != [] {
      var c := conns[hops[0]].config;
      RoutesKeepExclusions(y, env, c.allowed, []);
      var z := Call(DropRoutes(y, env, c.allowed, []), env, DeletePeer(c)).1;
      TearDownKeepsExclusions(z, env, conns, hops[1..]);
    }
  }

  lemma BringUpKeepsExclusions(y: Sys, env: Env, c: Config)
    ensures BringUp(y, env, c).1.kernel.exclusions == y.kernel.exclusions
  {
    var y1 := UpdateResolvers(y, env, c).1;
    assert y1.kernel.exclusions == y.kernel.exclusions;
    var y2 := ConfigureLink(y1, env, c).1;
    assert y2.kernel.exclusions == y1.kernel.exclusions;
    RoutesKeepExclusions(y2, env, c.allowed, []);
  }

  lemma ClearRemoves(y: Sys, env: Env, ps: seq<Prefix>)
    requires forall n, p :: env.outcome(n, DeleteExclusion(p)) == Ok
    ensures ClearExclusions(y, env, ps).kernel.exclusions == y.kernel.exclusions - (set p | p in ps)
    decreases |ps|
  {
    if ps != [] {
      var z := Call(y, env, DeleteExclusion(ps[0])).1;
      ClearRemoves(z, env, ps[1..]);
      assert ps == [ps[0]] + ps[1..];
    }
  }

  lemma {:induction false} AddAllKept(s: State, env: Env, es: seq<Excluded>)
    requires Kept(s, env)
    ensures Kept(AddAll(s, env, es), env)
    decreases |es|
  {
    if es != [] {
      AddAllKept(AddOne(s, env, AddKey(es[0])), env, es[1..]);
    }
  }

  lemma {:induction false} DelAllKept(s: State, env: Env, es: seq<Excluded>)
    requires Kept(s, env)
    ensures Kept(DelAll(s, env, es), env)
    decreases |es|
  {
    if es != [] {
      DelAllKept(DelOne(s, env, DelKey(es[0])), env, es[1..]);
    }
  }

  lemma DismantleKept(s: State, env: Env)
    requires Kept(s, env)
    ensures Kept(Dismantle(s, env).1, env)
  {
    TearDownKeepsExclusions(s.sys, env, s.conns, LiveHops(s.conns));
    if CleanExclusions(env) {
      ClearRemoves(TearDown(s.sys, env, s.conns, LiveHops(s.conns)), env, env.order(s.counts.Keys));
    }
  }

  lemma QuiesceKeepsExclusions(s: State, env: Env, b: bool)
    ensures SameExclusions(s, Quiesce(s, env, b).1)
  {
    var hops := LiveHops(s.conns);
    var y := if hops == [] then s.sys else Call(s.sys, env, Hook(Down, s.conns[hops[0]].config)).1;
    assert y.kernel == s.sys.kernel && Restore(y, env).1.kernel.exclusions == y.kernel.exclusions;
  }

  lemma DeactivateKept(s: State, env: Env, b: bool)
    requires Kept(s, env)
    ensures Kept(Deactivate(s, env, b).1, env)
  {
    QuiesceKeepsExclusions(s, env, b);
    DismantleKept(Quiesce(s, env, b).1, env);
  }

  lemma JoinKept(s: State, env: Env, c: Config)
    requires Kept(s, env)
    ensures Kept(JoinServer(s, env, c).1, env)
  {
    AddAllKept(s, env, c.excluded);
    var s1 := AddAll(s, env, c.excluded);
    RoutesKeepExclusions(Call(s1.sys, env, UpdatePeer(c)).1, env, c.allowed, []);
    assert SameExclusions(s1, JoinServer(s, env, c).1);
  }

  lemma LeaveKept(s: State, env: Env, last: Config, c: Config)
    requires Kept(s, env)
    ensures Kept(LeaveServer(s, env, last, c).1, env)
  {
    DelAllKept(s, env, last.excluded);
    var s1 := DelAll(s, env, last.excluded);
    RoutesKeepExclusions(s1.sys, env, last.allowed, c.allowed);
    assert SameExclusions(s1, LeaveServer(s, env, last, c).1);
  }

  lemma RewireKeepsExclusions(y: Sys, env: Env, c: Config)
    ensures Rewire(y, env, c).1.kernel.exclusions == y.kernel.exclusions
  {
  }

  lemma SwitchServerKept(s: State, env: Env, c: Config)
    requires Kept(s, env) && c.hop in s.conns
    ensures Kept(SwitchServer(s, env, c).1, env)
  {
    var last := s.conns[c.hop].config;
    JoinKept(s, env, c);
    var (ok, t) := JoinServer(s, env, c);
    if ok {
      LeaveKept(t, env, last, c);
      assert SameExclusions(LeaveServer(t, env, last, c).1, SwitchServer(s, env, c).1);
    }
  }

  lemma SwitchKept(s: State, env: Env, c: Config)
    requires Kept(s, env) && c.hop in s.conns
    ensures Kept(SwitchPath(s, env, c).1, env)
  {
    SwitchServerKept(s, env, c);
    var t := SwitchServer(s, env, c).1;
    RewireKeepsExclusions(t.sys, env, c);
    assert SameExclusions(t, SwitchPath(s, env, c).1);
  }

  lemma FreshKept(s: State, env: Env, c: Config)
    requires Kept(s, env)
    ensures Kept(FreshPath(s, env, c).1, env)
  {
    var y0 := if s.sys.kernel.link.None? then Call(s.sys, env, AddInterface(c, !env.hasIp)).1 else s.sys;
    var s0 := s.(sys := y0);
    assert SameExclusions(s, s0);
    AddAllKept(s0, env, c.excluded);
    var s1 := AddAll(s0, env, c.excluded);
    BringUpKeepsExclusions(Call(s1.sys, env, UpdatePeer(c)).1, env, c);
    var r := FreshPath(s, env, c).1;
    assert SameExclusions(s0, r) || SameExclusions(s1, r);
  }

  lemma GuardedKept(r: (bool, State), env: Env)
    requires Kept(r.1, env)
    ensures Kept(Guarded(r).1, env)
  {
  }

  lemma RestartKept(s: State, env: Env, c: Config)
    requires Kept(s, env) && c.hop in s.conns && !SupportsSwitch(s.conns, c)
    ensures Kept(Activate(s, env, c).1, env)
  {
    RestartIsFresh(s, env, c);
    DeactivateKept(s, env, false);
    var (ok, t) := Deactivate(s, env, false);
    if ok {
      FreshKept(t, env, c);
      GuardedKept(FreshPath(t, env, c), env);
      GuardedKept(Guarded(FreshPath(t, env, c)), env);
    } else {
      GuardedKept((false, t), env);
    }
  }

  lemma ActivateKept(s: State, env: Env, c: Config)
    requires Kept(s, env)
    ensures Kept(Activate(s, env, c).1, env)
  {
    if c.hop !in s.conns {
      FreshKept(s, env, c);
      GuardedKept(FreshPath(s, env, c), env);
    } else if SupportsSwitch(s.conns, c) {
      SwitchKept(s, env, c);
      GuardedKept(SwitchPath(s, env, c), env);
    } else {
      RestartKept(s, env, c);
    }
  }

  lemma {:induction false} PollKeepsCounts(s: State, peers: seq<PeerStatus>, hops: seq<Hop>)
    requires forall h <- hops :: h in s.conns
    ensures var t := PollHops(s, peers, hops);
      t.counts == s.counts && t.sys == s.sys && t.tripped == s.tripped && t.recorded == s.recorded &&
      (ActivationFailure in t.signals <==> ActivationFailure in s.signals)
    decreases |hops|
  {
    if hops != [] {
      AbsorbKeeps(s.conns[hops[0]], s.signals, peers);
      var (k, gs) := PollConn(s.conns[hops[0]], s.signals, peers);
      PollKeepsCounts(s.(conns := s.conns[hops[0] := k], signals := gs, armed := s.armed || k.date.None?),
                      peers, hops[1..]);
    }
  }

  lemma {:induction false} PollKeepsConfigs(s: State, peers: seq<PeerStatus>, hops: seq<Hop>)
    requires forall h <- hops :: h in s.conns
    ensures var t := PollHops(s, peers, hops);
      t.conns.Keys == s.conns.Keys && forall h <- s.conns :: t.conns[h].config == s.conns[h].config
    decreases |hops|
  {
    if hops != [] {
      AbsorbKeeps(s.conns[hops[0]], s.signals, peers);
      var (k, gs) := PollConn(s.conns[hops[0]], s.signals, peers);
      PollKeepsConfigs(s.(conns := s.conns[hops[0] := k], signals := gs, armed := s.armed || k.date.None?),
                       peers, hops[1..]);
    }
  }

  lemma {:induction false} AbsorbKeeps(k: Conn, gs: seq<Signal>, peers: seq<PeerStatus>)
    ensures var (k', gs') := Absorb(k, gs, peers);
      k' == k.(date := k'.date) && (ActivationFailure in gs' <==> ActivationFailure in gs)
    decreases |peers|
  {
    if peers != [] {
      if peers[0].key == k.config.serverKey && peers[0].handshake != 0 {
        AbsorbKeeps(k.(date := Some(peers[0].handshake)), gs + [Connected(k.serial, peers[0].key)], peers[1..]);
      } else {
        AbsorbKeeps(k, gs, peers[1..]);
      }
    }
  }

  /**
    Bookkeeping under arbitrary failures: whatever the system answers, after
    every run each counted prefix is installed and counted at least once; and
    the two sets are equal when deletions succeed.
  */
  lemma {:induction false} RunBacked(env: Env, es: seq<Event>)
    ensures Backed(Run(Initial(), env, es))
    ensures CleanExclusions(env) ==> Tight(Run(Initial(), env, es))
  {
    if es != [] {
      var s := Run(Initial(), env, es[..|es| - 1]);
      RunBacked(env, es[..|es| - 1]);
      match es[|es| - 1] {
        case ActivateRequest(c) => ActivateKept(s, env, c);
        case DeactivateRequest(b) => DeactivateKept(s, env, b);
        case TimerFires(peers) => PollKeepsCounts(s.(armed := false), peers, LiveHops(s.conns));
      }
    }
  }

  // ----- Counts against live connections -----

  function Occurrences(es: seq<Excluded>, p: Prefix): nat {
    if es == [] then 0 else (if AddKey(es[0]) == p then 1 else 0) + Occurrences(es[1..], p)
  }

  function OccurrencesAt(conns: map<Hop, Conn>, h: Hop, p: Prefix): nat {
    if h in conns then Occurrences(conns[h].config.excluded, p) else 0
  }

  /** How often live connections ask for a prefix to be excluded. */
  function Total(conns: map<Hop, Conn>, p: Prefix): nat {
    OccurrencesAt(conns, SingleHop, p) + OccurrencesAt(conns, MultiHopEntry, p) + OccurrencesAt(conns, MultiHopExit, p)
  }

  function Count(s: State, p: Prefix): int {
    if p in s.counts then s.counts[p] else 0
  }

  /** Route additions, peer deletion and interface deletion succeed. */
  ghost predicate Dependable(env: Env) {
    && (forall n, p :: env.outcome(n, AddExclusion(p)) == Ok)
    && (forall n, c :: env.outcome(n, DeletePeer(c)) == Ok)
    && (forall n :: env.outcome(n, DeleteInterface) == Ok)
  }

  predicate PlainConns(conns: map<Hop, Conn>) {
    forall h <- conns :: AllPlain(conns[h].config.excluded)
  }

  /** Never too few; exact as long as no activation has failed; no assertion has failed. */
  ghost predicate Counted(s: State) {
    && !s.tripped
    && PlainConns(s.conns)
    && (forall p :: Count(s, p) >= Total(s.conns, p))
    && (ActivationFailure !in s.signals ==> forall p :: Count(s, p) == Total(s.conns, p))
  }

  lemma {:induction false} AddAllCounts(s: State, env: Env, es: seq<Excluded>, p: Prefix)
    requires forall n, q :: env.outcome(n, AddExclusion(q)) == Ok
    ensures Count(AddAll(s, env, es), p) == Count(s, p) + Occurrences(es, p)
    decreases |es|
  {
    if es != [] {
      AddAllCounts(AddOne(s, env, AddKey(es[0])), env, es[1..], p);
    }
  }

  lemma {:induction false} AddAllFrame(s: State, env: Env, es: seq<Excluded>)
    ensures var t := AddAll(s, env, es);
      t == s.(counts := t.counts, sys := t.sys)
    decreases |es|
  {
    if es != [] {
      AddAllFrame(AddOne(s, env, AddKey(es[0])), env, es[1..]);
    }
  }

  /** Removing as often as was added takes the counts back down and trips nothing. */
  lemma {:induction false} DelAllCounts(s: State, env: Env, es: seq<Excluded>)
    requires AllPlain(es) && Positive(s)
    requires forall p :: Count(s, p) >= Occurrences(es, p)
    ensures var t := DelAll(s, env, es);
      t == s.(counts := t.counts, sys := t.sys) &&
      forall p :: Count(t, p) == Count(s, p) - Occurrences(es, p)
    decreases |es|
  {
    if es != [] {
      var k := DelKey(es[0]);
      assert Plain(es[0]);
      assert Count(s, k) >= Occurrences(es, k) >= 1;
      var t := DelOne(s, env, k);
      forall p ensures Count(t, p) == Count(s, p) - (if p == k then 1 else 0) &&
                       Count(t, p) >= Occurrences(es[1..], p) {
        assert Count(s, p) >= Occurrences(es, p);
      }
      DelAllCounts(t, env, es[1..]);
    }
  }

  predicate Positive(s: State) {
    forall p <- s.counts :: s.counts[p] >= 1
  }

  lemma {:induction false} AddAllPositive(s: State, env: Env, es: seq<Excluded>)
    requires Positive(s)
    ensures Positive(AddAll(s, env, es))
    decreases |es|
  {
    if es != [] {
      AddAllPositive(AddOne(s, env, AddKey(es[0])), env, es[1..]);
    }
  }

  lemma TotalAfterRecord(s: State, c: Config, p: Prefix)
    ensures Total(Record(s, c).conns, p) ==
            Total(s.conns, p) - OccurrencesAt(s.conns, c.hop, p) + Occurrences(c.excluded, p)
  {
    var t := Record(s, c);
    forall h ensures OccurrencesAt(t.conns, h, p) ==
      if h == c.hop then Occurrences(c.excluded, p) else OccurrencesAt(s.conns, h, p) {
    }
  }

  /** Joining raises every count by what the new server asks for. */
  lemma JoinCounts(s: State, env: Env, c: Config)
    requires Dependable(env) && Positive(s)
    ensures var t := JoinServer(s, env, c).1;
      t == s.(counts := t.counts, sys := t.sys) && Positive(t) &&
      forall p :: Count(t, p) == Count(s, p) + Occurrences(c.excluded, p)
  {
    var s1 := AddAll(s, env, c.excluded);
    AddAllFrame(s, env, c.excluded);
    AddAllPositive(s, env, c.excluded);
    assert JoinServer(s, env, c).1.counts == s1.counts;
    forall p ensures Count(s1, p) == Count(s, p) + Occurrences(c.excluded, p) {
      AddAllCounts(s, env, c.excluded, p);
    }
  }

  /** Leaving lowers every count by what the old server asked for. */
  lemma LeaveCounts(s: State, env: Env, last: Config, c: Config)
    requires Dependable(env) && Positive(s) && AllPlain(last.excluded)
    requires forall p :: Count(s, p) >= Occurrences(last.excluded, p)
    ensures var (ok, t) := LeaveServer(s, env, last, c);
      ok && t == s.(counts := t.counts, sys := t.sys) &&
      forall p :: Count(t, p) == Count(s, p) - Occurrences(last.excluded, p)
  {
    DelAllCounts(s, env, last.excluded);
    var s1 := DelAll(s, env, last.excluded);
    assert LeaveServer(s, env, last, c).1.counts == s1.counts;
  }

  /** What a switch does to connections and counts. */
  lemma SwitchCounts(s: State, env: Env, c: Config)
    requires Dependable(env) && Positive(s) && Counted(s) && c.hop in s.conns
    ensures var (ok, t) := SwitchServer(s, env, c);
      && t.signals == s.signals && !t.tripped
      && t.conns == (if ok then Record(s, c).conns else s.conns)
      && t.recorded == (if ok then Record(s, c).recorded else s.recorded)
      && forall p :: Count(t, p) == Count(s, p) + Occurrences(c.excluded, p)
                     - (if ok then OccurrencesAt(s.conns, c.hop, p) else 0)
  {
    JoinCounts(s, env, c);
    var (ok, t) := JoinServer(s, env, c);
    var last := s.conns[c.hop].config;
    if ok {
      forall p ensures Count(t, p) >= Occurrences(last.excluded, p) {
        assert Count(s, p) >= Total(s.conns, p);
        assert c.hop == SingleHop || c.hop == MultiHopEntry || c.hop == MultiHopExit;
      }
      LeaveCounts(t, env, last, c);
    }
  }

  /** `Counted` from how the counts and the live requests moved. */
  lemma CountedFrom(s: State, t: State, up: bool)
    requires Counted(s) && !t.tripped && PlainConns(t.conns)
    requires forall p :: Count(t, p) - Total(t.conns, p) >= Count(s, p) - Total(s.conns, p)
    requires up ==> forall p :: Count(t, p) - Total(t.conns, p) == Count(s, p) - Total(s.conns, p)
    requires ActivationFailure !in t.signals ==> up && ActivationFailure !in s.signals
    ensures Counted(t)
  {
  }

  /** Recording the same configuration again changes no request. */
  lemma RewiredCounted(t: State, env: Env, c: Config)
    requires Counted(t) && c.hop in t.conns && t.conns[c.hop].config == c
    ensures var (ok, y) := Rewire(t.sys, env, c);
      Counted(Guarded((ok, if ok then Establish(t.(sys := y), c) else t.(sys := y))).1)
  {
    var (ok, y) := Rewire(t.sys, env, c);
    var r := Guarded((ok, if ok then Establish(t.(sys := y), c) else t.(sys := y))).1;
    forall p ensures Count(r, p) == Count(t, p) && Total(r.conns, p) == Total(t.conns, p) {
      TotalAfterRecord(t, c, p);
      assert c.hop == SingleHop || c.hop == MultiHopEntry || c.hop == MultiHopExit;
    }
    CountedFrom(t, r, true);
  }

  lemma SwitchPathCounted(s: State, env: Env, c: Config)
    requires Dependable(env) && Positive(s) && Counted(s) && c.hop in s.conns && AllPlain(c.excluded)
    ensures Counted(Guarded(SwitchPath(s, env, c)).1)
  {
    SwitchCounts(s, env, c);
    var (ok, t) := SwitchServer(s, env, c);
    forall p ensures Count(t, p) - Total(t.conns, p) == Count(s, p) - Total(s.conns, p) +
                     (if ok then 0 else Occurrences(c.excluded, p)) {
      TotalAfterRecord(s, c, p);
    }
    if ok {
      CountedFrom(s, t, true);
      RewiredCounted(t, env, c);
    } else {
      CountedFrom(s, Emit(t, ActivationFailure), false);
    }
  }

  /** A fresh start counts what the new server asks for, or fails before that. */
  lemma FreshCounts(s: State, env: Env, c: Config)
    requires Dependable(env)
    ensures var (ok, t) := FreshPath(s, env, c);
      && t.signals == s.signals && t.tripped == s.tripped
      && t.conns == (if ok then Record(s, c).conns else s.conns)
      && ((forall p :: Count(t, p) == Count(s, p) + Occurrences(c.excluded, p)) || (!ok && t.counts == s.counts))
  {
    var y0 := if s.sys.kernel.link.None? then Call(s.sys, env, AddInterface(c, !env.hasIp)).1 else s.sys;
    var s0 := s.(sys := y0);
    AddAllFrame(s0, env, c.excluded);
    AddedCounts(s0, env, c.excluded);
    var s1, t := AddAll(s0, env, c.excluded), FreshPath(s, env, c).1;
    if t.counts == s1.counts {
      forall p ensures Count(t, p) == Count(s, p) + Occurrences(c.excluded, p) {
        assert Count(s1, p) == Count(s0, p) + Occurrences(c.excluded, p);
      }
    }
  }

  lemma AddedCounts(s: State, env: Env, es: seq<Excluded>)
    requires Dependable(env)
    ensures forall p :: Count(AddAll(s, env, es), p) == Count(s, p) + Occurrences(es, p)
  {
    forall p ensures Count(AddAll(s, env, es), p) == Count(s, p) + Occurrences(es, p) {
      AddAllCounts(s, env, es, p);
    }
  }

  lemma FreshPathCounted(s: State, env: Env, c: Config)
    requires Dependable(env) && Counted(s) && c.hop !in s.conns && AllPlain(c.excluded)
    ensures Counted(Guarded(FreshPath(s, env, c)).1)
  {
    FreshCounts(s, env, c);
    var (ok, u) := FreshPath(s, env, c);
    forall p ensures Count(u, p) - Total(u.conns, p) ==
                     Count(s, p) - Total(s.conns, p) + (if ok then 0 else Count(u, p) - Count(s, p)) {
      TotalAfterRecord(s, c, p);
    }
    CountedFrom(s, Guarded((ok, u)).1, ok);
  }

  lemma DeactivateCounted(s: State, env: Env, b: bool)
    requires Dependable(env) && Counted(s)
    ensures Counted(Deactivate(s, env, b).1)
  {
    var (ok, t) := Deactivate(s, env, b);
    if !ok {
      assert t.conns == s.conns && t.counts == s.counts;
      CountedFrom(s, t, true);
    }
  }

  predicate PlainEvent(e: Event) {
    e.ActivateRequest? ==> AllPlain(e.config.excluded)
  }

  lemma ActivateCounted(s: State, env: Env, c: Config)
    requires Dependable(env) && Positive(s) && Counted(s) && AllPlain(c.excluded)
    ensures Counted(Activate(s, env, c).1)
  {
    if c.hop !in s.conns {
      FreshPathCounted(s, env, c);
    } else if SupportsSwitch(s.conns, c) {
      SwitchPathCounted(s, env, c);
    } else {
      DeactivateCounted(s, env, false);
      RestartIsFresh(s, env, c);
      var (ok, t) := Deactivate(s, env, false);
      if ok {
        FreshPathCounted(t, env, c);
        GuardTwice(FreshPath(t, env, c));
      } else {
        CountedFrom(t, Activate(s, env, c).1, false);
      }
    }
  }

  lemma GuardTwice(r: (bool, State))
    requires Counted(Guarded(r).1)
    ensures Counted(Guarded(Guarded(r)).1)
  {
  }

  /**
    Reference counts never under-count: over every run with plain host
    addresses in which route additions, peer deletion and interface deletion
    succeed, each count is at least the number of live requests for it, equal
    while no activation has failed, and the assertion in the removal holds.
  */
  lemma {:induction false} RunCounted(env: Env, es: seq<Event>)
    requires Dependable(env)
    requires forall e <- es :: PlainEvent(e)
    ensures Counted(Run(Initial(), env, es))
  {
    if es == [] {
      forall p ensures Total(Initial().conns, p) == 0 == Count(Initial(), p) {
      }
    } else {
      var s := Run(Initial(), env, es[..|es| - 1]);
      RunCounted(env, es[..|es| - 1]);
      RunBacked(env, es[..|es| - 1]);
      assert es[|es| - 1] in es;
      match es[|es| - 1] {
        case ActivateRequest(c) => ActivateCounted(s, env, c);
        case DeactivateRequest(b) => DeactivateCounted(s, env, b);
        case TimerFires(peers) =>
          PollKeepsCounts(s.(armed := false), peers, LiveHops(s.conns));
          PollKeepsConfigs(s.(armed := false), peers, LiveHops(s.conns));
          var t := Step(s, env, es[|es| - 1]);
          forall p ensures Total(t.conns, p) == Total(s.conns, p) && Count(t, p) == Count(s, p) {
          }
      }
    }
  }
}

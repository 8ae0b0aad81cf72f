/**
  Switching servers in place: exactly when an exclusion survives it, and that
  it drops nothing shared as long as earlier additions succeeded. The counts
  stay exact for lists of plain addresses only, but then do not fall below the
  live requests.
*/
module DaemonSwitch {
  import opened Net
  import opened Daemon
  import opened DaemonExclusions

  // ----- Shared routes stay installed throughout -----

  /** Every kernel state from the n-th call on has the prefix excluded and the route installed. */
  predicate Holds(y: Sys, n: nat, shared: set<Prefix>, routes: set<Prefix>) {
    && n <= |y.history|
    && shared <= y.kernel.exclusions && routes <= y.kernel.routes
    && forall i | n <= i < |y.history| :: shared <= y.history[i].exclusions && routes <= y.history[i].routes
  }

  lemma {:induction false} AddAllHolds(s: State, env: Env, es: seq<Excluded>, n: nat, ps: set<Prefix>, rs: set<Prefix>)
    requires Holds(s.sys, n, ps, rs) && ps <= s.counts.Keys
    ensures var t := AddAll(s, env, es);
      Holds(t.sys, n, ps, rs) && forall p <- ps :: Count(t, p) == Count(s, p) + Occurrences(es, p)
    decreases |es|
  {
    if es != [] {
      AddAllHolds(AddOne(s, env, AddKey(es[0])), env, es[1..], n, ps, rs);
    }
  }

  /** How often a list removes a prefix, under the key that removal uses. */
  function Removals(es: seq<Excluded>, p: Prefix): nat {
    if es == [] then 0 else (if DelKey(es[0]) == p then 1 else 0) + Removals(es[1..], p)
  }

  /** A prefix counted more often than it is removed stays counted and installed. */
  lemma {:induction false} DelAllHolds(s: State, env: Env, es: seq<Excluded>, n: nat, ps: set<Prefix>, rs: set<Prefix>)
    requires Holds(s.sys, n, ps, rs)
    requires forall p <- ps :: Count(s, p) > Removals(es, p)
    ensures var t := DelAll(s, env, es);
      Holds(t.sys, n, ps, rs)
    decreases |es|
  {
    if es != [] {
      var k := DelKey(es[0]);
      var t := DelOne(s, env, k);
      forall p <- ps ensures Count(t, p) > Removals(es[1..], p) {
        assert Count(s, p) > Removals(es, p);
      }
      assert k in ps ==> s.counts[k] > 1;
      DelAllHolds(t, env, es[1..], n, ps, rs);
    }
  }

  /** Deleting the exclusion of a prefix takes effect, whatever it reports. */
  ghost predicate Deletes(env: Env, p: Prefix) {
    forall n :: env.outcome(n, DeleteExclusion(p)) != Fail(false)
  }

  /** A prefix removed at least as often as it is counted is gone, as is one that was gone before. */
  lemma {:induction false} DelAllLoses(s: State, env: Env, es: seq<Excluded>, p: Prefix)
    requires Deletes(env, p) && Count(s, p) <= Removals(es, p)
    requires p in s.counts ==> s.counts[p] >= 1
    requires p !in s.counts ==> p !in s.sys.kernel.exclusions
    ensures p !in DelAll(s, env, es).sys.kernel.exclusions
    decreases |es|
  {
    if es != [] {
      DelAllLoses(DelOne(s, env, DelKey(es[0])), env, es[1..], p);
    }
  }

  lemma {:induction false} AddRoutesHolds(y: Sys, env: Env, qs: seq<Prefix>, n: nat, ps: set<Prefix>, rs: set<Prefix>)
    requires Holds(y, n, ps, rs)
    ensures Holds(AddRoutes(y, env, qs).1, n, ps, rs)
    decreases |qs|
  {
    if qs != [] {
      AddRoutesHolds(Call(y, env, AddRoute(qs[0])).1, env, qs[1..], n, ps, rs);
    }
  }

  lemma {:induction false} DropRoutesHolds(y: Sys, env: Env, qs: seq<Prefix>, keep: seq<Prefix>, n: nat,
                                           ps: set<Prefix>, rs: set<Prefix>)
    requires Holds(y, n, ps, rs)
    requires forall r <- rs :: r in keep
    ensures Holds(DropRoutes(y, env, qs, keep), n, ps, rs)
    decreases |qs|
  {
    if qs != [] {
      if qs[0] in keep {
        DropRoutesHolds(y, env, qs[1..], keep, n, ps, rs);
      } else {
        DropRoutesHolds(Call(y, env, DeleteRoute(qs[0])).1, env, qs[1..], keep, n, ps, rs);
      }
    }
  }

  function SharedExclusions(c: Config, d: Config): set<Prefix> {
    set e | e in c.excluded && AddKey(e) in (set f | f in d.excluded :: AddKey(f)) :: AddKey(e)
  }

  function SharedRoutes(c: Config, d: Config): set<Prefix> {
    set p | p in c.allowed && p in d.allowed
  }

  lemma {:induction false} OccurrencesPositive(es: seq<Excluded>, p: Prefix)
    ensures (exists e <- es :: AddKey(e) == p) <==> Occurrences(es, p) >= 1
  {
    if es != [] {
      OccurrencesPositive(es[1..], p);
      assert es == [es[0]] + es[1..];
    }
  }

  lemma JoinHolds(s: State, env: Env, c: Config, n: nat, ps: set<Prefix>, rs: set<Prefix>)
    requires Holds(s.sys, n, ps, rs) && ps <= s.counts.Keys
    ensures var t := JoinServer(s, env, c).1;
      Holds(t.sys, n, ps, rs) && forall p <- ps :: Count(t, p) == Count(s, p) + Occurrences(c.excluded, p)
  {
    AddAllHolds(s, env, c.excluded, n, ps, rs);
    var s1 := AddAll(s, env, c.excluded);
    var y := Call(s1.sys, env, UpdatePeer(c)).1;
    assert Holds(y, n, ps, rs);
    AddRoutesHolds(y, env, c.allowed, n, ps, rs);
    assert JoinServer(s, env, c).1.counts == s1.counts;
  }

  lemma LeaveHolds(t: State, env: Env, last: Config, c: Config, n: nat, ps: set<Prefix>, rs: set<Prefix>)
    requires Holds(t.sys, n, ps, rs)
    requires (forall p <- ps :: Count(t, p) > Removals(last.excluded, p)) && forall r <- rs :: r in c.allowed
    ensures Holds(LeaveServer(t, env, last, c).1.sys, n, ps, rs)
  {
    DelAllHolds(t, env, last.excluded, n, ps, rs);
    var u := DelAll(t, env, last.excluded);
    DropRoutesHolds(u.sys, env, last.allowed, c.allowed, n, ps, rs);
    var y := DropRoutes(u.sys, env, last.allowed, c.allowed);
    assert Holds(Call(y, env, DeletePeer(last)).1, n, ps, rs);
  }

  lemma LeaveLoses(t: State, env: Env, last: Config, c: Config, p: Prefix)
    requires Backed(t) && p in t.counts && Deletes(env, p) && Count(t, p) <= Removals(last.excluded, p)
    ensures p !in LeaveServer(t, env, last, c).1.sys.kernel.exclusions
  {
    DelAllLoses(t, env, last.excluded, p);
    RoutesKeepExclusions(DelAll(t, env, last.excluded).sys, env, last.allowed, c.allowed);
  }

  /**
    An exclusion that is counted when the old server is left stays installed
    exactly when it is counted more often than the old list removes it.
  */
  lemma LeaveKeepsExactly(t: State, env: Env, last: Config, c: Config, p: Prefix, n: nat)
    requires Backed(t) && p in t.counts && Deletes(env, p) && Holds(t.sys, n, {p}, {})
    ensures var y := LeaveServer(t, env, last, c).1.sys;
      && (Holds(y, n, {p}, {}) <==> Count(t, p) > Removals(last.excluded, p))
      && (p in y.kernel.exclusions <==> Count(t, p) > Removals(last.excluded, p))
  {
    if Count(t, p) > Removals(last.excluded, p) {
      LeaveHolds(t, env, last, c, n, {p}, {});
    } else {
      LeaveLoses(t, env, last, c, p);
    }
  }

  /** Whether the counts carry an exclusion through a switch. */
  predicate Survives(s: State, c: Config, p: Prefix)
    requires c.hop in s.conns
  {
    Count(s, p) + Occurrences(c.excluded, p) > Removals(s.conns[c.hop].config.excluded, p)
  }

  /**
    However the system answers, every kernel state passed through during a
    switch has the counted exclusions whose counts carry them through, and the
    installed routes that the new server keeps.
  */
  lemma SwitchHolds(s: State, env: Env, c: Config, ps: set<Prefix>, rs: set<Prefix>)
    requires c.hop in s.conns && Backed(s)
    requires forall p <- ps :: p in s.counts && Survives(s, c, p)
    requires forall r <- rs :: r in c.allowed && r in s.sys.kernel.routes
    ensures Holds(SwitchServer(s, env, c).1.sys, |s.sys.history|, ps, rs)
  {
    JoinHolds(s, env, c, |s.sys.history|, ps, rs);
    var (ok, t) := JoinServer(s, env, c);
    if ok {
      LeaveHolds(t, env, s.conns[c.hop].config, c, |s.sys.history|, ps, rs);
    }
  }

  lemma {:induction false} AddAllBacked(s: State, env: Env, es: seq<Excluded>)
    requires Backed(s)
    ensures Backed(AddAll(s, env, es))
    decreases |es|
  {
    if es != [] {
      AddAllBacked(AddOne(s, env, AddKey(es[0])), env, es[1..]);
    }
  }

  lemma JoinBacked(s: State, env: Env, c: Config)
    requires Backed(s)
    ensures Backed(JoinServer(s, env, c).1)
  {
    AddAllBacked(s, env, c.excluded);
    RoutesKeepExclusions(Call(AddAll(s, env, c.excluded).sys, env, UpdatePeer(c)).1, env, c.allowed, []);
  }

  /**
    A counted exclusion is installed in every kernel state of a switch that
    reaches the removals exactly when the counts carry it through, and if they
    do not it is gone in the end.
  */
  lemma SwitchKeepsExactly(s: State, env: Env, c: Config, p: Prefix)
    requires c.hop in s.conns && Backed(s) && p in s.counts && Deletes(env, p) && JoinServer(s, env, c).0
    ensures var y := SwitchServer(s, env, c).1.sys;
      && (Holds(y, |s.sys.history|, {p}, {}) <==> Survives(s, c, p))
      && (p in y.kernel.exclusions <==> Survives(s, c, p))
  {
    JoinHolds(s, env, c, |s.sys.history|, {p}, {});
    JoinBacked(s, env, c);
    LeaveKeepsExactly(JoinServer(s, env, c).1, env, s.conns[c.hop].config, c, p, |s.sys.history|);
  }

  lemma {:induction false} AddAllInstalls(s: State, env: Env, es: seq<Excluded>, p: Prefix)
    requires forall n :: env.outcome(n, AddExclusion(p)) == Ok
    ensures Count(AddAll(s, env, es), p) == Count(s, p) + Occurrences(es, p)
    decreases |es|
  {
    if es != [] {
      AddAllInstalls(AddOne(s, env, AddKey(es[0])), env, es[1..], p);
    }
  }

  /**
    An exclusion that is not counted before, although the old server asked for
    it: its addition succeeds now, and from the removals on it stays installed
    exactly when the new list asks for it more often than the old one removes it.
  */
  lemma SwitchKeepsUncounted(s: State, env: Env, c: Config, p: Prefix)
    requires c.hop in s.conns && Backed(s) && p !in s.counts && Occurrences(c.excluded, p) > 0
    requires Deletes(env, p) && (forall n :: env.outcome(n, AddExclusion(p)) == Ok) && JoinServer(s, env, c).0
    ensures var y := SwitchServer(s, env, c).1.sys;
      && (Holds(y, |JoinServer(s, env, c).1.sys.history|, {p}, {}) <==> Survives(s, c, p))
      && (p in y.kernel.exclusions <==> Survives(s, c, p))
  {
    var t := JoinServer(s, env, c).1;
    AddAllInstalls(s, env, c.excluded, p);
    assert t.counts == AddAll(s, env, c.excluded).counts;
    JoinBacked(s, env, c);
    LeaveKeepsExactly(t, env, s.conns[c.hop].config, c, p, |t.sys.history|);
  }

  // ----- An addition that failed earlier -----

  /** Every call succeeds but the second one, the first addition of an exclusion. */
  ghost predicate FirstAdditionFails(env: Env) {
    forall n, op :: env.outcome(n, op) == if n == 1 then Fail(false) else Ok
  }

  lemma ActivatedUnexcluded(env: Env, c: Config, e: Excluded)
    requires FirstAdditionFails(env) && c.allowed == [] && c.excluded == [e]
    ensures var (ok, s) := Activate(Initial(), env, c);
      && ok && s.conns == map[c.hop := Conn(c, None, 0)] && s.counts == map[] && s.signals == [] && !s.tripped
      && s.sys.kernel.exclusions == {} && |s.sys.history| >= 2
  {
    var s0 := Initial().(sys := Call(Initial().sys, env, AddInterface(c, !env.hasIp)).1);
    assert [e][1..] == [];
    var s1 := AddOne(s0, env, AddKey(e));
    assert AddAll(s0, env, [e]) == s1 && s1.counts == map[] && |s1.sys.history| == 2;
    var y := Call(s1.sys, env, UpdatePeer(c)).1;
    var z := BringUp(y, env, c).1;
    BringUpKeepsExclusions(y, env, c);
    assert BringUp(y, env, c).0 && |z.history| >= 3;
  }

  lemma SwitchedUnexcluded(s: State, env: Env, c: Config, e: Excluded, d: Config)
    requires FirstAdditionFails(env) && c.allowed == [] && c.excluded == [e] && Plain(e)
    requires d == c.(serverKey := d.serverKey) && s.conns == map[c.hop := Conn(c, None, 0)] && s.counts == map[]
    requires s.sys.kernel.exclusions == {} && |s.sys.history| >= 2
    ensures var (ok, t) := SwitchServer(s, env, d);
      && ok && t.conns == Record(s, d).conns && t.counts == map[] && t.signals == s.signals
      && t.tripped == s.tripped && t.sys.kernel.exclusions == {} && |t.sys.history| >= 2
  {
    assert [e][1..] == [];
    var s1 := AddOne(s, env, AddKey(e));
    assert AddAll(s, env, [e]) == s1 && s1.counts == map[AddKey(e) := 1];
    var u := JoinServer(s, env, d).1;
    assert u == s1.(sys := u.sys) && u.sys.kernel.exclusions == {AddKey(e)} && |u.sys.history| >= 2;
    var v := DelOne(u, env, DelKey(e));
    assert DelAll(u, env, [e]) == v && v.counts == map[] && v.sys.kernel.exclusions == {};
  }

  /**
    A run that loses an exclusion both servers ask for. Its first addition
    fails, which the activation does not notice, so the switch counts it once
    for the new server and removes it for the old one.
  */
  lemma FailedAdditionLosesShared(env: Env, c: Config, bits: nat, key: string)
    requires FirstAdditionFails(env) && c.allowed == [] && c.excluded == [Host(V4(bits))]
    ensures var d := c.(serverKey := key);
      var (ok1, s) := Activate(Initial(), env, c);
      var (ok2, t) := Activate(s, env, d);
      && ok1 && ok2 && t == Run(Initial(), env, [ActivateRequest(c), ActivateRequest(d)])
      && t.conns[d.hop].config == d && t.signals == [] && !t.tripped
      && HostPrefix(V4(bits)) in SharedExclusions(c, d)
      && t.counts == map[] && t.sys.kernel.exclusions == {}
  {
    var e, d := Host(V4(bits)), c.(serverKey := key);
    ActivatedUnexcluded(env, c, e);
    var s := Activate(Initial(), env, c).1;
    SwitchedUnexcluded(s, env, c, e, d);
    var u := SwitchServer(s, env, d).1;
    RewireKeepsExclusions(u.sys, env, d);
    assert Rewire(u.sys, env, d).0;
    assert Activate(s, env, d) == Guarded(SwitchPath(s, env, d));
    RunTwo(env, ActivateRequest(c), ActivateRequest(d));
    assert e in d.excluded && AddKey(e) == HostPrefix(V4(bits));
  }

  // ----- Entries that are not plain hosts -----

  const NOWHERE := HostPrefix(NullAddress)

  /** Occurrences under the key that removal uses. */
  function Releases(es: seq<Excluded>, p: Prefix): nat {
    if es == [] then 0 else (if Plain(es[0]) && AddKey(es[0]) == p then 1 else 0) + Releases(es[1..], p)
  }

  lemma {:induction false} ReleasesAtMost(es: seq<Excluded>, p: Prefix)
    ensures Releases(es, p) <= Occurrences(es, p)
    ensures AllPlain(es) ==> Releases(es, p) == Occurrences(es, p)
  {
    if es != [] {
      ReleasesAtMost(es[1..], p);
    }
  }

  /** An entry that is not plain is added but not released. */
  lemma {:induction false} ReleasesMiss(es: seq<Excluded>) returns (p: Prefix)
    requires !AllPlain(es)
    ensures Releases(es, p) < Occurrences(es, p)
  {
    if Plain(es[0]) {
      p := ReleasesMiss(es[1..]);
    } else {
      p := AddKey(es[0]);
      ReleasesAtMost(es[1..], p);
    }
  }

  lemma {:induction false} DelAllReleases(s: State, env: Env, es: seq<Excluded>)
    requires Parsed(es) && Positive(s) && NOWHERE !in s.counts
    requires forall p :: Count(s, p) >= Releases(es, p)
    ensures var t := DelAll(s, env, es);
      t == s.(counts := t.counts, sys := t.sys, tripped := s.tripped || !AllPlain(es)) &&
      forall p :: Count(t, p) == Count(s, p) - Releases(es, p)
    decreases |es|
  {
    if es != [] {
      var k := DelKey(es[0]);
      var t := DelOne(s, env, k);
      assert es == [es[0]] + es[1..];
      if Plain(es[0]) {
        assert Count(s, k) >= Releases(es, k) >= 1;
      } else {
        assert k == NOWHERE && t.counts == s.counts;
      }
      forall p ensures Count(t, p) == Count(s, p) - (if Plain(es[0]) && p == k then 1 else 0) &&
                       Count(t, p) >= Releases(es[1..], p) {
        assert Count(s, p) >= Releases(es, p);
      }
      DelAllReleases(t, env, es[1..]);
    }
  }

  /**
    After a switch the counts agree with the live connections, and the
    assertion in the removal holds, exactly when the old server's list has
    plain host addresses only.
  */
  lemma SwitchCountsExactlyWhenPlain(s: State, env: Env, c: Config)
    requires Dependable(env) && Positive(s) && !s.tripped && c.hop in s.conns
    requires (forall h <- s.conns :: Parsed(s.conns[h].config.excluded)) && Parsed(c.excluded)
    requires forall p :: Count(s, p) == Total(s.conns, p)
    requires SwitchServer(s, env, c).0
    ensures var t := SwitchServer(s, env, c).1;
      && ((forall p :: Count(t, p) == Total(t.conns, p)) <==> AllPlain(s.conns[c.hop].config.excluded))
      && (!t.tripped <==> AllPlain(s.conns[c.hop].config.excluded))
  {
    var last := s.conns[c.hop].config;
    JoinCounts(s, env, c);
    var u := JoinServer(s, env, c).1;
    forall p ensures Count(u, p) >= Releases(last.excluded, p) {
      ReleasesAtMost(last.excluded, p);
      assert Count(s, p) == Total(s.conns, p);
      assert c.hop == SingleHop || c.hop == MultiHopEntry || c.hop == MultiHopExit;
    }
    assert NOWHERE !in u.counts by {
      forall h <- s.conns ensures OccurrencesAt(s.conns, h, NOWHERE) == 0 {
        NowhereNotAdded(s.conns[h].config.excluded);
      }
      NowhereNotAdded(c.excluded);
      assert Count(s, NOWHERE) == Total(s.conns, NOWHERE) == 0;
      assert Count(u, NOWHERE) == Count(s, NOWHERE) + Occurrences(c.excluded, NOWHERE) == 0;
    }
    DelAllReleases(u, env, last.excluded);
    var w := DelAll(u, env, last.excluded);
    var t := SwitchServer(s, env, c).1;
    assert t.counts == w.counts && t.tripped == w.tripped && t.conns == Record(s, c).conns;
    forall p ensures Count(t, p) - Total(t.conns, p) == Occurrences(last.excluded, p) - Releases(last.excluded, p) {
      TotalAfterRecord(s, c, p);
      assert Count(t, p) == Count(w, p);
      assert Count(s, p) == Total(s.conns, p);
    }
    if AllPlain(last.excluded) {
      forall p ensures Count(t, p) == Total(t.conns, p) {
        ReleasesAtMost(last.excluded, p);
      }
    } else {
      var p := ReleasesMiss(last.excluded);
      assert Count(t, p) != Total(t.conns, p);
    }
  }

  lemma {:induction false} NowhereNotAdded(es: seq<Excluded>)
    requires Parsed(es)
    ensures Occurrences(es, NOWHERE) == 0
  {
    if es != [] {
      assert es[0] in es;
      NowhereNotAdded(es[1..]);
    }
  }

  // ----- Counts cover the live requests, whatever the lists hold -----

  predicate ParsedConns(conns: map<Hop, Conn>) {
    forall h <- conns :: Parsed(conns[h].config.excluded)
  }

  predicate ParsedEvent(e: Event) {
    e.ActivateRequest? ==> Parsed(e.config.excluded)
  }

  /** Every live request is counted; the key that stray removals hit is not. */
  ghost predicate Covering(s: State) {
    Count(s, NOWHERE) == 0 && ParsedConns(s.conns) && forall p :: Count(s, p) >= Total(s.conns, p)
  }

  lemma CoveringFrom(s: State, t: State)
    requires Covering(s) && Count(t, NOWHERE) == 0 && ParsedConns(t.conns)
    requires forall p :: Count(t, p) - Total(t.conns, p) >= Count(s, p) - Total(s.conns, p)
    ensures Covering(t)
  {
  }

  lemma SwitchCovering(s: State, env: Env, c: Config)
    requires Dependable(env) && Positive(s) && Covering(s) && c.hop in s.conns && Parsed(c.excluded)
    ensures Covering(SwitchServer(s, env, c).1)
    ensures var (ok, t) := SwitchServer(s, env, c); t.conns == if ok then Record(s, c).conns else s.conns
  {
    var last := s.conns[c.hop].config;
    JoinCounts(s, env, c);
    NowhereNotAdded(c.excluded);
    var (ok, u) := JoinServer(s, env, c);
    assert Count(u, NOWHERE) == 0;
    var t := SwitchServer(s, env, c).1;
    if ok {
      forall p ensures Count(u, p) >= Releases(last.excluded, p) {
        ReleasesAtMost(last.excluded, p);
        assert Count(s, p) >= Total(s.conns, p);
        assert c.hop == SingleHop || c.hop == MultiHopEntry || c.hop == MultiHopExit;
      }
      DelAllReleases(u, env, last.excluded);
      var w := DelAll(u, env, last.excluded);
      assert t.counts == w.counts && t.conns == Record(s, c).conns;
      forall p ensures Count(t, p) - Total(t.conns, p) >= Count(s, p) - Total(s.conns, p) {
        ReleasesAtMost(last.excluded, p);
        TotalAfterRecord(s, c, p);
        assert Count(t, p) == Count(w, p) == Count(u, p) - Releases(last.excluded, p);
      }
      assert Count(w, NOWHERE) == Count(u, NOWHERE) - Releases(last.excluded, NOWHERE);
      CoveringFrom(s, t);
    } else {
      CoveringFrom(s, t);
    }
  }

  lemma RewiredCovering(t: State, env: Env, c: Config)
    requires Covering(t) && c.hop in t.conns && t.conns[c.hop].config == c
    ensures var (ok, y) := Rewire(t.sys, env, c);
      Covering(Guarded((ok, if ok then Establish(t.(sys := y), c) else t.(sys := y))).1)
  {
    var (ok, y) := Rewire(t.sys, env, c);
    var r := Guarded((ok, if ok then Establish(t.(sys := y), c) else t.(sys := y))).1;
    forall p ensures Count(r, p) == Count(t, p) && Total(r.conns, p) == Total(t.conns, p) {
      TotalAfterRecord(t, c, p);
      assert c.hop == SingleHop || c.hop == MultiHopEntry || c.hop == MultiHopExit;
    }
    CoveringFrom(t, r);
  }

  lemma SwitchPathCovering(s: State, env: Env, c: Config)
    requires Dependable(env) && Positive(s) && Covering(s) && c.hop in s.conns && Parsed(c.excluded)
    ensures Covering(Guarded(SwitchPath(s, env, c)).1)
  {
    SwitchCovering(s, env, c);
    var (ok, t) := SwitchServer(s, env, c);
    if ok {
      RewiredCovering(t, env, c);
    } else {
      CoveringFrom(t, Emit(t, ActivationFailure));
    }
  }

  lemma FreshPathCovering(s: State, env: Env, c: Config)
    requires Dependable(env) && Covering(s) && c.hop !in s.conns && Parsed(c.excluded)
    ensures Covering(Guarded(FreshPath(s, env, c)).1)
  {
    FreshCounts(s, env, c);
    NowhereNotAdded(c.excluded);
    var u := FreshPath(s, env, c).1;
    forall p ensures Count(u, p) - Total(u.conns, p) >= Count(s, p) - Total(s.conns, p) {
      TotalAfterRecord(s, c, p);
    }
    CoveringFrom(s, u);
    CoveringFrom(u, Guarded(FreshPath(s, env, c)).1);
  }

  lemma DeactivateCovering(s: State, env: Env, b: bool)
    requires Dependable(env) && Covering(s)
    ensures Covering(Deactivate(s, env, b).1)
  {
    var (ok, t) := Deactivate(s, env, b);
    if !ok {
      assert t.conns == s.conns && t.counts == s.counts;
      CoveringFrom(s, t);
    }
  }

  lemma ActivateCovering(s: State, env: Env, c: Config)
    requires Dependable(env) && Positive(s) && Covering(s) && Parsed(c.excluded)
    ensures Covering(Activate(s, env, c).1)
  {
    if c.hop !in s.conns {
      FreshPathCovering(s, env, c);
    } else if SupportsSwitch(s.conns, c) {
      SwitchPathCovering(s, env, c);
    } else {
      DeactivateCovering(s, env, false);
      RestartIsFresh(s, env, c);
      var (ok, t) := Deactivate(s, env, false);
      if ok {
        FreshPathCovering(t, env, c);
        CoveringFrom(Guarded(FreshPath(t, env, c)).1, Activate(s, env, c).1);
      } else {
        CoveringFrom(t, Activate(s, env, c).1);
      }
    }
  }

  /**
    Whatever the lists hold, no live request goes uncounted: over every run in
    which route additions, peer deletion and interface deletion succeed, each
    count is at least the number of live requests for it.
  */
  lemma {:induction false} RunCovering(env: Env, es: seq<Event>)
    requires Dependable(env)
    requires forall e <- es :: ParsedEvent(e)
    ensures Covering(Run(Initial(), env, es))
  {
    if es == [] {
      forall p ensures Total(Initial().conns, p) == 0 == Count(Initial(), p) {
      }
    } else {
      var s := Run(Initial(), env, es[..|es| - 1]);
      RunCovering(env, es[..|es| - 1]);
      RunBacked(env, es[..|es| - 1]);
      assert es[|es| - 1] in es;
      match es[|es| - 1] {
        case ActivateRequest(c) => ActivateCovering(s, env, c);
        case DeactivateRequest(b) => DeactivateCovering(s, env, b);
        case TimerFires(peers) =>
          PollKeepsCounts(s.(armed := false), peers, LiveHops(s.conns));
          PollKeepsConfigs(s.(armed := false), peers, LiveHops(s.conns));
          var t := Step(s, env, es[|es| - 1]);
          forall p ensures Total(t.conns, p) == Total(s.conns, p) && Count(t, p) == Count(s, p) {
          }
          CoveringFrom(s, t);
      }
    }
  }

  // ----- Shared exclusions over whole runs -----

  /** Only the key that no entry is added under is removed more often than added. */
  lemma {:induction false} RemovalsAtMost(es: seq<Excluded>, p: Prefix)
    requires p != NOWHERE
    ensures Removals(es, p) <= Occurrences(es, p)
  {
    if es != [] {
      RemovalsAtMost(es[1..], p);
    }
  }

  lemma SharedSurvives(s: State, c: Config, p: Prefix)
    requires c.hop in s.conns && Covering(s) && Parsed(c.excluded) && p in SharedExclusions(s.conns[c.hop].config, c)
    ensures p in s.counts && Survives(s, c, p)
  {
    var last := s.conns[c.hop].config;
    OccurrencesPositive(last.excluded, p);
    OccurrencesPositive(c.excluded, p);
    NowhereNotAdded(c.excluded);
    RemovalsAtMost(last.excluded, p);
    assert c.hop == SingleHop || c.hop == MultiHopEntry || c.hop == MultiHopExit;
    assert Count(s, p) >= Total(s.conns, p) >= Occurrences(last.excluded, p);
  }

  /**
    After every run in which route additions, peer deletion and interface
    deletion succeed, a switch never lets go of what the two servers share,
    whatever fails from then on: no kernel state passed through lacks a shared
    exclusion, or a shared route that was installed.
  */
  lemma SwitchKeepsShared(env: Env, es: seq<Event>, later: Env, c: Config)
    requires Dependable(env) && (forall e <- es :: ParsedEvent(e)) && Parsed(c.excluded)
    requires c.hop in Run(Initial(), env, es).conns
    ensures var s := Run(Initial(), env, es);
      var last := s.conns[c.hop].config;
      Holds(SwitchServer(s, later, c).1.sys, |s.sys.history|,
            SharedExclusions(last, c), SharedRoutes(last, c) * s.sys.kernel.routes)
  {
    var s := Run(Initial(), env, es);
    var last := s.conns[c.hop].config;
    RunCovering(env, es);
    RunBacked(env, es);
    forall p <- SharedExclusions(last, c) ensures p in s.counts && Survives(s, c, p) {
      SharedSurvives(s, c, p);
    }
    SwitchHolds(s, later, c, SharedExclusions(last, c), SharedRoutes(last, c) * s.sys.kernel.routes);
  }
}

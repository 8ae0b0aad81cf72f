/**
  Tunnel routes when several hops are live: a switch removes the routes its own
  hop gives up, without looking at the other hops.
*/
module DaemonRoutes {
  import opened Net
  import opened Daemon
  import opened DaemonExclusions
  import opened DaemonRestart

  /** Every route of every live hop is installed. */
  predicate RoutesLive(s: State) {
    forall h, r | h in s.conns && r in s.conns[h].config.allowed :: r in s.sys.kernel.routes
  }

  /** A switch that gives up a route which another live hop lists. */
  predicate Tramples(s: State, e: Event) {
    && e.ActivateRequest? && SupportsSwitch(s.conns, e.config)
    && exists h, r | h in s.conns && r in s.conns[h].config.allowed ::
         h != e.config.hop && r in s.conns[e.config.hop].config.allowed && r !in e.config.allowed
  }

  lemma BringUpRoutes(y: Sys, env: Env, c: Config)
    requires Reliable(env)
    ensures var (ok, z) := BringUp(y, env, c); ok && z.kernel.routes == y.kernel.routes + ToSet(c.allowed)
  {
    var y1 := UpdateResolvers(y, env, c).1;
    AddRoutesReliable(ConfigureLink(y1, env, c).1, env, c.allowed);
  }

  lemma FreshRoutes(s: State, env: Env, c: Config)
    requires Reliable(env)
    ensures var (ok, t) := FreshPath(s, env, c);
      && ok && t.conns == s.conns[c.hop := t.conns[c.hop]] && t.conns[c.hop].config == c
      && t.sys.kernel.routes == s.sys.kernel.routes + ToSet(c.allowed)
  {
    var y0 := if s.sys.kernel.link.None? then Call(s.sys, env, AddInterface(c, !env.hasIp)).1 else s.sys;
    var s0 := s.(sys := y0);
    AddAllKernel(s0, env, c.excluded);
    AddAllFrame(s0, env, c.excluded);
    BringUpRoutes(Call(AddAll(s0, env, c.excluded).sys, env, UpdatePeer(c)).1, env, c);
  }

  lemma RewireKeepsRoutes(y: Sys, env: Env, c: Config)
    ensures Rewire(y, env, c).1.kernel.routes == y.kernel.routes
  {
  }

  lemma SwitchRoutes(s: State, env: Env, c: Config)
    requires Reliable(env) && c.hop in s.conns
    ensures var t := SwitchPath(s, env, c).1;
      && t.conns.Keys == s.conns.Keys && t.conns[c.hop].config == c
      && (forall h <- s.conns :: h != c.hop ==> t.conns[h] == s.conns[h])
      && t.sys.kernel.routes == s.sys.kernel.routes + ToSet(c.allowed) - Less(s.conns[c.hop].config.allowed, c.allowed)
  {
    var last := s.conns[c.hop].config;
    JoinReliable(s, env, c);
    AddAllFrame(s, env, c.excluded);
    var u := JoinServer(s, env, c).1;
    LeaveReliable(u, env, last, c);
    DelAllConns(u, env, last.excluded);
    RewireKeepsRoutes(SwitchServer(s, env, c).1.sys, env, c);
  }

  lemma QuiesceKeepsRoutes(s: State, env: Env, b: bool)
    ensures var t := Quiesce(s, env, b).1; t.conns == s.conns && t.sys.kernel.routes == s.sys.kernel.routes
  {
  }

  lemma DeactivateRoutes(s: State, env: Env, b: bool)
    requires Reliable(env)
    ensures var (ok, t) := Deactivate(s, env, b);
      if ok then t.conns == map[] else t.conns == s.conns && t.sys.kernel.routes == s.sys.kernel.routes
  {
    QuiesceKeepsRoutes(s, env, b);
    var (ok, t) := Quiesce(s, env, b);
    if ok {
      assert Dismantle(t, env).0;
    }
  }

  lemma ActivateRoutesExactly(s: State, env: Env, c: Config)
    requires Reliable(env) && RoutesLive(s)
    ensures RoutesLive(Activate(s, env, c).1) <==> !Tramples(s, ActivateRequest(c))
  {
    if c.hop !in s.conns {
      FreshRoutes(s, env, c);
    } else if SupportsSwitch(s.conns, c) {
      SwitchRoutes(s, env, c);
      SwitchRoutesExactly(s, SwitchPath(s, env, c).1, c);
    } else {
      RestartIsFresh(s, env, c);
      DeactivateRoutes(s, env, false);
      FreshRoutes(Deactivate(s, env, false).1, env, c);
    }
  }

  lemma SwitchRoutesExactly(s: State, t: State, c: Config)
    requires RoutesLive(s) && SupportsSwitch(s.conns, c) && t.conns.Keys == s.conns.Keys
    requires t.conns[c.hop].config == c && forall h <- s.conns :: h != c.hop ==> t.conns[h] == s.conns[h]
    requires t.sys.kernel.routes ==
             s.sys.kernel.routes + ToSet(c.allowed) - Less(s.conns[c.hop].config.allowed, c.allowed)
    ensures RoutesLive(t) <==> !Tramples(s, ActivateRequest(c))
  {
    if h, r :| h in s.conns && r in s.conns[h].config.allowed && h != c.hop &&
               r in s.conns[c.hop].config.allowed && r !in c.allowed {
      assert r in t.conns[h].config.allowed && r !in t.sys.kernel.routes;
    }
  }

  /** A step leaves the routes of all live hops installed exactly when it is no such switch. */
  lemma StepRoutesExactly(s: State, env: Env, e: Event)
    requires Reliable(env) && RoutesLive(s)
    ensures RoutesLive(Step(s, env, e)) <==> !Tramples(s, e)
  {
    match e {
      case ActivateRequest(c) => ActivateRoutesExactly(s, env, c);
      case DeactivateRequest(b) => DeactivateRoutes(s, env, b);
      case TimerFires(peers) =>
        PollKeepsCounts(s.(armed := false), peers, LiveHops(s.conns));
        PollKeepsConfigs(s.(armed := false), peers, LiveHops(s.conns));
    }
  }

  ghost predicate Considerate(env: Env, es: seq<Event>) {
    forall i | 0 <= i < |es| :: !Tramples(Run(Initial(), env, es[..i]), es[i])
  }

  /** While calls succeed, every run without such switches has the routes of all live hops installed. */
  lemma {:induction false} RunRoutesLive(env: Env, es: seq<Event>)
    requires Reliable(env) && Considerate(env, es)
    ensures RoutesLive(Run(Initial(), env, es))
  {
    if es != [] {
      var init := es[..|es| - 1];
      forall i | 0 <= i < |init| ensures !Tramples(Run(Initial(), env, init[..i]), init[i]) {
        assert init[..i] == es[..i];
      }
      RunRoutesLive(env, init);
      StepRoutesExactly(Run(Initial(), env, init), env, es[|es| - 1]);
    }
  }

  lemma SharedRouteTaken(t: State, env: Env, c: Config, d: Config, r: Prefix)
    requires Reliable(env) && RoutesLive(t) && c.hop != d.hop && r in c.allowed && r in d.allowed
    requires c.hop in t.conns && t.conns[c.hop].config == c && d.hop in t.conns && t.conns[d.hop].config == d
    ensures !RoutesLive(Activate(t, env, d.(allowed := [])).1)
  {
    var e := d.(allowed := []);
    assert r in t.conns[c.hop].config.allowed && r in t.conns[e.hop].config.allowed;
    assert Tramples(t, ActivateRequest(e));
    ActivateRoutesExactly(t, env, e);
  }

  /** A run of two hops over one route: when the second gives it up the first has lost it. */
  lemma SwitchTakesSharedRoute(env: Env, c: Config, d: Config, r: Prefix)
    requires Reliable(env) && c.hop != d.hop && r in c.allowed && r in d.allowed
    ensures var e := d.(allowed := []);
      !RoutesLive(Run(Initial(), env, [ActivateRequest(c), ActivateRequest(d), ActivateRequest(e)]))
  {
    var e := d.(allowed := []);
    FreshRoutes(Initial(), env, c);
    var s := Activate(Initial(), env, c).1;
    FreshRoutes(s, env, d);
    SharedRouteTaken(Activate(s, env, d).1, env, c, d, r);
    RunThree(env, ActivateRequest(c), ActivateRequest(d), ActivateRequest(e));
  }
}

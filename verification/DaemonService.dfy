/**
  The daemon as the object that runs: its fields are updated in place, call by
  call and loop by loop, and every operation is proved to have the effect that
  the `Daemon` module gives it.
*/
module DaemonService {
  import opened Net
  import opened Daemon
  import opened DaemonExclusions
  import opened DaemonPolling
  import opened DaemonSwitch
  import DaemonRestart
  import DaemonRoutes

  /** The WireGuard, DNS and address utilities of the platform. */
  class Backend {
    var sys: Sys
    const env: Env

    constructor (env: Env)
      ensures this.env == env
      ensures sys == Initial().sys
    {
      this.env := env;
      sys := Initial().sys;
    }

    method Do(op: Op) returns (ok: bool)
      modifies this
      ensures (ok, sys) == Call(old(sys), env, op)
    {
      var outcome := env.outcome(|sys.history|, op);
      ok := outcome.Ok?;
      if ok || outcome.applied {
        sys := sys.(kernel := Apply(sys.kernel, op));
      }
      sys := sys.(history := sys.history + [sys.kernel]);
    }

    function InterfaceExists(): bool
      reads this
    {
      sys.kernel.link.Some?
    }
  }

  class Service {
    const os: Backend
    var connections: map<Hop, Conn>
    var excluded: map<Prefix, int>
    var timerArmed: bool
    var signals: seq<Signal>
    var recorded: seq<Config>
    var tripped: bool
    ghost var events: seq<Event>    // everything handled so far

    ghost function Value(): State
      reads this, os
    {
      State(connections, excluded, timerArmed, os.sys, signals, recorded, tripped)
    }

    /** The object is where the events handled so far lead. */
    ghost predicate Valid()
      reads this, os
    {
      Value() == Run(Initial(), os.env, events)
    }

    constructor (os: Backend)
      requires os.sys == Initial().sys
      ensures this.os == os
      ensures Valid() && Value() == Initial() && events == []
    {
      this.os := os;
      connections, excluded := map[], map[];
      timerArmed, tripped := false, false;
      signals, recorded, events := [], [], [];
    }

    method AddExclusionRoute(p: Prefix) returns (ok: bool)
      modifies this`excluded, os
      ensures Value() == AddOne(old(Value()), os.env, p)
      ensures ok <==> p in excluded
    {
      if p in excluded {
        excluded := excluded[p := excluded[p] + 1];
        return true;
      }
      ok := os.Do(AddExclusion(p));
      if ok {
        excluded := excluded[p := 1];
      }
    }

    method DelExclusionRoute(p: Prefix) returns (ok: bool)
      modifies this`excluded, this`tripped, os
      ensures Value() == DelOne(old(Value()), os.env, p)
    {
      if p !in excluded {
        tripped := true;
      }
      if p in excluded && excluded[p] > 1 {
        excluded := excluded[p := excluded[p] - 1];
        return true;
      }
      excluded := excluded - {p};
      ok := os.Do(DeleteExclusion(p));
    }

    method AddExclusionRoutes(es: seq<Excluded>)
      modifies this`excluded, os
      ensures Value() == AddAll(old(Value()), os.env, es)
    {
      for i := 0 to |es|
        invariant AddAll(Value(), os.env, es[i..]) == AddAll(old(Value()), os.env, es)
      {
        assert es[i..][1..] == es[i + 1..];
        var _ := AddExclusionRoute(AddKey(es[i]));
      }
    }

    method DelExclusionRoutes(es: seq<Excluded>)
      modifies this`excluded, this`tripped, os
      ensures Value() == DelAll(old(Value()), os.env, es)
    {
      for i := 0 to |es|
        invariant DelAll(Value(), os.env, es[i..]) == DelAll(old(Value()), os.env, es)
      {
        assert es[i..][1..] == es[i + 1..];
        var _ := DelExclusionRoute(DelKey(es[i]));
      }
    }

    method UpdateRoutePrefixes(ps: seq<Prefix>) returns (ok: bool)
      modifies os
      ensures (ok, os.sys) == AddRoutes(old(os.sys), os.env, ps)
    {
      for i := 0 to |ps|
        invariant AddRoutes(os.sys, os.env, ps[i..]) == AddRoutes(old(os.sys), os.env, ps)
      {
        assert ps[i..][1..] == ps[i + 1..];
        ok := os.Do(AddRoute(ps[i]));
        if !ok {
          return;
        }
      }
      ok := true;
    }

    method DeleteRoutePrefixes(ps: seq<Prefix>, keep: seq<Prefix>)
      modifies os
      ensures os.sys == DropRoutes(old(os.sys), os.env, ps, keep)
    {
      for i := 0 to |ps|
        invariant DropRoutes(os.sys, os.env, ps[i..], keep) == DropRoutes(old(os.sys), os.env, ps, keep)
      {
        assert ps[i..][1..] == ps[i + 1..];
        if ps[i] !in keep {
          var _ := os.Do(DeleteRoute(ps[i]));
        }
      }
    }

    method MaybeUpdateResolvers(c: Config) returns (ok: bool)
      modifies os
      ensures (ok, os.sys) == UpdateResolvers(old(os.sys), os.env, c)
    {
      if !os.env.hasDns {
        return true;
      }
      if c.hop == MultiHopExit || c.hop == SingleHop {
        var resolvers := [c.dns];
        if c.dns == c.gatewayV4 {
          resolvers := resolvers + [c.gatewayV6];
        }
        assert resolvers == Resolvers(c);
        ok := os.Do(SetResolvers(resolvers));
        return;
      }
      return true;
    }

    method RestoreDns() returns (ok: bool)
      modifies os
      ensures (ok, os.sys) == Restore(old(os.sys), os.env)
    {
      ok := true;
      if os.env.hasDns {
        ok := os.Do(RestoreResolvers);
      }
    }

    method DeletePeers(hops: seq<Hop>)
      requires forall h <- hops :: h in connections
      modifies os
      ensures os.sys == TearDown(old(os.sys), os.env, connections, hops)
    {
      for i := 0 to |hops|
        invariant TearDown(os.sys, os.env, connections, hops[i..]) ==
                  TearDown(old(os.sys), os.env, connections, hops)
      {
        assert hops[i..][1..] == hops[i + 1..];
        var c := connections[hops[i]].config;
        DeleteRoutePrefixes(c.allowed, []);
        var _ := os.Do(DeletePeer(c));
      }
    }

    method ClearExclusionRoutes()
      modifies this`excluded, os
      ensures excluded == map[]
      ensures os.sys == ClearExclusions(old(os.sys), os.env, os.env.order(old(excluded).Keys))
    {
      var keys := os.env.order(excluded.Keys);
      for i := 0 to |keys|
        invariant ClearExclusions(os.sys, os.env, keys[i..]) == ClearExclusions(old(os.sys), os.env, keys)
      {
        assert keys[i..][1..] == keys[i + 1..];
        var _ := os.Do(DeleteExclusion(keys[i]));
      }
      excluded := map[];
    }

    method DeactivateAll(emitSignals: bool) returns (ok: bool)
      modifies this, os
      ensures events == old(events)
      ensures (ok, Value()) == Deactivate(old(Value()), os.env, emitSignals)
    {
      var hops := LiveHops(connections);
      if hops != [] {
        ok := os.Do(Hook(Down, connections[hops[0]].config));
        if !ok {
          return;
        }
      }
      if emitSignals {
        signals := signals + [Disconnected];
      }
      ok := RestoreDns();
      if !ok {
        return;
      }
      if !os.InterfaceExists() {
        return false;
      }
      assert (true, Value()) == Quiesce(old(Value()), os.env, emitSignals);
      DeletePeers(hops);
      ClearExclusionRoutes();
      ok := os.Do(DeleteInterface);
      if ok {
        connections := map[];
      }
    }

    method RecordConnection(c: Config)
      modifies this`connections, this`recorded
      ensures Value() == Record(old(Value()), c)
    {
      connections := connections[c.hop := Conn(c, None, |recorded|)];
      recorded := recorded + [c];
    }

    method SwitchTo(c: Config) returns (ok: bool)
      requires c.hop in connections
      modifies this, os
      ensures events == old(events)
      ensures (ok, Value()) == SwitchServer(old(Value()), os.env, c)
    {
      var last := connections[c.hop].config;
      AddExclusionRoutes(c.excluded);
      ok := os.Do(UpdatePeer(c));
      if !ok {
        return;
      }
      var _ := UpdateRoutePrefixes(c.allowed);
      DelExclusionRoutes(last.excluded);
      DeleteRoutePrefixes(last.allowed, c.allowed);
      if c.serverKey != last.serverKey {
        ok := os.Do(DeletePeer(last));
        if !ok {
          return;
        }
      }
      RecordConnection(c);
    }

    method ActivateBySwitching(c: Config) returns (ok: bool)
      requires c.hop in connections
      modifies this, os
      ensures events == old(events)
      ensures (ok, Value()) == SwitchPath(old(Value()), os.env, c)
    {
      ok := SwitchTo(c);
      if !ok {
        return;
      }
      ok := RestoreDns();
      if !ok {
        return;
      }
      ok := MaybeUpdateResolvers(c);
      if !ok {
        return;
      }
      ok := os.Do(Hook(Switch, c));
      if ok {
        RecordConnection(c);
        timerArmed := true;
      }
    }

    method BringInterfaceUp(c: Config) returns (ok: bool)
      modifies os
      ensures (ok, os.sys) == BringUp(old(os.sys), os.env, c)
    {
      ok := MaybeUpdateResolvers(c);
      if !ok {
        return;
      }
      if os.env.hasIp {
        ok := os.Do(AddAddresses(c));
        if !ok {
          return;
        }
        ok := os.Do(SetMtu(c));
        if !ok {
          return;
        }
      }
      ok := UpdateRoutePrefixes(c.allowed);
      if !ok {
        return;
      }
      ok := os.Do(Hook(Up, c));
    }

    method ActivateFresh(c: Config) returns (ok: bool)
      modifies this, os
      ensures events == old(events)
      ensures (ok, Value()) == FreshPath(old(Value()), os.env, c)
    {
      if !os.InterfaceExists() {
        ok := os.Do(AddInterface(c, !os.env.hasIp));
        if !ok {
          return;
        }
      }
      AddExclusionRoutes(c.excluded);
      ok := os.Do(UpdatePeer(c));
      if !ok {
        return;
      }
      ok := BringInterfaceUp(c);
      if ok {
        RecordConnection(c);
        timerArmed := true;
      }
    }

    method ActivateConfig(c: Config) returns (ok: bool)
      modifies this, os
      ensures events == old(events)
      ensures (ok, Value()) == Activate(old(Value()), os.env, c)
      decreases if c.hop in connections then 1 else 0
    {
      if c.hop !in connections {
        ok := ActivateFresh(c);
      } else if SupportsSwitch(connections, c) {
        ok := ActivateBySwitching(c);
      } else {
        ok := DeactivateAll(false);
        if ok {
          tripped := tripped || c.hop in connections;
          ok := ActivateConfig(c);
        }
      }
      if !ok {
        signals := signals + [ActivationFailure];
      }
    }

    method PollConnection(h: Hop, peers: seq<PeerStatus>) returns (pending: bool)
      requires h in connections
      modifies this`connections, this`signals
      ensures var (k, gs) := PollConn(old(connections[h]), old(signals), peers);
        connections == old(connections)[h := k] && signals == gs && pending == k.date.None?
    {
      if connections[h].date.Some? {
        assert connections == connections[h := connections[h]];
        return false;
      }
      for i := 0 to |peers|
        invariant h in connections && connections == old(connections)[h := connections[h]]
        invariant Absorb(connections[h], signals, peers[i..]) == Absorb(old(connections[h]), old(signals), peers)
        invariant connections[h].config == old(connections[h].config)
      {
        assert peers[i..][1..] == peers[i + 1..];
        var status := peers[i];
        if connections[h].config.serverKey == status.key && status.handshake != 0 {
          connections := connections[h := connections[h].(date := Some(status.handshake))];
          signals := signals + [Connected(connections[h].serial, status.key)];
        }
      }
      pending := connections[h].date.None?;
    }

    method PollHandshakes(peers: seq<PeerStatus>)
      modifies this
      ensures events == old(events)
      ensures Value() == CheckHandshake(old(Value()), peers)
    {
      timerArmed := false;
      var pending := 0;
      var hops := LiveHops(connections);
      ghost var start := Value();
      for i := 0 to |hops|
        invariant forall h <- hops :: h in connections
        invariant pending >= 0 && !timerArmed && events == old(events)
        invariant PollHops(Value().(armed := pending > 0), peers, hops[i..]) == PollHops(start, peers, hops)
      {
        ghost var s := Value().(armed := pending > 0);
        PollNext(s, peers, hops, i);
        var p := PollConnection(hops[i], peers);
        if p {
          pending := pending + 1;
        }
        assert Value().(armed := pending > 0) == Polled(s, peers, hops[i]);
      }
      if pending > 0 {
        timerArmed := true;
      }
    }

    /**
      Handles any event. What whole runs guarantee then holds of the object:
      every counted exclusion is installed; counts cover the live requests; each
      connection is announced at most once, for a reported handshake; polling
      goes on while a handshake is awaited; and while calls succeed the system
      is at rest, with the routes of all live hops installed.
    */
    method Handle(e: Event)
      requires Valid()
      modifies this, os
      ensures Valid() && events == old(events) + [e]
      ensures Value() == Step(old(Value()), os.env, e)
      ensures Backed(Value())
      ensures Dependable(os.env) && (forall x <- events :: PlainEvent(x)) ==> Counted(Value())
      ensures Dependable(os.env) && (forall x <- events :: ParsedEvent(x)) ==> Covering(Value())
      ensures Justified(Value().signals, events)
      ensures (forall x <- events :: DistinctEvent(x)) ==> Attested(Value())
      ensures NoLateFailure(os.env, events) ==> Polling(Value())
      ensures DaemonRestart.Reliable(os.env) && (forall x <- events :: PlainEvent(x)) ==>
        DaemonRestart.AtRest(Value(), os.env)
      ensures DaemonRestart.Reliable(os.env) && DaemonRoutes.Considerate(os.env, events) ==>
        DaemonRoutes.RoutesLive(Value())
    {
      match e {
        case ActivateRequest(c) =>
          var _ := ActivateConfig(c);
        case DeactivateRequest(emitSignals) =>
          var _ := DeactivateAll(emitSignals);
        case TimerFires(peers) =>
          if timerArmed {
            PollHandshakes(peers);
          }
      }
      assert (events + [e])[..|events|] == events;
      events := events + [e];
      Guarantees(os.env, events);
    }
  }

  /** The state after one hop of a poll. */
  function Polled(s: State, peers: seq<PeerStatus>, h: Hop): State
    requires h in s.conns
  {
    var (k, gs) := PollConn(s.conns[h], s.signals, peers);
    s.(conns := s.conns[h := k], signals := gs, armed := s.armed || k.date.None?)
  }

  lemma PollNext(s: State, peers: seq<PeerStatus>, hops: seq<Hop>, i: nat)
    requires i < |hops| && forall h <- hops :: h in s.conns
    ensures PollHops(s, peers, hops[i..]) == PollHops(Polled(s, peers, hops[i]), peers, hops[i + 1..])
  {
    assert hops[i..][1..] == hops[i + 1..] && hops[i..][0] == hops[i];
  }

  /** The guarantees of the whole-run theorems, together. */
  lemma Guarantees(env: Env, es: seq<Event>)
    ensures var s := Run(Initial(), env, es);
      && Backed(s)
      && (Dependable(env) && (forall x <- es :: PlainEvent(x)) ==> Counted(s))
      && (Dependable(env) && (forall x <- es :: ParsedEvent(x)) ==> Covering(s))
      && Justified(s.signals, es)
      && ((forall x <- es :: DistinctEvent(x)) ==> Attested(s))
      && (NoLateFailure(env, es) ==> Polling(s))
      && (DaemonRestart.Reliable(env) && (forall x <- es :: PlainEvent(x)) ==> DaemonRestart.AtRest(s, env))
      && (DaemonRestart.Reliable(env) && DaemonRoutes.Considerate(env, es) ==> DaemonRoutes.RoutesLive(s))
  {
    RunBacked(env, es);
    if Dependable(env) && forall x <- es :: PlainEvent(x) {
      RunCounted(env, es);
    }
    if Dependable(env) && forall x <- es :: ParsedEvent(x) {
      RunCovering(env, es);
    }
    RunJustified(env, es);
    if forall x <- es :: DistinctEvent(x) {
      RunAttested(env, es);
    }
    if NoLateFailure(env, es) {
      RunPolling(env, es);
    }
    if DaemonRestart.Reliable(env) && forall x <- es :: PlainEvent(x) {
      DaemonRestart.RunAtRest(env, es);
    }
    if DaemonRestart.Reliable(env) && DaemonRoutes.Considerate(env, es) {
      DaemonRoutes.RunRoutesLive(env, es);
    }
  }
}

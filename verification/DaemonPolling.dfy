/**
  Signals and handshake polling over whole runs: activation reports failure
  exactly when it fails, polling goes on while a handshake is awaited, and
  each recorded connection announces itself at most once.
*/
module DaemonPolling {
  import opened Net
  import opened Daemon
  import opened DaemonExclusions

  // ----- Activation and its failure signal -----

  lemma {:induction false} DelAllFrame(s: State, env: Env, es: seq<Excluded>)
    ensures var t := DelAll(s, env, es);
      t == s.(counts := t.counts, sys := t.sys, tripped := t.tripped)
    decreases |es|
  {
    if es != [] {
      DelAllFrame(DelOne(s, env, DelKey(es[0])), env, es[1..]);
    }
  }

  /** What neither path touches, and the connections each leaves behind. */
  lemma PathFrames(s: State, env: Env, c: Config)
    ensures var (ok, t) := FreshPath(s, env, c);
      && t.signals == s.signals
      && (if ok then t.conns == Record(s, c).conns && t.recorded == s.recorded + [c] && t.armed
          else t.conns == s.conns && t.recorded == s.recorded && t.armed == s.armed)
  {
    var y0 := if s.sys.kernel.link.None? then Call(s.sys, env, AddInterface(c, !env.hasIp)).1 else s.sys;
    AddAllFrame(s.(sys := y0), env, c.excluded);
  }

  lemma SwitchFrame(s: State, env: Env, c: Config)
    requires c.hop in s.conns
    ensures var (ok, t) := SwitchServer(s, env, c);
      t == (if ok then Record(s, c) else s).(counts := t.counts, sys := t.sys, tripped := t.tripped)
  {
    AddAllFrame(s, env, c.excluded);
    DelAllFrame(JoinServer(s, env, c).1, env, s.conns[c.hop].config.excluded);
  }

  /** The connections, records and timer that a switch attempt leaves. */
  lemma SwitchPathFrame(s: State, env: Env, c: Config)
    requires c.hop in s.conns
    ensures var (moved, u) := SwitchServer(s, env, c);
      var (ok, t) := SwitchPath(s, env, c);
      var base := if moved then Record(s, c) else s;
      var last := if ok then Establish(base, c) else base;
      && (ok ==> moved) && t.signals == s.signals
      && t.conns == last.conns && t.recorded == last.recorded && t.armed == last.armed
  {
    SwitchFrame(s, env, c);
  }

  lemma DeactivateFrame(s: State, env: Env, b: bool)
    ensures var (ok, t) := Deactivate(s, env, b);
      && t.recorded == s.recorded && t.armed == s.armed
      && (t.conns == s.conns || t.conns == map[])
      && (t.signals == s.signals || (b && t.signals == s.signals + [Disconnected]))
  {
    var t := Quiesce(s, env, b).1;
    assert t == s.(sys := t.sys, signals := t.signals);
  }

  lemma RestartReports(s: State, env: Env, c: Config)
    requires c.hop in s.conns && !SupportsSwitch(s.conns, c)
    ensures var (ok, t) := Activate(s, env, c);
      t.signals == (if ok then s.signals else if Deactivate(s, env, false).0
                    then s.signals + [ActivationFailure] + [ActivationFailure]
                    else s.signals + [ActivationFailure])
  {
    RestartIsFresh(s, env, c);
    DeactivateFrame(s, env, false);
    PathFrames(Deactivate(s, env, false).1, env, c);
  }

  /**
    Activation returns true exactly when it emits no failure; when it fails it
    emits the failure once, or twice when the fresh start after a tear-down
    fails.
  */
  lemma ActivateReports(s: State, env: Env, c: Config)
    ensures var (ok, t) := Activate(s, env, c);
      var again := c.hop in s.conns && !SupportsSwitch(s.conns, c) && Deactivate(s, env, false).0;
      t.signals == (if ok then s.signals else if again then s.signals + [ActivationFailure] + [ActivationFailure]
                    else s.signals + [ActivationFailure])
  {
    if c.hop !in s.conns {
      PathFrames(s, env, c);
    } else if SupportsSwitch(s.conns, c) {
      SwitchPathFrame(s, env, c);
    } else {
      RestartReports(s, env, c);
    }
  }

  // ----- The timer runs while a handshake is awaited -----

  predicate Awaiting(s: State) {
    exists h <- s.conns :: s.conns[h].date == None
  }

  predicate Polling(s: State) {
    Awaiting(s) ==> s.armed
  }

  /** The switch itself succeeds but its resolver or hook steps fail. */
  predicate LateSwitchFailure(s: State, env: Env, e: Event) {
    && e.ActivateRequest? && SupportsSwitch(s.conns, e.config)
    && SwitchServer(s, env, e.config).0
    && !Rewire(SwitchServer(s, env, e.config).1.sys, env, e.config).0
  }

  lemma {:induction false} PollArms(s: State, peers: seq<PeerStatus>, hops: seq<Hop>)
    requires forall h <- hops :: h in s.conns
    requires forall i, j | 0 <= i < j < |hops| :: hops[i] != hops[j]
    ensures var t := PollHops(s, peers, hops);
      && t.conns.Keys == s.conns.Keys
      && (forall h <- s.conns :: h !in hops ==> t.conns[h] == s.conns[h])
      && (t.armed <==> s.armed || exists h <- hops :: t.conns[h].date == None)
    decreases |hops|
  {
    if hops != [] {
      var h0 := hops[0];
      var (k, gs) := PollConn(s.conns[h0], s.signals, peers);
      var t := s.(conns := s.conns[h0 := k], signals := gs, armed := s.armed || k.date.None?);
      assert forall h :: h in hops <==> h == h0 || h in hops[1..];
      PollArms(t, peers, hops[1..]);
      assert h0 !in hops[1..];
    }
  }

  lemma LiveHopsAll(conns: map<Hop, Conn>)
    ensures forall h :: h in conns <==> h in LiveHops(conns)
    ensures var hs := LiveHops(conns); forall i, j | 0 <= i < j < |hs| :: hs[i] != hs[j]
  {
    forall h ensures h in conns <==> h in LiveHops(conns) {
      match h { case SingleHop => case MultiHopEntry => case MultiHopExit => }
    }
  }

  /**
    A step keeps polling alive exactly when it is not a switch that fails late
    with the timer stopped.
  */
  lemma StepPolling(s: State, env: Env, e: Event)
    requires Polling(s)
    ensures Polling(Step(s, env, e)) <==> s.armed || !LateSwitchFailure(s, env, e)
  {
    match e {
      case ActivateRequest(c) => ActivatePolling(s, env, c);
      case DeactivateRequest(b) =>
      case TimerFires(peers) =>
        var s0 := s.(armed := false);
        LiveHopsAll(s.conns);
        PollArms(s0, peers, LiveHops(s.conns));
    }
  }

  lemma ActivatePolling(s: State, env: Env, c: Config)
    requires Polling(s)
    ensures Polling(Activate(s, env, c).1) <==> s.armed || !LateSwitchFailure(s, env, ActivateRequest(c))
  {
    if c.hop !in s.conns {
      PathFrames(s, env, c);
    } else if SupportsSwitch(s.conns, c) {
      SwitchPathFrame(s, env, c);
      SwitchFrame(s, env, c);
      var t := Activate(s, env, c).1;
      if LateSwitchFailure(s, env, ActivateRequest(c)) {
        assert t.conns == Record(s, c).conns && t.armed == s.armed;
        assert t.conns[c.hop].date == None;
      }
    } else {
      RestartIsFresh(s, env, c);
      PathFrames(Deactivate(s, env, false).1, env, c);
    }
  }

  /** Every call succeeds but the hook that follows a switch. */
  ghost predicate SwitchHookFails(env: Env) {
    forall n, op :: env.outcome(n, op) == if op.Hook? && op.stage.Switch? then Fail(false) else Ok
  }

  lemma FirstActivation(env: Env, c: Config)
    requires SwitchHookFails(env) && c.allowed == []
    ensures var s := Activate(Initial(), env, c).1;
      s.conns == map[c.hop := Conn(c, None, 0)] && s.armed
  {
    var s := Initial();
    PathFrames(s, env, c);
    assert FreshPath(s, env, c).0;
  }

  lemma FirstHandshake(s: State, c: Config)
    requires s.conns == map[c.hop := Conn(c, None, 0)]
    ensures var t := CheckHandshake(s, [PeerStatus(c.serverKey, 7)]);
      t.conns == map[c.hop := Conn(c, Some(7), 0)] && !t.armed
  {
    var peers := [PeerStatus(c.serverKey, 7)];
    assert LiveHops(s.conns) == [c.hop] by {
      match c.hop { case SingleHop => case MultiHopEntry => case MultiHopExit => }
    }
    var k, gs := Conn(c, Some(7), 0), s.signals + [Connected(0, c.serverKey)];
    assert peers[1..] == [] && [c.hop][1..] == [];
    assert Absorb(s.conns[c.hop], s.signals, peers) == Absorb(k, gs, peers[1..]) == (k, gs);
    var t := State(s.conns[c.hop := k], s.counts, false, s.sys, gs, s.recorded, s.tripped);
    assert PollHops(s.(armed := false), peers, [c.hop]) == PollHops(t, peers, [c.hop][1..]) == t;
  }

  lemma SecondActivation(t: State, env: Env, c: Config)
    requires SwitchHookFails(env) && c.hop in t.conns && t.conns[c.hop].config == c
    ensures LateSwitchFailure(t, env, ActivateRequest(c))
  {
    assert JoinServer(t, env, c).0;
    assert LeaveServer(JoinServer(t, env, c).1, env, c, c).0;
  }

  /**
    A run that stops polling: after a first handshake the same server is
    activated again, the hook fails, and the new handshake is never seen.
  */
  lemma LateFailureStopsPolling(env: Env, c: Config)
    requires SwitchHookFails(env) && c.allowed == []
    ensures !Polling(Run(Initial(), env,
      [ActivateRequest(c), TimerFires([PeerStatus(c.serverKey, 7)]), ActivateRequest(c)]))
  {
    var peers := [PeerStatus(c.serverKey, 7)];
    var s := Activate(Initial(), env, c).1;
    FirstActivation(env, c);
    FirstHandshake(s, c);
    var t := CheckHandshake(s, peers);
    SecondActivation(t, env, c);
    StepPolling(t, env, ActivateRequest(c));
    RunThree(env, ActivateRequest(c), TimerFires(peers), ActivateRequest(c));
  }

  ghost predicate NoLateFailure(env: Env, es: seq<Event>) {
    forall i | 0 <= i < |es| :: !LateSwitchFailure(Run(Initial(), env, es[..i]), env, es[i])
  }

  /** Over every run without late switch failures, the timer runs while a handshake is awaited. */
  lemma {:induction false} RunPolling(env: Env, es: seq<Event>)
    requires NoLateFailure(env, es)
    ensures Polling(Run(Initial(), env, es))
  {
    if es != [] {
      var init := es[..|es| - 1];
      forall i | 0 <= i < |init| ensures !LateSwitchFailure(Run(Initial(), env, init[..i]), env, init[i]) {
        assert init[..i] == es[..i];
      }
      RunPolling(env, init);
      StepPolling(Run(Initial(), env, init), env, es[|es| - 1]);
    }
  }

  // ----- Each recorded connection announces itself at most once -----

  /** The completed handshakes the kernel reports for a key, in order. */
  function Handshakes(peers: seq<PeerStatus>, key: string): seq<int> {
    if peers == [] then []
    else (if peers[0].key == key && peers[0].handshake != 0 then [peers[0].handshake] else [])
         + Handshakes(peers[1..], key)
  }

  /** One poll dates a connection with its last handshake and announces each of them. */
  lemma {:induction false} AbsorbSummary(k: Conn, gs: seq<Signal>, peers: seq<PeerStatus>)
    ensures var hs := Handshakes(peers, k.config.serverKey);
      Absorb(k, gs, peers) ==
      (if hs == [] then k else k.(date := Some(hs[|hs| - 1])),
       gs + seq(|hs|, _ => Connected(k.serial, k.config.serverKey)))
    decreases |peers|
  {
    var hs := Handshakes(peers, k.config.serverKey);
    if peers == [] {
      assert gs + seq(|hs|, _ => Connected(k.serial, k.config.serverKey)) == gs;
    } else if peers[0].key == k.config.serverKey && peers[0].handshake != 0 {
      var g := Connected(k.serial, k.config.serverKey);
      AbsorbSummary(k.(date := Some(peers[0].handshake)), gs + [g], peers[1..]);
      assert hs == [peers[0].handshake] + Handshakes(peers[1..], k.config.serverKey);
      assert gs + [g] + seq(|hs| - 1, _ => g) == gs + seq(|hs|, _ => g);
    } else {
      assert hs == Handshakes(peers[1..], k.config.serverKey);
      AbsorbSummary(k, gs, peers[1..]);
    }
  }

  predicate DistinctKeys(peers: seq<PeerStatus>) {
    forall i, j | 0 <= i < j < |peers| :: peers[i].key != peers[j].key
  }

  lemma {:induction false} NoKeyNoHandshake(peers: seq<PeerStatus>, key: string)
    requires forall p <- peers :: p.key != key
    ensures Handshakes(peers, key) == []
  {
    if peers != [] {
      assert peers[0] in peers;
      NoKeyNoHandshake(peers[1..], key);
    }
  }

  lemma {:induction false} DistinctKeysOneHandshake(peers: seq<PeerStatus>, key: string)
    requires DistinctKeys(peers)
    ensures |Handshakes(peers, key)| <= 1
    ensures Handshakes(peers, key) != [] ==>
            exists p <- peers :: p == PeerStatus(key, Handshakes(peers, key)[0]) && p.handshake != 0
  {
    if peers != [] {
      DistinctKeysOneHandshake(peers[1..], key);
      assert forall p <- peers[1..] :: p in peers;
      if peers[0].key == key && peers[0].handshake != 0 {
        NoKeyNoHandshake(peers[1..], key);
        assert peers[0] == PeerStatus(key, Handshakes(peers, key)[0]);
      }
    }
  }

  predicate Announced(gs: seq<Signal>, serial: nat) {
    exists g <- gs :: g.Connected? && g.serial == serial
  }

  /** Live connections are recorded ones, each under a serial of its own. */
  predicate ConnsRecorded(conns: map<Hop, Conn>, recorded: seq<Config>) {
    && (forall h <- conns :: conns[h].serial < |recorded| && recorded[conns[h].serial] == conns[h].config)
    && (forall h, i | h in conns && i in conns && h != i :: conns[h].serial != conns[i].serial)
  }

  predicate WaitingSilent(conns: map<Hop, Conn>, gs: seq<Signal>) {
    forall h <- conns :: conns[h].date == None ==> !Announced(gs, conns[h].serial)
  }

  predicate OwnKeys(gs: seq<Signal>, recorded: seq<Config>) {
    forall g <- gs :: g.Connected? ==> g.serial < |recorded| && recorded[g.serial].serverKey == g.key
  }

  /**
    Announcements are of recorded connections under their own key and are
    pairwise distinct; a connection still waiting has made none.
  */
  predicate Attested(s: State) {
    && ConnsRecorded(s.conns, s.recorded)
    && WaitingSilent(s.conns, s.signals)
    && OwnKeys(s.signals, s.recorded)
    && OncePerSerial(s.signals)
  }

  predicate OncePerSerial(gs: seq<Signal>) {
    forall i, j | 0 <= i < j < |gs| && gs[i].Connected? && gs[j].Connected? :: gs[i].serial != gs[j].serial
  }

  lemma RecordAttested(s: State, c: Config)
    requires Attested(s)
    ensures Attested(Record(s, c))
  {
    var t := Record(s, c);
    assert forall h <- t.conns :: h == c.hop || (h in s.conns && t.conns[h] == s.conns[h]);
  }

  /** Signals other than announcements, and dropping connections, change nothing. */
  lemma QuietAttested(s: State, t: State, more: seq<Signal>)
    requires Attested(s) && t.recorded == s.recorded && t.signals == s.signals + more
    requires t.conns == s.conns || t.conns == map[]
    requires forall g <- more :: !g.Connected?
    ensures Attested(t)
  {
  }

  lemma FreshAttested(s: State, env: Env, c: Config)
    requires Attested(s)
    ensures Attested(FreshPath(s, env, c).1)
  {
    PathFrames(s, env, c);
    var (ok, t) := FreshPath(s, env, c);
    if ok {
      RecordAttested(s, c);
      QuietAttested(Record(s, c), t, []);
    } else {
      QuietAttested(s, t, []);
    }
  }

  lemma SwitchAttested(s: State, env: Env, c: Config)
    requires Attested(s) && c.hop in s.conns
    ensures Attested(SwitchPath(s, env, c).1)
  {
    SwitchPathFrame(s, env, c);
    var (ok, t) := SwitchPath(s, env, c);
    MovedAttested(s, t, c, SwitchServer(s, env, c).0, ok);
  }

  lemma MovedAttested(s: State, t: State, c: Config, moved: bool, ok: bool)
    requires Attested(s) && c.hop in s.conns && (ok ==> moved) && t.signals == s.signals
    requires var base := if moved then Record(s, c) else s;
      var last := if ok then Establish(base, c) else base;
      t.conns == last.conns && t.recorded == last.recorded
    ensures Attested(t)
  {
    if moved {
      RecordAttested(s, c);
      if ok {
        RecordAttested(Record(s, c), c);
        QuietAttested(Record(Record(s, c), c), t, []);
      } else {
        QuietAttested(Record(s, c), t, []);
      }
    } else {
      QuietAttested(s, t, []);
    }
  }

  lemma DeactivateAttested(s: State, env: Env, b: bool)
    requires Attested(s)
    ensures Attested(Deactivate(s, env, b).1)
  {
    DeactivateFrame(s, env, b);
    var t := Deactivate(s, env, b).1;
    QuietAttested(s, t, if t.signals == s.signals then [] else [Disconnected]);
  }

  lemma RestartAttested(s: State, env: Env, c: Config)
    requires Attested(s) && c.hop in s.conns && !SupportsSwitch(s.conns, c)
    ensures Attested(Activate(s, env, c).1)
  {
    RestartIsFresh(s, env, c);
    DeactivateAttested(s, env, false);
    var (ok, t) := Deactivate(s, env, false);
    if ok {
      FreshAttested(t, env, c);
      GuardAttested(FreshPath(t, env, c));
      GuardAttested(Guarded(FreshPath(t, env, c)));
    } else {
      GuardAttested((false, t));
    }
  }

  lemma ActivateAttested(s: State, env: Env, c: Config)
    requires Attested(s)
    ensures Attested(Activate(s, env, c).1)
  {
    if c.hop !in s.conns {
      FreshAttested(s, env, c);
      GuardAttested(FreshPath(s, env, c));
    } else if SupportsSwitch(s.conns, c) {
      SwitchAttested(s, env, c);
      GuardAttested(SwitchPath(s, env, c));
    } else {
      RestartAttested(s, env, c);
    }
  }

  lemma GuardAttested(r: (bool, State))
    requires Attested(r.1)
    ensures Attested(Guarded(r).1)
  {
    if !r.0 {
      QuietAttested(r.1, Guarded(r).1, [ActivationFailure]);
    }
  }

  /** One more announcement, of a recorded connection that had made none. */
  lemma AnnounceSignals(gs: seq<Signal>, recorded: seq<Config>, serial: nat)
    requires OncePerSerial(gs) && OwnKeys(gs, recorded) && serial < |recorded| && !Announced(gs, serial)
    ensures var hs := gs + [Connected(serial, recorded[serial].serverKey)];
      && OncePerSerial(hs) && OwnKeys(hs, recorded)
      && forall n :: n != serial ==> (Announced(hs, n) <==> Announced(gs, n))
  {
  }

  /** Dating a connection that was waiting, and announcing it. */
  lemma AnnounceAttested(s: State, h: Hop, t: State)
    requires Attested(s) && h in s.conns && s.conns[h].date == None && t.recorded == s.recorded
    requires h in t.conns && t.conns == s.conns[h := t.conns[h]]
    requires t.conns[h].date.Some? && t.conns[h] == s.conns[h].(date := t.conns[h].date)
    requires t.signals == s.signals + [Connected(s.conns[h].serial, s.conns[h].config.serverKey)]
    ensures Attested(t)
  {
    AnnounceSignals(s.signals, s.recorded, s.conns[h].serial);
    DatedConns(s.conns, h, t.conns[h].date, s.recorded);
    forall i <- t.conns | t.conns[i].date == None ensures !Announced(t.signals, t.conns[i].serial) {
      assert i != h && !Announced(s.signals, s.conns[i].serial);
    }
  }

  lemma DatedConns(conns: map<Hop, Conn>, h: Hop, date: Option<int>, recorded: seq<Config>)
    requires h in conns && ConnsRecorded(conns, recorded)
    ensures ConnsRecorded(conns[h := conns[h].(date := date)], recorded)
  {
  }

  /** With distinct peer keys, polling one connection announces it at most once. */
  lemma PollOneAttested(s: State, h: Hop, peers: seq<PeerStatus>, armed: bool)
    requires Attested(s) && h in s.conns && DistinctKeys(peers)
    ensures var (k, gs) := PollConn(s.conns[h], s.signals, peers);
      Attested(s.(conns := s.conns[h := k], signals := gs, armed := armed))
  {
    var k := s.conns[h];
    var hs := Handshakes(peers, k.config.serverKey);
    AbsorbSummary(k, s.signals, peers);
    DistinctKeysOneHandshake(peers, k.config.serverKey);
    var (k', gs) := PollConn(k, s.signals, peers);
    var t := s.(conns := s.conns[h := k'], signals := gs, armed := armed);
    if k.date.Some? || hs == [] {
      assert t.conns == s.conns && gs == s.signals + [];
      QuietAttested(s, t, []);
    } else {
      AnnounceAttested(s, h, t);
    }
  }

  lemma {:induction false} PollAttested(s: State, peers: seq<PeerStatus>, hops: seq<Hop>)
    requires Attested(s) && DistinctKeys(peers)
    requires forall h <- hops :: h in s.conns
    ensures Attested(PollHops(s, peers, hops))
    decreases |hops|
  {
    if hops != [] {
      var (k, gs) := PollConn(s.conns[hops[0]], s.signals, peers);
      var armed := s.armed || k.date.None?;
      PollOneAttested(s, hops[0], peers, armed);
      PollAttested(s.(conns := s.conns[hops[0] := k], signals := gs, armed := armed), peers, hops[1..]);
    }
  }

  predicate DistinctEvent(e: Event) {
    e.TimerFires? ==> DistinctKeys(e.peers)
  }

  /**
    Over every run whose polls report distinct peer keys, each recorded
    connection is announced at most once and only under its own public key.
    `RunJustified` adds that the key's handshake was reported.
  */
  lemma {:induction false} RunAttested(env: Env, es: seq<Event>)
    requires forall e <- es :: DistinctEvent(e)
    ensures Attested(Run(Initial(), env, es))
  {
    if es != [] {
      var s := Run(Initial(), env, es[..|es| - 1]);
      RunAttested(env, es[..|es| - 1]);
      assert es[|es| - 1] in es;
      match es[|es| - 1] {
        case ActivateRequest(c) => ActivateAttested(s, env, c);
        case DeactivateRequest(b) =>
          DeactivateAttested(s, env, b);
        case TimerFires(peers) =>
          QuietAttested(s, s.(armed := false), []);
          PollAttested(s.(armed := false), peers, LiveHops(s.conns));
      }
    }
  }

  // ----- Every announcement is for a reported handshake -----

  /** A poll that reports a completed handshake with the key. */
  predicate Reports(e: Event, key: string) {
    e.TimerFires? && exists p <- e.peers :: p.key == key && p.handshake != 0
  }

  /** Each announcement of a run answers to a poll of the run. */
  predicate Justified(gs: seq<Signal>, es: seq<Event>) {
    forall g <- gs :: g.Connected? ==> exists e <- es :: Reports(e, g.key)
  }

  /** Every announcement is an old one or for a handshake among the reported peers. */
  predicate Sourced(before: seq<Signal>, now: seq<Signal>, peers: seq<PeerStatus>) {
    forall g <- now :: g.Connected? ==> g in before || exists p <- peers :: p.key == g.key && p.handshake != 0
  }

  lemma {:induction false} AbsorbSourced(k: Conn, before: seq<Signal>, gs: seq<Signal>, peers: seq<PeerStatus>, i: nat)
    requires i <= |peers| && Sourced(before, gs, peers)
    ensures Sourced(before, Absorb(k, gs, peers[i..]).1, peers)
    decreases |peers| - i
  {
    if i < |peers| {
      assert peers[i..][1..] == peers[i + 1..] && peers[i..][0] == peers[i];
      if peers[i].key == k.config.serverKey && peers[i].handshake != 0 {
        assert peers[i] in peers;
        var hs := gs + [Connected(k.serial, peers[i].key)];
        AbsorbSourced(k.(date := Some(peers[i].handshake)), before, hs, peers, i + 1);
      } else {
        AbsorbSourced(k, before, gs, peers, i + 1);
      }
    }
  }

  lemma {:induction false} PollSourced(s: State, before: seq<Signal>, peers: seq<PeerStatus>, hops: seq<Hop>)
    requires Sourced(before, s.signals, peers) && forall h <- hops :: h in s.conns
    ensures Sourced(before, PollHops(s, peers, hops).signals, peers)
    decreases |hops|
  {
    if hops != [] {
      AbsorbSourced(s.conns[hops[0]], before, s.signals, peers, 0);
      assert peers[0..] == peers;
      var (k, gs) := PollConn(s.conns[hops[0]], s.signals, peers);
      PollSourced(s.(conns := s.conns[hops[0] := k], signals := gs, armed := s.armed || k.date.None?),
                  before, peers, hops[1..]);
    }
  }

  /** A step adds an announcement only for a handshake that its own poll reports. */
  lemma StepJustified(s: State, env: Env, e: Event, g: Signal)
    requires g.Connected? && g in Step(s, env, e).signals
    ensures g in s.signals || Reports(e, g.key)
  {
    match e {
      case ActivateRequest(c) => ActivateReports(s, env, c);
      case DeactivateRequest(b) => DeactivateFrame(s, env, b);
      case TimerFires(peers) =>
        if s.armed {
          PollSourced(s.(armed := false), s.signals, peers, LiveHops(s.conns));
        }
    }
  }

  /**
    Over every run, whatever the polls report, each announcement is for a
    non-zero handshake of its key that some poll of the run reported.
  */
  lemma {:induction false} RunJustified(env: Env, es: seq<Event>)
    ensures Justified(Run(Initial(), env, es).signals, es)
  {
    if es != [] {
      var init, e := es[..|es| - 1], es[|es| - 1];
      RunJustified(env, init);
      var s := Run(Initial(), env, init);
      forall g <- Run(Initial(), env, es).signals | g.Connected? ensures exists x <- es :: Reports(x, g.key) {
        StepJustified(s, env, e, g);
        if g in s.signals {
          var x :| x in init && Reports(x, g.key);
          assert x in es;
        } else {
          assert e in es;
        }
      }
    }
  }

  /** Two reports for one key announce a connection twice: distinct keys are needed. */
  lemma RepeatedKeyAnnouncesTwice(k: Conn, h: int)
    requires h != 0
    ensures var p := PeerStatus(k.config.serverKey, h);
      var g := Connected(k.serial, k.config.serverKey);
      Absorb(k, [], [p, p]).1 == [g, g]
  {
    var p := PeerStatus(k.config.serverKey, h);
    AbsorbSummary(k, [], [p, p]);
    assert [p, p][1..] == [p];
    assert Handshakes([p], k.config.serverKey) == [h];
    assert Handshakes([p, p], k.config.serverKey) == [h, h];
  }
}

/**
  The WireGuard daemon: activation, deactivation, in-place server switch,
  reference-counted exclusion routes and handshake polling.

  The functions of this module say what each operation does to the whole
  state, given how the operating system answers. The class of `DaemonService`
  carries the operations out step by step and is proved to do exactly that.
*/
module Daemon {
  import opened Net

  datatype Hop = SingleHop | MultiHopEntry | MultiHopExit

  /** An entry of the excluded-address list, as text of one of three shapes. */
  datatype Excluded =
    | Host(addr: Address)                   // a plain address
    | Subnet(addr: Address, len: nat)       // "address/n"
    | Unparsed(slash: bool)                 // anything else, with or without a slash

  /** The key under which an entry is added: the text is parsed as a prefix. */
  function AddKey(e: Excluded): Prefix {
    match e
    case Host(a) => HostPrefix(a)
    case Subnet(a, n) => Prefix(a, if a.V4? && n >= 32 then 32 else if a.V6? && n >= 128 then 128 else n)
    case Unparsed(slash) => Prefix(NullAddress, if slash then -1 else 999999)
  }

  /** The key under which it is removed: the text is parsed as a bare address. */
  function DelKey(e: Excluded): Prefix {
    match e
    case Host(a) => HostPrefix(a)
    case Subnet(_, _) => HostPrefix(NullAddress)
    case Unparsed(_) => HostPrefix(NullAddress)
  }

  function HostPrefix(a: Address): Prefix {
    Prefix(a, if a.V4? then 32 else 128)
  }

  /** Text that parses as a plain host address. */
  predicate Plain(e: Excluded) {
    e.Host? && e.addr != NullAddress
  }

  predicate AllPlain(es: seq<Excluded>) {
    forall e <- es :: Plain(e)
  }

  /** Entries as parsing yields them: an address that parses is not null. */
  predicate Parsed(es: seq<Excluded>) {
    forall e <- es :: e.Unparsed? || e.addr != NullAddress
  }

  datatype Config = Config(
    hop: Hop, privateKey: string, deviceV4: string, deviceV6: string,
    gatewayV4: string, gatewayV6: string, serverKey: string, endpoint: string,
    dns: string, mtu: int, junk: seq<string>,
    allowed: seq<Prefix>, excluded: seq<Excluded>)

  /** What creating the interface fixes until it is deleted. */
  datatype Link = Link(privateKey: string, deviceV4: string, deviceV6: string, mtu: int, junk: seq<string>)

  function LinkOf(c: Config): Link {
    Link(c.privateKey, c.deviceV4, c.deviceV6, c.mtu, c.junk)
  }

  /** Where addresses and MTU are set by utilities of their own, creation leaves them open. */
  function NewLink(c: Config, addressed: bool): Link {
    if addressed then LinkOf(c) else LinkOf(c).(deviceV4 := "", deviceV6 := "", mtu := 0)
  }

  /** The operating system state the daemon manages. */
  datatype Kernel = Kernel(
    link: Option<Link>, peers: map<string, Config>, routes: set<Prefix>,
    exclusions: set<Prefix>, resolvers: seq<string>)

  datatype Stage = Up | Down | Switch

  datatype Op =
    | AddInterface(config: Config, addressed: bool) | DeleteInterface
    | UpdatePeer(config: Config) | DeletePeer(config: Config)
    | AddRoute(prefix: Prefix) | DeleteRoute(prefix: Prefix)
    | AddExclusion(prefix: Prefix) | DeleteExclusion(prefix: Prefix)
    | SetResolvers(resolvers: seq<string>) | RestoreResolvers
    | AddAddresses(config: Config) | SetMtu(config: Config)
    | Hook(stage: Stage, config: Config)

  /** The effect of an operation that is carried out. */
  function Apply(k: Kernel, op: Op): Kernel {
    match op
    case AddInterface(c, addressed) => k.(link := Some(NewLink(c, addressed)), peers := map[])
    case DeleteInterface => k.(link := None, peers := map[], routes := {})
    case UpdatePeer(c) => k.(peers := k.peers[c.serverKey := c])
    case DeletePeer(c) => k.(peers := k.peers - {c.serverKey})
    case AddRoute(p) => k.(routes := k.routes + {p})
    case DeleteRoute(p) => k.(routes := k.routes - {p})
    case AddExclusion(p) => k.(exclusions := k.exclusions + {p})
    case DeleteExclusion(p) => k.(exclusions := k.exclusions - {p})
    case SetResolvers(rs) => k.(resolvers := rs)
    case RestoreResolvers => k.(resolvers := [])
    case AddAddresses(c) =>
      if k.link.Some? then k.(link := Some(k.link.value.(deviceV4 := c.deviceV4, deviceV6 := c.deviceV6))) else k
    case SetMtu(c) => if k.link.Some? then k.(link := Some(k.link.value.(mtu := c.mtu))) else k
    case Hook(_, _) => k
  }

  /** How a call ends: it reports success, or failure with or without an effect. */
  datatype Outcome = Ok | Fail(applied: bool)

  /**
    Everything the daemon does not decide: the outcome of the n-th call, the
    iteration order of the hash of exclusions, and what the platform supports.
  */
  datatype Env = Env(
    outcome: (nat, Op) -> Outcome, order: set<Prefix> -> seq<Prefix>,
    hasDns: bool, hasIp: bool)

  ghost predicate Enumerates(env: Env) {
    forall ps: set<Prefix> :: (set p | p in env.order(ps)) == ps
  }

  /** The system with every kernel state a call has left behind. */
  datatype Sys = Sys(kernel: Kernel, history: seq<Kernel>)

  function Call(y: Sys, env: Env, op: Op): (bool, Sys) {
    var o := env.outcome(|y.history|, op);
    var k := if o.Ok? || o.applied then Apply(y.kernel, op) else y.kernel;
    (o.Ok?, Sys(k, y.history + [k]))
  }

  /** A live connection; `serial` is its position among all recorded ones. */
  datatype Conn = Conn(config: Config, date: Option<int>, serial: nat)

  datatype Signal = Connected(serial: nat, key: string) | ActivationFailure | Disconnected

  /** `tripped` says that a debug assertion would have failed. */
  datatype State = State(
    conns: map<Hop, Conn>, counts: map<Prefix, int>, armed: bool,
    sys: Sys, signals: seq<Signal>, recorded: seq<Config>, tripped: bool)

  function Emit(s: State, g: Signal): State {
    s.(signals := s.signals + [g])
  }

  function Record(s: State, c: Config): State {
    s.(conns := s.conns[c.hop := Conn(c, None, |s.recorded|)], recorded := s.recorded + [c])
  }

  // ----- Exclusion routes -----

  function AddOne(s: State, env: Env, p: Prefix): State {
    if p in s.counts then
      s.(counts := s.counts[p := s.counts[p] + 1])
    else
      var (ok, y) := Call(s.sys, env, AddExclusion(p));
      if ok then s.(sys := y, counts := s.counts[p := 1]) else s.(sys := y)
  }

  function DelOne(s: State, env: Env, p: Prefix): State {
    var t := s.(tripped := s.tripped || p !in s.counts);
    if p in t.counts && t.counts[p] > 1 then
      t.(counts := t.counts[p := t.counts[p] - 1])
    else
      t.(counts := t.counts - {p}, sys := Call(t.sys, env, DeleteExclusion(p)).1)
  }

  function AddAll(s: State, env: Env, es: seq<Excluded>): State
    decreases |es|
  {
    if es == [] then s else AddAll(AddOne(s, env, AddKey(es[0])), env, es[1..])
  }

  function DelAll(s: State, env: Env, es: seq<Excluded>): State
    decreases |es|
  {
    if es == [] then s else DelAll(DelOne(s, env, DelKey(es[0])), env, es[1..])
  }

  // ----- Tunnel routes and resolvers -----

  /** Installs routes up to the first failure. */
  function AddRoutes(y: Sys, env: Env, ps: seq<Prefix>): (bool, Sys)
    decreases |ps|
  {
    if ps == [] then (true, y)
    else
      var (ok, z) := Call(y, env, AddRoute(ps[0]));
      if ok then AddRoutes(z, env, ps[1..]) else (false, z)
  }

  /** Removes the routes of `ps` that are not in `keep`. */
  function DropRoutes(y: Sys, env: Env, ps: seq<Prefix>, keep: seq<Prefix>): Sys
    decreases |ps|
  {
    if ps == [] then y
    else if ps[0] in keep then DropRoutes(y, env, ps[1..], keep)
    else DropRoutes(Call(y, env, DeleteRoute(ps[0])).1, env, ps[1..], keep)
  }

  function ClearExclusions(y: Sys, env: Env, ps: seq<Prefix>): Sys
    decreases |ps|
  {
    if ps == [] then y else ClearExclusions(Call(y, env, DeleteExclusion(ps[0])).1, env, ps[1..])
  }

  function Resolvers(c: Config): seq<string> {
    [c.dns] + if c.dns == c.gatewayV4 then [c.gatewayV6] else []
  }

  predicate SetsResolvers(env: Env, c: Config) {
    env.hasDns && !c.hop.MultiHopEntry?
  }

  function UpdateResolvers(y: Sys, env: Env, c: Config): (bool, Sys) {
    if SetsResolvers(env, c) then Call(y, env, SetResolvers(Resolvers(c))) else (true, y)
  }

  function Restore(y: Sys, env: Env): (bool, Sys) {
    if env.hasDns then Call(y, env, RestoreResolvers) else (true, y)
  }

  // ----- Deactivation -----

  /** The hops in use, in key order. */
  function LiveHops(conns: map<Hop, Conn>): seq<Hop> {
    (if SingleHop in conns then [SingleHop] else []) +
    (if MultiHopEntry in conns then [MultiHopEntry] else []) +
    (if MultiHopExit in conns then [MultiHopExit] else [])
  }

  function TearDown(y: Sys, env: Env, conns: map<Hop, Conn>, hops: seq<Hop>): Sys
    requires forall h <- hops :: h in conns
    decreases |hops|
  {
    if hops == [] then y
    else
      var c := conns[hops[0]].config;
      var z := DropRoutes(y, env, c.allowed, []);
      TearDown(Call(z, env, DeletePeer(c)).1, env, conns, hops[1..])
  }

  /** Announces the tear-down and restores the resolvers. */
  function Quiesce(s: State, env: Env, emitSignals: bool): (bool, State) {
    var hops := LiveHops(s.conns);
    var (ok, y) := if hops == [] then (true, s.sys) else Call(s.sys, env, Hook(Down, s.conns[hops[0]].config));
    if !ok then (false, s.(sys := y))
    else
      var (ok2, y2) := Restore(y, env);
      (ok2 && y2.kernel.link.Some?,
       s.(sys := y2, signals := if emitSignals then s.signals + [Disconnected] else s.signals))
  }

  /** Removes peers, routes, exclusions and the interface. */
  function Dismantle(s: State, env: Env): (r: (bool, State))
    ensures r.0 ==> r.1.conns == map[] && r.1.counts == map[]
  {
    var y := TearDown(s.sys, env, s.conns, LiveHops(s.conns));
    var y2 := ClearExclusions(y, env, env.order(s.counts.Keys));
    var (ok, y3) := Call(y2, env, DeleteInterface);
    (ok, s.(sys := y3, counts := map[], conns := if ok then map[] else s.conns))
  }

  function Deactivate(s: State, env: Env, emitSignals: bool): (r: (bool, State))
    ensures r.0 ==> r.1.conns == map[] && r.1.counts == map[]
  {
    var (ok, t) := Quiesce(s, env, emitSignals);
    if ok then Dismantle(t, env) else (false, t)
  }

  // ----- Switching and activation -----

  /** Whether the platform can move this hop to another server in place. */
  predicate SupportsSwitch(conns: map<Hop, Conn>, c: Config) {
    c.hop in conns &&
    var d := conns[c.hop].config;
    d.privateKey == c.privateKey && d.deviceV4 == c.deviceV4 && d.deviceV6 == c.deviceV6 &&
    d.gatewayV4 == c.gatewayV4 && d.gatewayV6 == c.gatewayV6
  }

  /** Adds the new server's exclusions, peer and routes. */
  function JoinServer(s: State, env: Env, c: Config): (bool, State) {
    var s1 := AddAll(s, env, c.excluded);
    var (ok, y) := Call(s1.sys, env, UpdatePeer(c));
    (ok, s1.(sys := if ok then AddRoutes(y, env, c.allowed).1 else y))
  }

  /** Removes the old server's exclusions, the routes not kept, and its peer. */
  function LeaveServer(s: State, env: Env, last: Config, c: Config): (bool, State) {
    var s1 := DelAll(s, env, last.excluded);
    var y := DropRoutes(s1.sys, env, last.allowed, c.allowed);
    var (ok, z) := if c.serverKey != last.serverKey then Call(y, env, DeletePeer(last)) else (true, y);
    (ok, s1.(sys := z))
  }

  function SwitchServer(s: State, env: Env, c: Config): (bool, State)
    requires c.hop in s.conns
  {
    var (ok, t) := JoinServer(s, env, c);
    if !ok then (false, t)
    else
      var (ok2, u) := LeaveServer(t, env, s.conns[c.hop].config, c);
      (ok2, if ok2 then Record(u, c) else u)
  }

  /** Records the connection and starts polling for its handshake. */
  function Establish(s: State, c: Config): State {
    Record(s, c).(armed := true)
  }

  /** The resolver and hook steps that follow a switch. */
  function Rewire(y: Sys, env: Env, c: Config): (bool, Sys) {
    var (ok1, y1) := Restore(y, env);
    if !ok1 then (false, y1)
    else
      var (ok2, y2) := UpdateResolvers(y1, env, c);
      if !ok2 then (false, y2) else Call(y2, env, Hook(Switch, c))
  }

  function SwitchPath(s: State, env: Env, c: Config): (bool, State)
    requires c.hop in s.conns
  {
    var (ok, t) := SwitchServer(s, env, c);
    if !ok then (false, t)
    else
      var (ok2, y) := Rewire(t.sys, env, c);
      var u := t.(sys := y);
      (ok2, if ok2 then Establish(u, c) else u)
  }

  function ConfigureLink(y: Sys, env: Env, c: Config): (bool, Sys) {
    if !env.hasIp then (true, y)
    else
      var (ok, z) := Call(y, env, AddAddresses(c));
      if ok then Call(z, env, SetMtu(c)) else (false, z)
  }

  /** The interface-level steps of a fresh activation, after the peer exists. */
  function BringUp(y: Sys, env: Env, c: Config): (bool, Sys) {
    var (ok1, y1) := UpdateResolvers(y, env, c);
    if !ok1 then (false, y1)
    else
      var (ok2, y2) := ConfigureLink(y1, env, c);
      if !ok2 then (false, y2)
      else
        var (ok3, y3) := AddRoutes(y2, env, c.allowed);
        if !ok3 then (false, y3) else Call(y3, env, Hook(Up, c))
  }

  function FreshPath(s: State, env: Env, c: Config): (bool, State) {
    var (ok0, y0) := if s.sys.kernel.link.None? then Call(s.sys, env, AddInterface(c, !env.hasIp)) else (true, s.sys);
    if !ok0 then (false, s.(sys := y0))
    else
      var t := AddAll(s.(sys := y0), env, c.excluded);
      var (ok1, y1) := Call(t.sys, env, UpdatePeer(c));
      var (ok2, y2) := if ok1 then BringUp(y1, env, c) else (false, y1);
      var u := t.(sys := y2);
      (ok2, if ok2 then Establish(u, c) else u)
  }

  /** A failed activation leaves through the guard that emits the failure. */
  function Guarded(r: (bool, State)): (bool, State) {
    if r.0 then r else (false, Emit(r.1, ActivationFailure))
  }

  function Activate(s: State, env: Env, c: Config): (bool, State)
    decreases if c.hop in s.conns then 1 else 0, 1
  {
    Guarded(
      if c.hop !in s.conns then FreshPath(s, env, c)
      else if SupportsSwitch(s.conns, c) then SwitchPath(s, env, c)
      else Restart(s, env, c))
  }

  /** A successful tear-down empties the map, so the second attempt is a fresh start. */
  function Restart(s: State, env: Env, c: Config): (bool, State)
    requires c.hop in s.conns
    decreases 1, 0
  {
    var (ok, t) := Deactivate(s, env, false);
    if ok then Activate(t.(tripped := t.tripped || c.hop in t.conns), env, c) else (false, t)
  }

  /** Activation recurses at most once: after the tear-down it is a fresh start. */
  lemma RestartIsFresh(s: State, env: Env, c: Config)
    requires c.hop in s.conns && !SupportsSwitch(s.conns, c)
    ensures var (ok, t) := Deactivate(s, env, false);
      Activate(s, env, c) == (if ok then Guarded(Guarded(FreshPath(t, env, c))) else Guarded((false, t)))
  {
    var (ok, t) := Deactivate(s, env, false);
    if ok {
      assert t.(tripped := t.tripped || c.hop in t.conns) == t;
      assert Activate(t, env, c) == Guarded(FreshPath(t, env, c));
    }
  }

  // ----- Handshake polling -----

  datatype PeerStatus = PeerStatus(key: string, handshake: int)

  /** Goes through the reported peers, dating the connection at each completed handshake. */
  function Absorb(k: Conn, signals: seq<Signal>, peers: seq<PeerStatus>): (Conn, seq<Signal>)
    decreases |peers|
  {
    if peers == [] then (k, signals)
    else if peers[0].key == k.config.serverKey && peers[0].handshake != 0 then
      Absorb(k.(date := Some(peers[0].handshake)), signals + [Connected(k.serial, peers[0].key)], peers[1..])
    else Absorb(k, signals, peers[1..])
  }

  /** A connection that already has a date is left alone. */
  function PollConn(k: Conn, signals: seq<Signal>, peers: seq<PeerStatus>): (Conn, seq<Signal>) {
    if k.date.Some? then (k, signals) else Absorb(k, signals, peers)
  }

  function PollHops(s: State, peers: seq<PeerStatus>, hops: seq<Hop>): State
    requires forall h <- hops :: h in s.conns
    decreases |hops|
  {
    if hops == [] then s
    else
      var (k, gs) := PollConn(s.conns[hops[0]], s.signals, peers);
      var t := s.(conns := s.conns[hops[0] := k], signals := gs, armed := s.armed || k.date.None?);
      PollHops(t, peers, hops[1..])
  }

  /** The timer is single shot: when it fires it is no longer armed. */
  function CheckHandshake(s: State, peers: seq<PeerStatus>): State {
    PollHops(s.(armed := false), peers, LiveHops(s.conns))
  }

  // ----- Runs -----

  datatype Event =
    | ActivateRequest(config: Config)
    | DeactivateRequest(emitSignals: bool)
    | TimerFires(peers: seq<PeerStatus>)

  function Step(s: State, env: Env, e: Event): State {
    match e
    case ActivateRequest(c) => Activate(s, env, c).1
    case DeactivateRequest(b) => Deactivate(s, env, b).1
    case TimerFires(peers) => if s.armed then CheckHandshake(s, peers) else s
  }

  function Run(s: State, env: Env, es: seq<Event>): State {
    if es == [] then s else Step(Run(s, env, es[..|es| - 1]), env, es[|es| - 1])
  }

  function Initial(): State {
    State(map[], map[], false, Sys(Kernel(None, map[], {}, {}, []), []), [], [], false)
  }

  lemma RunTwo(env: Env, d: Event, e: Event)
    ensures Run(Initial(), env, [d, e]) == Step(Step(Initial(), env, d), env, e)
  {
    assert [d, e][..1] == [d] && [d][..0] == [];
    assert Run(Initial(), env, [d]) == Step(Initial(), env, d);
  }

  lemma RunThree(env: Env, d: Event, e: Event, f: Event)
    ensures Run(Initial(), env, [d, e, f]) == Step(Step(Step(Initial(), env, d), env, e), env, f)
  {
    var es := [d, e, f];
    assert es[..2] == [d, e] && es[2] == f;
    RunTwo(env, d, e);
    assert Run(Initial(), env, es) == Step(Run(Initial(), env, es[..2]), env, es[2]);
  }
}

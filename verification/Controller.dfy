/**
  The client's end of the daemon connection: initialisation with a bounded
  number of reconnects, the commands that arrive, and the log callbacks.
*/
module Controller {
  import opened Net

  const MAX_RETRY := 10

  datatype Phase = Unknown | Initializing | Ready
  datatype Socket = Disconnected | Connecting | Connected

  datatype DateField = Missing | Invalid | Valid(date: int)

  /** A received command, with the fields it uses as far as they have the right type. */
  datatype Command =
    | NotAnObject
    | Untyped
    | Status(connected: Option<bool>, date: DateField, gateway: Option<string>, device: Option<string>,
             tx: Option<int>, rx: Option<int>)
    | PeerDisconnected
    | PeerConnected(key: Option<string>)
    | BackendFailure
    | Logs(text: Option<string>)
    | OtherType

  datatype Emission =
    | InitDone(ok: bool, connected: bool, date: Option<int>)
    | EmitDisconnected
    | EmitConnected(key: string)
    | StatusUpdated(gateway: string, device: string, tx: int, rx: int)

  /** A log callback answered: which request it came with, and the text it got. */
  datatype Answer = Answer(id: nat, text: string)

  datatype State = State(
    phase: Phase, retry: nat, timer: bool, socket: Socket, reconnects: nat,
    emitted: seq<Emission>, written: seq<string>,
    callback: Option<nat>, requests: nat, answers: seq<Answer>)

  function Initial(): State {
    State(Unknown, 0, false, Disconnected, 0, [], [], None, 0, [])
  }

  function Emit(s: State, e: Emission): State {
    s.(emitted := s.emitted + [e])
  }

  function Write(s: State, kind: string): State {
    s.(written := s.written + [kind])
  }

  // ----- Initialisation -----

  function DisconnectInternal(s: State): State {
    Emit(s.(phase := Ready, retry := 0, timer := false), EmitDisconnected)
  }

  function InitializeInternal(s: State): State {
    s.(phase := Initializing, socket := Connecting)
  }

  function ErrorOccurred(s: State): State {
    if s.phase == Initializing && s.retry < MAX_RETRY then
      s.(retry := s.retry + 1, timer := true)
    else if s.phase == Initializing then
      DisconnectInternal(Emit(s.(retry := s.retry + 1), InitDone(false, false, None)))
    else DisconnectInternal(s)
  }

  function CheckStatus(s: State): State {
    if s.phase == Unknown then s else Write(s, "status")
  }

  // ----- Commands -----

  function FirstStatus(s: State, c: Command): State
    requires c.Status?
  {
    var t := s.(phase := Ready);
    match c.connected
    case None => t
    case Some(false) => Emit(t, InitDone(true, false, None))
    case Some(true) => if c.date.Valid? then Emit(t, InitDone(true, true, Some(c.date.date))) else t
  }

  function LaterStatus(s: State, c: Command): State
    requires c.Status?
  {
    if c.gateway.Some? && c.device.Some? && c.tx.Some? && c.rx.Some? then
      Emit(s, StatusUpdated(c.gateway.value, c.device.value, c.tx.value, c.rx.value))
    else s
  }

  /** Newlines travel as bars. */
  function Bars(text: string): string {
    seq(|text|, i requires 0 <= i < |text| => if text[i] == '\n' then '|' else text[i])
  }

  function Newlines(text: string): string {
    seq(|text|, i requires 0 <= i < |text| => if text[i] == '|' then '\n' else text[i])
  }

  /** Log text arrives as it was exactly when it has no bar of its own. */
  lemma LogTextSurvives(text: string)
    ensures Newlines(Bars(text)) == text <==> '|' !in text
  {
  }

  function AnswerPending(s: State, text: string): State {
    match s.callback
    case None => s
    case Some(id) => s.(answers := s.answers + [Answer(id, text)], callback := None)
  }

  function ParseCommand(s: State, c: Command): State {
    if c.NotAnObject? || c.Untyped? then s
    else if s.phase == Initializing && c.Status? then FirstStatus(s, c)
    else if s.phase != Ready then s
    else match c {
      case Status(_, _, _, _, _, _) => LaterStatus(s, c)
      case PeerDisconnected => DisconnectInternal(s)
      case PeerConnected(Some(key)) => Emit(s, EmitConnected(key))
      case Logs(text) => AnswerPending(s, if text.Some? then Newlines(text.value) else "")
      case _ => s
    }
  }

  function ParseAll(s: State, cs: seq<Command>): State
    decreases |cs|
  {
    if cs == [] then s else ParseAll(ParseCommand(s, cs[0]), cs[1..])
  }

  // ----- Requests -----

  function GetLogs(s: State): State {
    var t := AnswerPending(s, "");
    var id := s.requests;
    var u := t.(requests := id + 1);
    if s.phase != Ready then u.(answers := u.answers + [Answer(id, "")])
    else Write(u.(callback := Some(id)), "logs")
  }

  function CleanupLogs(s: State): State {
    var t := AnswerPending(s, "");
    if s.phase != Ready then t else Write(t, "cleanlogs")
  }

  function Deactivate(s: State): State {
    Emit(if s.phase != Ready then s else Write(s, "deactivate"), EmitDisconnected)
  }

  // ----- Runs -----

  /** `SocketError` says whether the error leaves the socket usable. */
  datatype Event =
    | Initialize | TimerFires | SocketConnected | SocketDisconnected
    | SocketError(usable: bool) | Data(commands: seq<Command>)
    | LogsRequest | CleanupRequest | DeactivateRequest | StatusRequest

  /** What can happen: callers initialise once, data needs a connection, only an armed timer fires. */
  predicate Enabled(s: State, e: Event) {
    match e
    case Initialize => s.phase == Unknown
    case TimerFires => s.timer
    case SocketConnected => s.socket == Connecting
    case Data(_) => s.socket == Connected
    case _ => true
  }

  function Step(s: State, e: Event): State {
    match e
    case Initialize => InitializeInternal(s.(retry := 0))
    case TimerFires => InitializeInternal(s.(timer := false, reconnects := s.reconnects + 1))
    case SocketConnected => CheckStatus(s.(socket := Connected))
    case SocketDisconnected => Emit(s.(socket := Disconnected), EmitDisconnected)
    case SocketError(usable) => ErrorOccurred(if usable then s else s.(socket := Disconnected))
    case Data(cs) => ParseAll(s, cs)
    case LogsRequest => GetLogs(s)
    case CleanupRequest => CleanupLogs(s)
    case DeactivateRequest => Deactivate(s)
    case StatusRequest => CheckStatus(s)
  }

  function Run(s: State, es: seq<Event>): State
    decreases |es|
  {
    if es == [] then s else Run(Step(s, es[0]), es[1..])
  }

  /** Every event of a run can happen when it does. */
  predicate Possible(s: State, es: seq<Event>)
    decreases |es|
  {
    es == [] || (Enabled(s, es[0]) && Possible(Step(s, es[0]), es[1..]))
  }

  /** An error in the middle of initialisation that leaves the socket usable: a reply can overtake the timer. */
  predicate Overtakes(s: State, e: Event) {
    e.SocketError? && e.usable && s.socket != Disconnected && s.phase == Initializing && s.retry < MAX_RETRY
  }

  /** No event of a run is such an error. */
  predicate Calm(s: State, es: seq<Event>)
    decreases |es|
  {
    es == [] || (!Overtakes(s, es[0]) && Calm(Step(s, es[0]), es[1..]))
  }

  // ----- Bounded, single initialisation -----

  function InitCount(es: seq<Emission>): nat {
    if es == [] then 0 else InitCount(es[..|es| - 1]) + if es[|es| - 1].InitDone? then 1 else 0
  }

  predicate IsDelivery(e: Emission) {
    e.EmitConnected? || e.StatusUpdated?
  }

  function DeliveryCount(es: seq<Emission>): nat {
    if es == [] then 0 else DeliveryCount(es[..|es| - 1]) + if IsDelivery(es[|es| - 1]) then 1 else 0
  }

  /**
    What initialisation promises: at most ten timed reconnects, at most one
    result, and nothing delivered before the controller is ready.
  */
  predicate Promise(s: State) {
    && s.reconnects <= MAX_RETRY
    && InitCount(s.emitted) <= 1
    && (s.phase != Ready ==> DeliveryCount(s.emitted) == 0)
  }

  /** What keeps the promise, in terms of how many results and deliveries there have been. */
  predicate SoundWith(s: State, results: nat, deliveries: nat) {
    && (s.timer ==> s.phase == Initializing && s.socket == Disconnected)
    && (s.phase != Ready ==> s.reconnects + (if s.timer then 1 else 0) <= s.retry <= MAX_RETRY)
    && s.reconnects <= MAX_RETRY
    && results <= (if s.phase == Ready then 1 else 0)
    && (s.phase != Ready ==> deliveries == 0)
    && (s.phase == Unknown ==> s.reconnects == 0)
  }

  predicate Sound(s: State) {
    SoundWith(s, InitCount(s.emitted), DeliveryCount(s.emitted))
  }

  lemma EmitCounts(es: seq<Emission>, e: Emission)
    ensures InitCount(es + [e]) == InitCount(es) + (if e.InitDone? then 1 else 0)
    ensures DeliveryCount(es + [e]) == DeliveryCount(es) + (if IsDelivery(e) then 1 else 0)
  {
  }

  lemma EmitSound(s: State, e: Emission)
    requires SoundWith(s, InitCount(s.emitted) + (if e.InitDone? then 1 else 0),
                       DeliveryCount(s.emitted) + (if IsDelivery(e) then 1 else 0))
    ensures Sound(Emit(s, e))
  {
  }

  lemma DisconnectSound(s: State)
    requires InitCount(s.emitted) <= 1 && s.reconnects <= MAX_RETRY
    ensures Sound(DisconnectInternal(s))
  {
  }

  lemma FirstStatusSound(s: State, c: Command)
    requires Sound(s) && !s.timer && s.phase == Initializing && c.Status?
    ensures Sound(FirstStatus(s, c)) && !FirstStatus(s, c).timer
  {
  }

  lemma ReadyCommandSound(s: State, c: Command)
    requires Sound(s) && s.phase == Ready
    ensures var t := ParseCommand(s, c); Sound(t) && !t.timer && t.phase == Ready
  {
    match c {
      case Status(_, _, g, d, tx, rx) =>
        if g.Some? && d.Some? && tx.Some? && rx.Some? {
          EmitSound(s, StatusUpdated(g.value, d.value, tx.value, rx.value));
        }
      case PeerDisconnected => DisconnectSound(s);
      case PeerConnected(Some(key)) => EmitSound(s, EmitConnected(key));
      case _ =>
    }
  }

  lemma ParseSound(s: State, c: Command)
    requires Sound(s) && !s.timer
    ensures Sound(ParseCommand(s, c)) && !ParseCommand(s, c).timer
    ensures s.phase == Ready ==> ParseCommand(s, c).phase == Ready
  {
    if s.phase == Ready {
      ReadyCommandSound(s, c);
    } else if s.phase == Initializing && c.Status? {
      FirstStatusSound(s, c);
    } else {
      assert ParseCommand(s, c) == s;
    }
  }

  lemma {:induction false} ParseAllSound(s: State, cs: seq<Command>)
    requires Sound(s) && !s.timer
    ensures Sound(ParseAll(s, cs))
    ensures s.phase == Ready ==> ParseAll(s, cs).phase == Ready
    decreases |cs|
  {
    if cs != [] {
      ParseSound(s, cs[0]);
      ParseAllSound(ParseCommand(s, cs[0]), cs[1..]);
    }
  }

  lemma ErrorSound(s: State, usable: bool)
    requires Sound(s) && !Overtakes(s, SocketError(usable))
    ensures Sound(Step(s, SocketError(usable)))
    ensures s.phase == Ready ==> Step(s, SocketError(usable)).phase == Ready
  {
    var t := if usable then s else s.(socket := Disconnected);
    if s.phase != Initializing {
      DisconnectSound(t);
    } else if s.retry == MAX_RETRY {
      var u := t.(retry := t.retry + 1);
      EmitCounts(u.emitted, InitDone(false, false, None));
      DisconnectSound(Emit(u, InitDone(false, false, None)));
    } else {
      assert Step(s, SocketError(usable)) == t.(retry := t.retry + 1, timer := true);
    }
  }

  lemma StepSound(s: State, e: Event)
    requires Sound(s) && Enabled(s, e) && !Overtakes(s, e)
    ensures Sound(Step(s, e))
    ensures s.phase == Ready ==> Step(s, e).phase == Ready
  {
    match e {
      case SocketError(usable) => ErrorSound(s, usable);
      case Data(cs) => ParseAllSound(s, cs);
      case SocketDisconnected => EmitSound(s.(socket := Disconnected), EmitDisconnected);
      case DeactivateRequest => EmitSound(if s.phase != Ready then s else Write(s, "deactivate"), EmitDisconnected);
      case LogsRequest => assert GetLogs(s).emitted == s.emitted;
      case CleanupRequest => assert CleanupLogs(s).emitted == s.emitted;
      case _ =>
    }
  }

  /** Soundness lasts over every possible calm run, and so does being ready. */
  lemma {:induction false} RunSound(s: State, es: seq<Event>)
    requires Sound(s) && Possible(s, es) && Calm(s, es)
    ensures Sound(Run(s, es))
    ensures s.phase == Ready ==> Run(s, es).phase == Ready
    decreases |es|
  {
    if es != [] {
      StepSound(s, es[0]);
      RunSound(Step(s, es[0]), es[1..]);
    }
  }

  /**
    Over every possible run without overtaking errors: at most ten timed
    reconnects, at most one initialisation result, and nothing delivered before
    the controller is ready.
  */
  lemma RunKeepsPromise(es: seq<Event>)
    requires Possible(Initial(), es) && Calm(Initial(), es)
    ensures Promise(Run(Initial(), es))
  {
    RunSound(Initial(), es);
  }

  /** Once ready, always ready: initialisation is never entered again. */
  lemma ReadyForever(es: seq<Event>, fs: seq<Event>)
    requires Possible(Initial(), es) && Calm(Initial(), es) && Run(Initial(), es).phase == Ready
    requires Possible(Run(Initial(), es), fs) && Calm(Run(Initial(), es), fs)
    ensures Run(Run(Initial(), es), fs).phase == Ready
  {
    RunSound(Initial(), es);
    RunSound(Run(Initial(), es), fs);
  }

  /** A first status reply, the VPN being off. */
  const OFF := Status(Some(false), Missing, None, None, None, None)

  lemma OneReply(s: State)
    requires s.phase == Initializing
    ensures Step(s, Data([OFF])) == Emit(s.(phase := Ready), InitDone(true, false, None))
  {
    assert [OFF][1..] == [];
    assert ParseAll(ParseCommand(s, OFF), []) == ParseCommand(s, OFF);
  }

  /** The reply arrives, then the timer fires, the socket connects and the reply arrives again. */
  const REPLY_TWICE := [Data([OFF]), TimerFires, SocketConnected, Data([OFF])]

  function Continuation(t: State): seq<Event> {
    if t.socket == Connecting then [SocketConnected] + REPLY_TWICE else REPLY_TWICE
  }

  lemma ReplyTwice(t: State)
    requires t.phase == Initializing && t.timer && t.socket == Connected && InitCount(t.emitted) == 0
    ensures Possible(t, REPLY_TWICE) && Calm(t, REPLY_TWICE)
    ensures InitCount(Run(t, REPLY_TWICE).emitted) == 2
  {
    OneReply(t);
    var t1 := Step(t, Data([OFF]));
    EmitCounts(t.emitted, InitDone(true, false, None));
    var t2 := Step(t1, TimerFires);
    var t3 := Step(t2, SocketConnected);
    assert t3.emitted == t1.emitted && t3.phase == Initializing;
    OneReply(t3);
    var t4 := Step(t3, Data([OFF]));
    EmitCounts(t3.emitted, InitDone(true, false, None));
    var es3: seq<Event> := [Data([OFF])];
    var es2 := [SocketConnected] + es3;
    var es1 := [TimerFires] + es2;
    assert REPLY_TWICE == [Data([OFF])] + es1;
    assert REPLY_TWICE[1..] == es1 && es1[1..] == es2 && es2[1..] == es3 && es3[1..] == [];
    assert Run(t3, es3) == t4 && Possible(t3, es3) && Calm(t3, es3);
    assert Run(t2, es2) == t4 && Possible(t2, es2) && Calm(t2, es2);
    assert Run(t1, es1) == t4 && Possible(t1, es1) && Calm(t1, es1);
  }

  /** After an overtaking error from any sound state, initialisation can be reported twice. */
  lemma OvertakingReportsTwice(s: State, e: Event)
    requires Sound(s) && Overtakes(s, e)
    ensures var t := Step(s, e);
      && Possible(t, Continuation(t)) && Calm(t, Continuation(t))
      && InitCount(Run(t, Continuation(t)).emitted) == 2
  {
    var t := Step(s, e);
    if t.socket == Connecting {
      var u := Step(t, SocketConnected);
      ReplyTwice(u);
      assert Continuation(t)[1..] == REPLY_TWICE;
    } else {
      ReplyTwice(t);
    }
  }

  /** A possible run from the start, with one usable error, that reports twice. */
  lemma OvertakenFromStart()
    ensures var t := Step(Step(Initial(), Initialize), SocketError(true));
      var es := [Initialize, SocketError(true)] + Continuation(t);
      Possible(Initial(), es) && InitCount(Run(Initial(), es).emitted) == 2
  {
    var s := Step(Initial(), Initialize);
    OvertakingReportsTwice(s, SocketError(true));
    var t := Step(s, SocketError(true));
    var es := [Initialize, SocketError(true)] + Continuation(t);
    assert es[1..] == [SocketError(true)] + Continuation(t) && es[1..][1..] == Continuation(t);
  }

  /** Every possible calm future of a state keeps the promise. */
  ghost predicate SafeAfter(t: State) {
    forall es | Possible(t, es) && Calm(t, es) :: Promise(Run(t, es))
  }

  /** A possible step from a sound state leaves the promise safe exactly when it does not overtake. */
  lemma StepKeepsPromiseExactly(s: State, e: Event)
    requires Sound(s) && Enabled(s, e)
    ensures SafeAfter(Step(s, e)) <==> !Overtakes(s, e)
  {
    var t := Step(s, e);
    if Overtakes(s, e) {
      OvertakingReportsTwice(s, e);
      assert !Promise(Run(t, Continuation(t)));
    } else {
      StepSound(s, e);
      forall es | Possible(t, es) && Calm(t, es) ensures Promise(Run(t, es)) {
        RunSound(t, es);
      }
    }
  }

  // ----- Log callbacks are conserved -----

  /** The requests answered are the first ones, in order, and at most one is outstanding. */
  predicate Conserved(s: State) {
    && (forall i | 0 <= i < |s.answers| :: s.answers[i].id == i)
    && (s.callback.None? ==> s.requests == |s.answers|)
    && (s.callback.Some? ==> s.callback.value == |s.answers| && s.requests == |s.answers| + 1)
  }

  lemma {:induction false} ParseAllConserved(s: State, cs: seq<Command>)
    requires Conserved(s)
    ensures Conserved(ParseAll(s, cs))
    decreases |cs|
  {
    if cs != [] {
      ParseAllConserved(ParseCommand(s, cs[0]), cs[1..]);
    }
  }

  lemma StepConserved(s: State, e: Event)
    requires Conserved(s)
    ensures Conserved(Step(s, e))
  {
    match e {
      case Data(cs) => ParseAllConserved(s, cs);
      case LogsRequest => assert Conserved(AnswerPending(s, ""));
      case CleanupRequest => assert Conserved(AnswerPending(s, ""));
      case _ =>
    }
  }

  /**
    In every run each log callback is called at most once, in the order of the
    requests, and the calls made are the requests less the one outstanding.
  */
  lemma {:induction false} RunConserved(s: State, es: seq<Event>)
    requires Conserved(s)
    ensures Conserved(Run(s, es))
    decreases |es|
  {
    if es != [] {
      StepConserved(s, es[0]);
      RunConserved(Step(s, es[0]), es[1..]);
    }
  }

  /** One more event at the end of a run. */
  lemma {:induction false} RunSnoc(s: State, es: seq<Event>, e: Event)
    ensures Run(s, es + [e]) == Step(Run(s, es), e)
    ensures Possible(s, es + [e]) <==> Possible(s, es) && Enabled(Run(s, es), e)
    decreases |es|
  {
    if es == [] {
      assert [e][1..] == [] && es + [e] == [e];
    } else {
      assert (es + [e])[0] == es[0] && (es + [e])[1..] == es[1..] + [e];
      RunSnoc(Step(s, es[0]), es[1..], e);
    }
  }

  /** The controller as the object that handles the events. */
  class LocalSocketController {
    var phase: Phase
    var retry: nat
    var timer: bool
    var socket: Socket
    var reconnects: nat
    var emitted: seq<Emission>
    var written: seq<string>
    var callback: Option<nat>
    var requests: nat
    var answers: seq<Answer>
    ghost var events: seq<Event>    // everything handled so far

    ghost function Value(): State
      reads this
    {
      State(phase, retry, timer, socket, reconnects, emitted, written, callback, requests, answers)
    }

    /** The object is where the events handled so far, each possible in its turn, lead. */
    ghost predicate Valid()
      reads this
    {
      Value() == Run(Initial(), events) && Possible(Initial(), events)
    }

    constructor ()
      ensures Valid() && Value() == Initial() && events == []
    {
      phase, retry, timer, socket, reconnects := Unknown, 0, false, Disconnected, 0;
      emitted, written := [], [];
      callback, requests, answers, events := None, 0, [], [];
    }

    method DisconnectNow()
      modifies this
      ensures events == old(events)
      ensures Value() == DisconnectInternal(old(Value()))
    {
      phase := Ready;
      retry := 0;
      timer := false;
      emitted := emitted + [EmitDisconnected];
    }

    method OnError(usable: bool)
      modifies this
      ensures events == old(events)
      ensures Value() == Step(old(Value()), SocketError(usable))
    {
      if !usable {
        socket := Disconnected;
      }
      if phase == Initializing {
        retry := retry + 1;
        if retry - 1 < MAX_RETRY {
          timer := true;
          return;
        }
        emitted := emitted + [InitDone(false, false, None)];
      }
      DisconnectNow();
    }

    method ConnectToServer()
      modifies this`phase, this`socket
      ensures Value() == InitializeInternal(old(Value()))
    {
      phase := Initializing;
      socket := Connecting;
    }

    method Start()
      requires phase == Unknown
      modifies this
      ensures events == old(events)
      ensures Value() == Step(old(Value()), Initialize)
    {
      retry := 0;
      ConnectToServer();
    }

    method OnTimer()
      requires timer
      modifies this
      ensures events == old(events)
      ensures Value() == Step(old(Value()), TimerFires)
    {
      timer := false;
      reconnects := reconnects + 1;
      ConnectToServer();
    }

    method RequestStatus()
      modifies this`written
      ensures Value() == CheckStatus(old(Value()))
    {
      if phase == Ready || phase == Initializing {
        written := written + ["status"];
      }
    }

    method OnConnected()
      requires socket == Connecting
      modifies this
      ensures events == old(events)
      ensures Value() == Step(old(Value()), SocketConnected)
    {
      socket := Connected;
      RequestStatus();
    }

    method OnCommand(c: Command)
      modifies this
      ensures events == old(events)
      ensures Value() == ParseCommand(old(Value()), c)
    {
      if c.NotAnObject? || c.Untyped? {
        return;
      }
      if phase == Initializing && c.Status? {
        phase := Ready;
        if c.connected.None? {
          return;
        }
        var date := None;
        if c.connected.value {
          if !c.date.Valid? {
            return;
          }
          date := Some(c.date.date);
        }
        emitted := emitted + [InitDone(true, c.connected.value, date)];
        return;
      }
      if phase != Ready {
        return;
      }
      match c {
        case Status(_, _, gateway, device, tx, rx) =>
          if gateway.None? || device.None? || tx.None? || rx.None? {
            return;
          }
          emitted := emitted + [StatusUpdated(gateway.value, device.value, tx.value, rx.value)];
        case PeerDisconnected =>
          DisconnectNow();
        case PeerConnected(key) =>
          if key.Some? {
            emitted := emitted + [EmitConnected(key.value)];
          }
        case Logs(text) =>
          if callback.Some? {
            answers := answers + [Answer(callback.value, if text.Some? then Newlines(text.value) else "")];
            callback := None;
          }
        case _ =>
      }
    }

    method OnData(cs: seq<Command>)
      modifies this
      ensures events == old(events)
      ensures Value() == Step(old(Value()), Data(cs))
    {
      for i := 0 to |cs|
        invariant ParseAll(Value(), cs[i..]) == ParseAll(old(Value()), cs)
        invariant events == old(events)
      {
        assert cs[i..][1..] == cs[i + 1..];
        OnCommand(cs[i]);
      }
    }

    method FlushCallback()
      modifies this`answers, this`callback
      ensures Value() == AnswerPending(old(Value()), "")
    {
      if callback.Some? {
        answers := answers + [Answer(callback.value, "")];
        callback := None;
      }
    }

    method GetBackendLogs() returns (id: nat)
      modifies this
      ensures events == old(events)
      ensures Value() == Step(old(Value()), LogsRequest) && id == old(requests)
    {
      id := requests;
      requests := requests + 1;
      FlushCallback();
      if phase != Ready {
        answers := answers + [Answer(id, "")];
        return;
      }
      callback := Some(id);
      written := written + ["logs"];
    }

    method CleanupBackendLogs()
      modifies this
      ensures events == old(events)
      ensures Value() == Step(old(Value()), CleanupRequest)
    {
      FlushCallback();
      if phase != Ready {
        return;
      }
      written := written + ["cleanlogs"];
    }

    method RequestDeactivation()
      modifies this
      ensures events == old(events)
      ensures Value() == Step(old(Value()), DeactivateRequest)
    {
      if phase == Ready {
        written := written + ["deactivate"];
      }
      emitted := emitted + [EmitDisconnected];
    }

    /**
      Handles any event that can happen. What whole runs guarantee then holds
      of the object: log callbacks are conserved, and initialisation keeps its
      promise unless an error has overtaken the timer.
    */
    method Handle(e: Event)
      requires Valid() && Enabled(Value(), e)
      modifies this
      ensures Valid() && events == old(events) + [e]
      ensures Value() == Step(old(Value()), e)
      ensures Conserved(Value())
      ensures Calm(Initial(), events) ==> Promise(Value())
    {
      match e {
        case Initialize => Start();
        case TimerFires => OnTimer();
        case SocketConnected => OnConnected();
        case SocketDisconnected =>
          socket := Disconnected;
          emitted := emitted + [EmitDisconnected];
        case SocketError(usable) => OnError(usable);
        case Data(cs) => OnData(cs);
        case LogsRequest => var _ := GetBackendLogs();
        case CleanupRequest => CleanupBackendLogs();
        case DeactivateRequest => RequestDeactivation();
        case StatusRequest => RequestStatus();
      }
      RunSnoc(Initial(), events, e);
      events := events + [e];
      RunConserved(Initial(), events);
      if Calm(Initial(), events) {
        RunKeepsPromise(events);
      }
    }
  }
}

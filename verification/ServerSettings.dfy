/**
  Reading and updating container and protocol configurations of a server, with
  the exact frame of each update.
*/
module ServerSettings {
  import opened Containers

  type Servers = seq<Json>

  function Server(servers: Servers, i: nat): Object {
    if i >= |servers| then map[] else ToObject(servers[i])
  }

  /** The container that an object of the array is for. */
  function Owner(o: Object): Container {
    FromName(ToText(Field(o, CONTAINER)))
  }

  /** The map read from an array; of two objects for one container the later wins. */
  function MapOf(items: seq<Json>): map<Container, Object> {
    if items == [] then map[]
    else
      var o := ToObject(items[|items| - 1]);
      MapOf(items[..|items| - 1])[Owner(o) := o]
  }

  function ContainersOf(servers: Servers, i: nat): map<Container, Object> {
    MapOf(ToArray(Field(Server(servers, i), CONTAINERS)))
  }

  /** The objects of a map as an array, in the order of the containers. */
  function ArrayOf(m: map<Container, Object>, cs: seq<Container>): seq<Json> {
    if cs == [] then []
    else ArrayOf(m, cs[..|cs| - 1]) + if cs[|cs| - 1] in m then [Obj(m[cs[|cs| - 1]])] else []
  }

  function Edit(servers: Servers, i: nat, o: Object): Servers {
    if i >= |servers| then servers else servers[i := Obj(o)]
  }

  function WithContainers(servers: Servers, i: nat, m: map<Container, Object>): Servers {
    Edit(servers, i, Server(servers, i)[CONTAINERS := Arr(ArrayOf(m, ALL_CONTAINERS))])
  }

  /** The configuration of a container in a map; none has none. */
  function Pick(m: map<Container, Object>, c: Container): Object {
    if c == NoContainer || c !in m then map[] else m[c]
  }

  function ConfigOf(servers: Servers, i: nat, c: Container): Object {
    Pick(ContainersOf(servers, i), c)
  }

  function Named(c: Container, config: Object): Object {
    config[CONTAINER := Str(ContainerName(c))]
  }

  function WithConfig(servers: Servers, i: nat, c: Container, config: Object): Servers {
    if c == NoContainer then servers
    else WithContainers(servers, i, ContainersOf(servers, i)[c := Named(c, config)])
  }

  function Protocol(config: Object, p: Proto): Object {
    ToObject(Field(config, ProtoName(p)))
  }

  function ProtocolOf(servers: Servers, i: nat, c: Container, p: Proto): Object {
    Protocol(ConfigOf(servers, i, c), p)
  }

  function WithProtocol(servers: Servers, i: nat, c: Container, p: Proto, config: Object): Servers {
    WithConfig(servers, i, c, ConfigOf(servers, i, c)[ProtoName(p) := Obj(config)])
  }

  function ClearedOne(servers: Servers, i: nat, c: Container, p: Proto): Servers {
    WithProtocol(servers, i, c, p, ProtocolOf(servers, i, c, p) - {LAST_CONFIG})
  }

  function ClearedAll(servers: Servers, i: nat, c: Container, ps: seq<Proto>): Servers {
    if ps == [] then servers
    else ClearedOne(ClearedAll(servers, i, c, ps[..|ps| - 1]), i, c, ps[|ps| - 1])
  }

  function Cleared(servers: Servers, i: nat, c: Container, p: Proto): Servers {
    if p == AnyProto then ClearedAll(servers, i, c, ProtocolsFor(c)) else ClearedOne(servers, i, c, p)
  }

  // ----- Array and map are inverse -----

  /** Every object is filed under the container it names. */
  predicate Filed(m: map<Container, Object>) {
    forall c <- m :: Owner(m[c]) == c
  }

  lemma {:induction false} MapOfFiled(items: seq<Json>)
    ensures Filed(MapOf(items))
  {
    if items != [] {
      MapOfFiled(items[..|items| - 1]);
    }
  }

  lemma MapOfSnoc(items: seq<Json>, o: Object)
    ensures MapOf(items + [Obj(o)]) == MapOf(items)[Owner(o) := o]
  {
  }

  function Restrict(m: map<Container, Object>, cs: seq<Container>): map<Container, Object> {
    map c | c in m && c in cs :: m[c]
  }

  lemma RestrictSnoc(m: map<Container, Object>, cs: seq<Container>, c: Container)
    ensures Restrict(m, cs + [c]) == if c in m then Restrict(m, cs)[c := m[c]] else Restrict(m, cs)
  {
  }

  lemma {:induction false} ArrayOfKnown(m: map<Container, Object>, cs: seq<Container>)
    requires Filed(m)
    ensures MapOf(ArrayOf(m, cs)) == Restrict(m, cs)
  {
    if cs != [] {
      var c, rest := cs[|cs| - 1], cs[..|cs| - 1];
      ArrayOfKnown(m, rest);
      assert cs == rest + [c];
      RestrictSnoc(m, rest, c);
      if c in m {
        MapOfSnoc(ArrayOf(m, rest), m[c]);
      } else {
        assert ArrayOf(m, rest) + [] == ArrayOf(m, rest);
      }
    }
  }

  /** Writing a map as an array and reading it back gives the map. */
  lemma ArrayRoundTrip(m: map<Container, Object>)
    requires Filed(m)
    ensures MapOf(ArrayOf(m, ALL_CONTAINERS)) == m
  {
    ArrayOfKnown(m, ALL_CONTAINERS);
    EveryContainer();
  }

  // ----- Frames -----

  /** Everything but the containers of server i is the same. */
  ghost predicate SameElsewhere(a: Servers, b: Servers, i: nat) {
    && |a| == |b|
    && (forall j | 0 <= j < |a| && j != i :: a[j] == b[j])
    && (forall key | key != CONTAINERS :: Field(Server(a, i), key) == Field(Server(b, i), key))
  }

  /**
    Setting a container's configuration: it reads back with its name set, every
    other container, server and field reads as before; out of range nothing
    changes.
  */
  lemma SetConfigFrame(servers: Servers, i: nat, c: Container, config: Object)
    ensures var after := WithConfig(servers, i, c, config);
      && SameElsewhere(servers, after, i)
      && (if c == NoContainer || i >= |servers| then after == servers
          else ContainersOf(after, i) == ContainersOf(servers, i)[c := Named(c, config)])
  {
    var m := ContainersOf(servers, i);
    var n := m[c := Named(c, config)];
    MapOfFiled(ToArray(Field(Server(servers, i), CONTAINERS)));
    NameRoundTrip(c);
    assert Filed(n);
    ArrayRoundTrip(n);
  }

  /** Other servers have the same containers. */
  lemma OtherServers(a: Servers, b: Servers, i: nat, j: nat)
    requires SameElsewhere(a, b, i) && j != i
    ensures ContainersOf(a, j) == ContainersOf(b, j)
  {
  }

  /** Reading back a configuration, and every other one. */
  lemma SetThenRead(servers: Servers, i: nat, c: Container, config: Object, j: nat, d: Container)
    requires i < |servers| && c != NoContainer
    ensures var after := WithConfig(servers, i, c, config);
      ConfigOf(after, j, d) == if j == i && d == c then Named(c, config) else ConfigOf(servers, j, d)
  {
    SetConfigFrame(servers, i, c, config);
    var after := WithConfig(servers, i, c, config);
    if j == i {
      PickUpdated(ContainersOf(servers, i), c, Named(c, config), d);
    } else {
      OtherServers(servers, after, i, j);
    }
  }

  lemma PickUpdated(m: map<Container, Object>, c: Container, o: Object, d: Container)
    requires c != NoContainer
    ensures Pick(m[c := o], d) == if d == c then o else Pick(m, d)
  {
  }

  /** What replacing one protocol's object does to the protocols of a configuration. */
  lemma ReplaceProtocol(config: Object, c: Container, p: Proto, o: Object, q: Proto)
    ensures Protocol(Named(c, config[ProtoName(p) := Obj(o)]), q) == if q == p then o else Protocol(config, q)
  {
    ProtoNameIsNoContainer(p);
    ProtoNameIsNoContainer(q);
    if ProtoName(p) == ProtoName(q) {
      ProtoNamesDiffer(p, q);
    }
  }

  /** A configuration in which one protocol was cleared. */
  function WithoutLast(config: Object, c: Container, p: Proto): Object {
    Named(c, config[ProtoName(p) := Obj(Protocol(config, p) - {LAST_CONFIG})])
  }

  /** Clearing one protocol changes the one configuration. */
  lemma ClearOneConfig(servers: Servers, i: nat, c: Container, p: Proto, j: nat, d: Container)
    requires i < |servers| && c != NoContainer
    ensures var after := ClearedOne(servers, i, c, p);
      && SameElsewhere(servers, after, i)
      && ConfigOf(after, j, d) ==
         if j == i && d == c then WithoutLast(ConfigOf(servers, i, c), c, p) else ConfigOf(servers, j, d)
  {
    var config := ConfigOf(servers, i, c);
    var next := config[ProtoName(p) := Obj(Protocol(config, p) - {LAST_CONFIG})];
    SetConfigFrame(servers, i, c, next);
    SetThenRead(servers, i, c, next, j, d);
  }

  /** A configuration after clearing protocols one by one. */
  function WithoutLasts(config: Object, c: Container, ps: seq<Proto>): Object {
    if ps == [] then config else WithoutLast(WithoutLasts(config, c, ps[..|ps| - 1]), c, ps[|ps| - 1])
  }

  /** Exactly the listed protocols lose their last configuration; other fields stay. */
  lemma {:induction false} WithoutLastsReads(config: Object, c: Container, ps: seq<Proto>, q: Proto, key: string)
    ensures var after := WithoutLasts(config, c, ps);
      && Protocol(after, q) == (if q in ps then Protocol(config, q) - {LAST_CONFIG} else Protocol(config, q))
      && (key != CONTAINER && (forall p <- ps :: key != ProtoName(p)) ==> Field(after, key) == Field(config, key))
  {
    if ps != [] {
      var rest, p := ps[..|ps| - 1], ps[|ps| - 1];
      assert ps == rest + [p];
      WithoutLastsReads(config, c, rest, q, key);
      WithoutLastsReads(config, c, rest, p, key);
      var mid := WithoutLasts(config, c, rest);
      ReplaceProtocol(mid, c, p, Protocol(mid, p) - {LAST_CONFIG}, q);
    }
  }

  lemma SameElsewhereTransitive(a: Servers, b: Servers, c: Servers, i: nat)
    requires SameElsewhere(a, b, i) && SameElsewhere(b, c, i)
    ensures SameElsewhere(a, c, i)
  {
  }

  lemma {:induction false} ClearAllConfig(servers: Servers, i: nat, c: Container, ps: seq<Proto>, j: nat, d: Container)
    requires i < |servers| && c != NoContainer
    ensures var after := ClearedAll(servers, i, c, ps);
      && SameElsewhere(servers, after, i)
      && ConfigOf(after, j, d) ==
         if j == i && d == c then WithoutLasts(ConfigOf(servers, i, c), c, ps) else ConfigOf(servers, j, d)
  {
    if ps != [] {
      var rest, p := ps[..|ps| - 1], ps[|ps| - 1];
      var mid := ClearedAll(servers, i, c, rest);
      ClearAllConfig(servers, i, c, rest, j, d);
      ClearAllConfig(servers, i, c, rest, i, c);
      ClearOneConfig(mid, i, c, p, j, d);
      SameElsewhereTransitive(servers, mid, ClearedOne(mid, i, c, p), i);
    }
  }

  /** The readings of a configuration before and after. */
  lemma ConfigReads(before: Object, after: Object, c: Container, ps: seq<Proto>, hit: bool, q: Proto, key: string)
    requires after == if hit then WithoutLasts(before, c, ps) else before
    ensures Protocol(after, q) == (if hit && q in ps then Protocol(before, q) - {LAST_CONFIG} else Protocol(before, q))
    ensures key != CONTAINER && (forall p <- ps :: key != ProtoName(p)) ==> Field(after, key) == Field(before, key)
  {
    WithoutLastsReads(before, c, ps, q, key);
  }

  /** Exactly the listed protocols of one container lose their last configuration. */
  lemma ClearAllReads(servers: Servers, i: nat, c: Container, ps: seq<Proto>, j: nat, d: Container, q: Proto, key: string)
    requires i < |servers| && c != NoContainer
    ensures var after := ClearedAll(servers, i, c, ps);
      && SameElsewhere(servers, after, i)
      && ProtocolOf(after, j, d, q) ==
         (if j == i && d == c && q in ps then ProtocolOf(servers, j, d, q) - {LAST_CONFIG}
          else ProtocolOf(servers, j, d, q))
      && ((j != i || d != c) ==> ConfigOf(after, j, d) == ConfigOf(servers, j, d))
      && (key != CONTAINER && (forall p <- ps :: key != ProtoName(p)) ==>
          Field(ConfigOf(after, j, d), key) == Field(ConfigOf(servers, j, d), key))
  {
    ClearAllConfig(servers, i, c, ps, j, d);
    ConfigReads(ConfigOf(servers, j, d), ConfigOf(ClearedAll(servers, i, c, ps), j, d), c, ps, j == i && d == c, q, key);
  }

  /**
    Clearing with the wildcard removes the last configuration from exactly the
    protocols of the container; every other protocol, container, server and
    field reads as before.
  */
  lemma ClearReads(servers: Servers, i: nat, c: Container, j: nat, d: Container, q: Proto, key: string)
    requires i < |servers|
    ensures var ps := ProtocolsFor(c);
      var after := Cleared(servers, i, c, AnyProto);
      && SameElsewhere(servers, after, i)
      && ProtocolOf(after, j, d, q) ==
         (if j == i && d == c && q in ps then ProtocolOf(servers, j, d, q) - {LAST_CONFIG}
          else ProtocolOf(servers, j, d, q))
      && ((j != i || d != c) ==> ConfigOf(after, j, d) == ConfigOf(servers, j, d))
      && (key != CONTAINER && (forall p <- ps :: key != ProtoName(p)) ==>
          Field(ConfigOf(after, j, d), key) == Field(ConfigOf(servers, j, d), key))
  {
    var ps := ProtocolsFor(c);
    if c == NoContainer {
      assert Cleared(servers, i, c, AnyProto) == ClearedAll(servers, i, c, ps) == servers;
    } else {
      ClearAllReads(servers, i, c, ps, j, d, q, key);
    }
  }

  /** The settings as the object that holds the servers. */
  class Settings {
    var servers: Servers

    constructor (servers: Servers)
      ensures this.servers == servers
    {
      this.servers := servers;
    }

    method EditServer(i: nat, o: Object) returns (ok: bool)
      modifies this
      ensures servers == Edit(old(servers), i, o) && (ok <==> i < |old(servers)|)
    {
      if i >= |servers| {
        return false;
      }
      servers := servers[i := Obj(o)];
      return true;
    }

    method ReadContainers(i: nat) returns (m: map<Container, Object>)
      ensures m == ContainersOf(servers, i)
    {
      var items := ToArray(Field(Server(servers, i), CONTAINERS));
      m := map[];
      for n := 0 to |items|
        invariant m == MapOf(items[..n])
      {
        assert items[..n + 1][..n] == items[..n];
        var o := ToObject(items[n]);
        var c := ContainerFromString(ToText(Field(o, CONTAINER)));
        m := m[c := o];
      }
      assert items[..|items|] == items;
    }

    method SetContainers(i: nat, m: map<Container, Object>)
      modifies this
      ensures servers == WithContainers(old(servers), i, m)
    {
      var s := Server(servers, i);
      var items: seq<Json> := [];
      for n := 0 to |ALL_CONTAINERS|
        invariant items == ArrayOf(m, ALL_CONTAINERS[..n])
      {
        assert ALL_CONTAINERS[..n + 1][..n] == ALL_CONTAINERS[..n];
        if ALL_CONTAINERS[n] in m {
          items := items + [Obj(m[ALL_CONTAINERS[n]])];
        }
      }
      assert ALL_CONTAINERS[..|ALL_CONTAINERS|] == ALL_CONTAINERS;
      var _ := EditServer(i, s[CONTAINERS := Arr(items)]);
    }

    method ContainerConfig(i: nat, c: Container) returns (o: Object)
      ensures o == ConfigOf(servers, i, c)
    {
      if c == NoContainer {
        return map[];
      }
      var m := ReadContainers(i);
      o := if c in m then m[c] else map[];
    }

    method SetContainerConfig(i: nat, c: Container, config: Object)
      modifies this
      ensures servers == WithConfig(old(servers), i, c, config)
    {
      if c == NoContainer {
        return;
      }
      var m := ReadContainers(i);
      m := m[c := config];
      m := m[c := m[c][CONTAINER := Str(ContainerName(c))]];
      assert m == ContainersOf(servers, i)[c := Named(c, config)];
      SetContainers(i, m);
    }

    method ProtocolConfig(i: nat, c: Container, p: Proto) returns (o: Object)
      ensures o == ProtocolOf(servers, i, c, p)
    {
      var config := ContainerConfig(i, c);
      o := ToObject(Field(config, ProtoName(p)));
    }

    method SetProtocolConfig(i: nat, c: Container, p: Proto, config: Object)
      modifies this
      ensures servers == WithProtocol(old(servers), i, c, p, config)
    {
      var o := ContainerConfig(i, c);
      SetContainerConfig(i, c, o[ProtoName(p) := Obj(config)]);
    }

    method ClearLastConnectionConfig(i: nat, c: Container, p: Proto)
      modifies this
      ensures servers == Cleared(old(servers), i, c, p)
      decreases p == AnyProto
    {
      if p == AnyProto {
        var ps := ProtocolsFor(c);
        NoWildcard(c);
        for n := 0 to |ps|
          invariant servers == ClearedAll(old(servers), i, c, ps[..n])
        {
          assert ps[..n + 1][..n] == ps[..n];
          assert ps[n] in ps;
          ClearLastConnectionConfig(i, c, ps[n]);
        }
        assert ps[..|ps|] == ps;
        return;
      }
      var o := ProtocolConfig(i, c, p);
      SetProtocolConfig(i, c, p, o - {LAST_CONFIG});
    }
  }
}

/**
  The nested server settings: an array of servers, each with an array of
  container objects that is rebuilt through a map on every update.
*/
module Containers {

  /** JSON as far as the settings look into it. */
  datatype Json = Null | Str(text: string) | Arr(items: seq<Json>) | Obj(fields: Object)

  type Object = map<string, Json>

  /** Conversions that yield something empty on the wrong type. */
  function ToObject(j: Json): Object {
    if j.Obj? then j.fields else map[]
  }

  function ToText(j: Json): string {
    if j.Str? then j.text else ""
  }

  function ToArray(j: Json): seq<Json> {
    if j.Arr? then j.items else []
  }

  function Field(o: Object, key: string): Json {
    if key in o then o[key] else Null
  }

  const CONTAINER := "container"
  const CONTAINERS := "containers"
  const LAST_CONFIG := "last_config"

  datatype Container =
    | NoContainer | Awg | WireGuard | OpenVpn | Cloak | ShadowSocks | Ipsec | Xray | SSXray
    | TorWebSite | Dns | Sftp | Socks5Proxy

  datatype Proto =
    | AnyProto | OpenVpnProto | ShadowSocksProto | CloakProto | WireGuardProto | AwgProto | Ikev2Proto | L2tpProto
    | XrayProto | SSXrayProto | TorWebSiteProto | DnsProto | SftpProto | Socks5ProxyProto

  const ALL_CONTAINERS :=
    [NoContainer, Awg, WireGuard, OpenVpn, Cloak, ShadowSocks, Ipsec, Xray, SSXray, TorWebSite, Dns, Sftp, Socks5Proxy]

  function ContainerName(c: Container): string {
    match c
    case NoContainer => "none"
    case Cloak => "amnezia-openvpn-cloak"
    case Awg => "amnezia-awg"
    case WireGuard => "amnezia-wireguard"
    case OpenVpn => "amnezia-openvpn"
    case ShadowSocks => "amnezia-shadowsocks"
    case Ipsec => "amnezia-ipsec"
    case Xray => "amnezia-xray"
    case SSXray => "amnezia-ssxray"
    case TorWebSite => "amnezia-torwebsite"
    case Dns => "amnezia-dns"
    case Sftp => "amnezia-sftp"
    case Socks5Proxy => "amnezia-socks5proxy"
  }

  /** The container with a name, or none. */
  function FromName(name: string): (c: Container) {
    FindName(name, ALL_CONTAINERS)
  }

  function FindName(name: string, cs: seq<Container>): Container {
    if cs == [] then NoContainer
    else if name == ContainerName(cs[0]) then cs[0] else FindName(name, cs[1..])
  }

  method ContainerFromString(name: string) returns (c: Container)
    ensures c == FromName(name)
  {
    for i := 0 to |ALL_CONTAINERS|
      invariant FindName(name, ALL_CONTAINERS[i..]) == FromName(name)
    {
      assert ALL_CONTAINERS[i..][1..] == ALL_CONTAINERS[i + 1..];
      c := ALL_CONTAINERS[i];
      if name == ContainerName(c) {
        return;
      }
    }
    c := NoContainer;
  }

  /** No two containers share a name. */
  lemma NamesDiffer(c: Container, d: Container)
    requires ContainerName(c) == ContainerName(d)
    ensures c == d
  {
  }

  lemma EveryContainer()
    ensures forall c: Container :: c in ALL_CONTAINERS
  {
    forall c: Container ensures c in ALL_CONTAINERS {
      var i := match c case NoContainer => 0 case Awg => 1 case WireGuard => 2 case OpenVpn => 3 case Cloak => 4
                       case ShadowSocks => 5 case Ipsec => 6 case Xray => 7 case SSXray => 8 case TorWebSite => 9
                       case Dns => 10 case Sftp => 11 case Socks5Proxy => 12;
      assert ALL_CONTAINERS[i] == c;
    }
  }

  /** Every container is found again under its name. */
  lemma NameRoundTrip(c: Container)
    ensures FromName(ContainerName(c)) == c
  {
    EveryContainer();
    FindNameFinds(c, ALL_CONTAINERS);
  }

  lemma {:induction false} FindNameFinds(c: Container, cs: seq<Container>)
    requires c in cs
    ensures FindName(ContainerName(c), cs) == c
  {
    if ContainerName(c) == ContainerName(cs[0]) {
      NamesDiffer(c, cs[0]);
    } else {
      FindNameFinds(c, cs[1..]);
    }
  }

  function DefaultProtocol(c: Container): Proto {
    match c
    case NoContainer => AnyProto
    case OpenVpn => OpenVpnProto
    case Cloak => CloakProto
    case ShadowSocks => ShadowSocksProto
    case WireGuard => WireGuardProto
    case Awg => AwgProto
    case Xray => XrayProto
    case Ipsec => Ikev2Proto
    case SSXray => SSXrayProto
    case TorWebSite => TorWebSiteProto
    case Dns => DnsProto
    case Sftp => SftpProto
    case Socks5Proxy => Socks5ProxyProto
  }

  function ProtocolsFor(c: Container): seq<Proto> {
    match c
    case NoContainer => []
    case OpenVpn => [OpenVpnProto]
    case ShadowSocks => [OpenVpnProto, ShadowSocksProto]
    case Cloak => [OpenVpnProto, ShadowSocksProto, CloakProto]
    case Ipsec => [Ikev2Proto]
    case Xray => [XrayProto]
    case SSXray => [SSXrayProto]
    case Dns => [DnsProto]
    case Sftp => [SftpProto]
    case Socks5Proxy => [Socks5ProxyProto]
    case _ => [DefaultProtocol(c)]
  }

  function ProtoName(p: Proto): string {
    match p
    case AnyProto => ""
    case OpenVpnProto => "openvpn"
    case ShadowSocksProto => "shadowsocks"
    case CloakProto => "cloak"
    case WireGuardProto => "wireguard"
    case AwgProto => "awg"
    case Ikev2Proto => "ikev2"
    case L2tpProto => "l2tp"
    case XrayProto => "xray"
    case SSXrayProto => "ssxray"
    case TorWebSiteProto => "torwebsite"
    case DnsProto => "dns"
    case SftpProto => "sftp"
    case Socks5ProxyProto => "socks5proxy"
  }

  /** The list of a container never contains the wildcard, so clearing it recurses one level. */
  lemma NoWildcard(c: Container)
    ensures AnyProto !in ProtocolsFor(c)
  {
  }

  /** No two protocols share a field name, and none is stored in the field of the container's name. */
  lemma ProtoNamesDiffer(p: Proto, q: Proto)
    requires ProtoName(p) == ProtoName(q)
    ensures p == q
  {
  }

  lemma ProtoNameIsNoContainer(p: Proto)
    ensures ProtoName(p) != CONTAINER
  {
  }
}

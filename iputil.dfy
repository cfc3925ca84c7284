/** `IpUtil.getLocalIpAddress`: the address shown for connecting to the
    stream. A Wi-Fi address in 192.168.0.0/16 on a `wlan` interface is
    preferred; failing that, any IPv4 site-local address on an interface
    that is up; failing that, or when enumerating the interfaces throws,
    the loopback address. */
module IpUtil {
  import opened Common

  /** `InetAddress`, by the three things the search asks of it. */
  datatype InetAddress = InetAddress(hostAddress: string, isLoopbackAddress: bool, isSiteLocalAddress: bool)

  /** `NetworkInterface`, with its addresses in enumeration order. */
  datatype NetworkInterface = NetworkInterface(name: string, isUp: bool, isLoopback: bool, addresses: seq<InetAddress>)

  const Localhost: string := "127.0.0.1"

  /** Which interfaces a pass looks at: the first pass (`wifi`) only those
      named `wlan…`; both only interfaces that are up and not loopback. */
  predicate InterfaceQualifies(ni: NetworkInterface, wifi: bool)
  {
    (wifi ==> StartsWith(ni.name, "wlan")) && ni.isUp && !ni.isLoopback
  }

  /** Which addresses a pass takes: non-loopback, site-local and not IPv6
      (no `:`); the first pass only `192.168.` addresses. */
  predicate AddressQualifies(a: InetAddress, wifi: bool)
  {
    !a.isLoopbackAddress && a.isSiteLocalAddress && ':' !in a.hostAddress &&
    (wifi ==> StartsWith(a.hostAddress, "192.168."))
  }

  /** Address `j` of interface `i` is one the pass returns when it gets
      there. */
  predicate Matches(ifaces: seq<NetworkInterface>, i: int, j: int, wifi: bool)
  {
    0 <= i < |ifaces| && 0 <= j < |ifaces[i].addresses| &&
    InterfaceQualifies(ifaces[i], wifi) && AddressQualifies(ifaces[i].addresses[j], wifi)
  }

  /** The position of the first qualifying address of one interface. */
  function FirstAddress(addrs: seq<InetAddress>, wifi: bool): (r: Option<nat>)
    ensures r.Some? ==> r.value < |addrs| && AddressQualifies(addrs[r.value], wifi)
    ensures r.Some? ==> forall j :: 0 <= j < r.value ==> !AddressQualifies(addrs[j], wifi)
    ensures r.None? ==> forall j :: 0 <= j < |addrs| ==> !AddressQualifies(addrs[j], wifi)
  {
    if addrs == [] then None
    else if AddressQualifies(addrs[0], wifi) then Some(0)
    else
      var t := FirstAddress(addrs[1..], wifi);
      if t.None? then None else Some(t.value + 1)
  }

  /** One pass of the search: the interface and address positions of the
      first match, in interface order and then address order. */
  function Pass(ifaces: seq<NetworkInterface>, wifi: bool): (r: Option<(nat, nat)>)
    ensures r.Some? ==> Matches(ifaces, r.value.0, r.value.1, wifi)
    ensures r.Some? ==> forall i, j :: 0 <= i < r.value.0 ==> !Matches(ifaces, i, j, wifi)
    ensures r.Some? ==> forall j :: 0 <= j < r.value.1 ==> !Matches(ifaces, r.value.0, j, wifi)
    ensures r.None? ==> forall i, j :: !Matches(ifaces, i, j, wifi)
  {
    if ifaces == [] then None
    else
      var here := if InterfaceQualifies(ifaces[0], wifi) then FirstAddress(ifaces[0].addresses, wifi) else None;
      if here.Some? then Some((0, here.value))
      else
        var t := Pass(ifaces[1..], wifi);
        assert forall i, j :: 1 <= i <= |ifaces[1..]| ==>
          Matches(ifaces, i, j, wifi) == Matches(ifaces[1..], i - 1, j, wifi);
        if t.None? then None else Some((t.value.0 + 1, t.value.1))
  }

  /** The host address a pass found. */
  function Found(ifaces: seq<NetworkInterface>, wifi: bool): Option<string>
  {
    var p := Pass(ifaces, wifi);
    if p.Some? then Some(ifaces[p.value.0].addresses[p.value.1].hostAddress) else None
  }

  /** `getLocalIpAddress`: the interfaces are `None` when enumerating them
      throws. */
  function GetLocalIpAddress(interfaces: Option<seq<NetworkInterface>>): string
  {
    if interfaces.None? then Localhost
    else
      var first := Found(interfaces.value, true);
      if first.Some? then first.value
      else
        var second := Found(interfaces.value, false);
        if second.Some? then second.value else Localhost
  }

  /** The address returned: a qualifying `wlan` 192.168 address if there is
      one (the first); else the first qualifying address on any interface;
      else, or when enumeration throws, the loopback address. */
  lemma GetLocalIpAddressSpec(interfaces: Option<seq<NetworkInterface>>)
    ensures interfaces.None? ==> GetLocalIpAddress(interfaces) == Localhost
    ensures interfaces.Some? && (exists i, j :: Matches(interfaces.value, i, j, true)) ==>
      exists i, j :: Matches(interfaces.value, i, j, true) &&
        GetLocalIpAddress(interfaces) == interfaces.value[i].addresses[j].hostAddress &&
        forall i', j' :: (i' < i || (i' == i && j' < j)) ==> !Matches(interfaces.value, i', j', true)
    ensures (interfaces.Some? && (forall i, j :: !Matches(interfaces.value, i, j, true)) &&
      (exists i, j :: Matches(interfaces.value, i, j, false))) ==>
      exists i, j :: Matches(interfaces.value, i, j, false) &&
        GetLocalIpAddress(interfaces) == interfaces.value[i].addresses[j].hostAddress &&
        forall i', j' :: (i' < i || (i' == i && j' < j)) ==> !Matches(interfaces.value, i', j', false)
    ensures interfaces.Some? && (forall i, j :: !Matches(interfaces.value, i, j, false)) ==>
      GetLocalIpAddress(interfaces) == Localhost
  {
    if interfaces.Some? {
      var ifaces := interfaces.value;
      var p := Pass(ifaces, true);
      if p.None? {
        var q := Pass(ifaces, false);
        if q.Some? {
          var i, j := q.value.0, q.value.1;
          assert Matches(ifaces, i, j, false);
        }
      } else {
        var i, j := p.value.0, p.value.1;
        assert Matches(ifaces, i, j, true);
        assert Matches(ifaces, i, j, false);
      }
    }
  }

  /** Whatever the interfaces, the address shown is never an IPv6 literal. */
  lemma NeverIpv6(interfaces: Option<seq<NetworkInterface>>)
    ensures ':' !in GetLocalIpAddress(interfaces)
  {
    assert ':' !in Localhost;
  }

  /** A site-local address on a `wlan` interface that starts with 192.168.
      wins over every other address, however early the other interface is
      listed. */
  lemma WlanWins(ifaces: seq<NetworkInterface>, i: nat, j: nat)
    requires Matches(ifaces, i, j, true)
    ensures var ip := GetLocalIpAddress(Some(ifaces));
      StartsWith(ip, "192.168.") &&
      exists k, l :: Matches(ifaces, k, l, true) && ip == ifaces[k].addresses[l].hostAddress &&
        StartsWith(ifaces[k].name, "wlan")
  {
    var p := Pass(ifaces, true);
    assert p.Some?;
    var k, l := p.value.0, p.value.1;
    assert Matches(ifaces, k, l, true);
  }
}

/**
 * Choosing the local network interface for a camera: IPv4 address and
 * netmask parsing as Python's `ipaddress` module does it, subnet membership
 * (prefix matching as in section 3.1 of RFC 4632), the interface for one
 * camera and the interface shared by most cameras. The list of interfaces
 * is a parameter instead of being read from the operating system.
 */
module NetworkInterface {
  import opened Wrappers
  import Text
  import opened Tally
  import opened NetMask

  /** A local interface: its name, IPv4 address, netmask and description. */
  datatype Interface = Interface(name: string, ip: string, netmask: string, description: string)

  /** The constructor: an empty description falls back to the name. */
  function NewInterface(name: string, ip: string, netmask: string, description: string): (r: Interface)
    ensures r.name == name && r.ip == ip && r.netmask == netmask
    ensures r.description == if description == "" then name else description
  {
    Interface(name, ip, netmask, if description == "" then name else description)
  }

  /**
   * One address the operating system reports: the interface it belongs to,
   * whether that interface is known to be down, whether it is IPv4, and
   * the address and netmask.
   */
  datatype HostAddress = HostAddress(iface: string, down: bool, ipv4: bool, address: string, netmask: string)

  /** Loopback (`127.`) and link-local (`169.254.`) addresses are never offered. */
  predicate Usable(ip: string)
  {
    !("127." <= ip) && !("169.254." <= ip)
  }

  /** The address is listed: its interface is not down, it is IPv4 and usable. */
  predicate Listed(a: HostAddress)
  {
    !a.down && a.ipv4 && Usable(a.address)
  }

  /** The interface an address is listed as: named after its interface. */
  function AsInterface(a: HostAddress): Interface
  {
    NewInterface(a.iface, a.address, a.netmask, a.iface)
  }

  /**
   * `get_network_interfaces` over the addresses the operating system
   * reports: the listed ones, in order, as interfaces.
   */
  function ListInterfaces(addrs: seq<HostAddress>): (r: seq<Interface>)
    ensures |r| <= |addrs|
    ensures forall k :: 0 <= k < |r| ==> Usable(r[k].ip) && r[k].description == r[k].name
    ensures forall k :: 0 <= k < |addrs| && Listed(addrs[k]) ==> AsInterface(addrs[k]) in r
    ensures forall i :: i in r ==> exists k :: 0 <= k < |addrs| && Listed(addrs[k]) && i == AsInterface(addrs[k])
  {
    if |addrs| == 0 then []
    else
      var rest := ListInterfaces(addrs[1..]);
      assert forall k :: 1 <= k < |addrs| ==> addrs[k] == addrs[1..][k - 1];
      if Listed(addrs[0]) then [AsInterface(addrs[0])] + rest else rest
  }

  /** The netmask assumed for every address when interfaces cannot be enumerated. */
  const FallbackNetmask: string := "255.255.255.0"

  /**
   * The fallback listing from the host name's addresses: every address but
   * loopback, as an interface named "default" with a /24 netmask.
   */
  function FallbackInterfaces(ips: seq<string>): (r: seq<Interface>)
    ensures |r| <= |ips|
    ensures forall k :: 0 <= k < |r| ==> !("127." <= r[k].ip) && r[k].name == "default" && r[k].netmask == FallbackNetmask
    ensures forall k :: 0 <= k < |r| ==> r[k].ip in ips && r[k].description == if r[k].ip == "" then "default" else r[k].ip
    ensures forall k :: 0 <= k < |ips| && !("127." <= ips[k]) ==> NewInterface("default", ips[k], FallbackNetmask, ips[k]) in r
  {
    if |ips| == 0 then []
    else
      var rest := FallbackInterfaces(ips[1..]);
      assert forall k :: 1 <= k < |ips| ==> ips[k] == ips[1..][k - 1];
      if !("127." <= ips[0]) then [NewInterface("default", ips[0], FallbackNetmask, ips[0])] + rest else rest
  }

  predicate AllDigits(s: string)
  {
    forall k :: 0 <= k < |s| ==> Text.IsDigit(s[k])
  }

  /** One octet of a dotted quad: one to three ASCII digits, no leading zero, at most 255. */
  function ParseOctet(s: string): (r: Option<nat>)
    ensures r.Some? ==> r.value <= 255
    ensures r.Some? ==> 1 <= |s| <= 3 && AllDigits(s) && (s[0] == '0' ==> s == "0")
  {
    if |s| == 0 || |s| > 3 || !AllDigits(s) then None
    else if s != "0" && s[0] == '0' then None
    else
      var v := Text.DigitsValue(s);
      if v > 255 then None else Some(v)
  }

  /** `IPv4Address(s)`: four octets separated by dots, as 32 bits; None where it raises. */
  function ParseAddress(s: string): (r: Option<seq<bool>>)
    ensures r.Some? ==> |r.value| == 32
    ensures r.Some? ==> |Text.Split(s, '.')| == 4
    ensures r.Some? ==> forall k :: 0 <= k < 4 ==> ParseOctet(Text.Split(s, '.')[k]).Some?
  {
    var parts := Text.Split(s, '.');
    if |s| == 0 || |parts| != 4 then None
    else
      var a := ParseOctet(parts[0]);
      var b := ParseOctet(parts[1]);
      var c := ParseOctet(parts[2]);
      var d := ParseOctet(parts[3]);
      if a.None? || b.None? || c.None? || d.None? then None
      else Some(Bits(a.value, 8) + Bits(b.value, 8) + Bits(c.value, 8) + Bits(d.value, 8))
  }

  /** Netmask in prefix-length form: ASCII digits, at most 32. */
  function ParsePrefixLength(s: string): (r: Option<nat>)
    ensures r.Some? ==> r.value <= 32
  {
    if |s| > 0 && AllDigits(s) && Text.DigitsValue(s) <= 32 then Some(Text.DigitsValue(s)) else None
  }

  /**
   * The prefix length of a netmask string: a prefix length, or a dotted
   * netmask (ones then zeros), or a dotted host mask (zeros then ones),
   * tried in that order; None where `ipaddress` raises.
   */
  function NetmaskPrefix(s: string): (r: Option<nat>)
    ensures r.Some? ==> r.value <= 32
    ensures r.Some? && ParsePrefixLength(s).None? ==>
      ParseAddress(s).Some? && MaskPrefix(ParseAddress(s).value) == r
    ensures r.None? ==> ParsePrefixLength(s).None?
  {
    var p := ParsePrefixLength(s);
    if p.Some? then p
    else
      var m := ParseAddress(s);
      if m.None? then None
      else MaskPrefix(m.value)
  }

  /**
   * The interface's network, `IPv4Network(f"{ip}/{netmask}", strict=False)`:
   * its network address (the interface address masked) and prefix length;
   * None where the constructor raises.
   */
  function Network(iface: Interface): (r: Option<(seq<bool>, nat)>)
    ensures r.Some? ==> r.value.1 <= 32 && ParseAddress(iface.ip).Some?
    ensures r.Some? ==> r.value.0 == And(ParseAddress(iface.ip).value, MaskBits(r.value.1))
    ensures r.Some? <==> '/' !in iface.ip && '/' !in iface.netmask
                         && ParseAddress(iface.ip).Some? && NetmaskPrefix(iface.netmask).Some?
  {
    if '/' in iface.ip || '/' in iface.netmask then None
    else
      var addr := ParseAddress(iface.ip);
      var p := NetmaskPrefix(iface.netmask);
      if addr.None? || p.None? then None
      else Some((And(addr.value, MaskBits(p.value)), p.value))
  }

  /**
   * `is_on_same_subnet`: the target masked equals the network address;
   * false whenever the target or the interface's network does not parse.
   */
  function IsOnSameSubnet(iface: Interface, target: string): (r: bool)
    ensures r <==> Network(iface).Some? && ParseAddress(target).Some?
                   && SameNetwork(ParseAddress(target).value, ParseAddress(iface.ip).value, Network(iface).value.1)
  {
    var n := Network(iface);
    var t := ParseAddress(target);
    n.Some? && t.Some? && And(t.value, MaskBits(n.value.1)) == n.value.0
  }

  /** Every address is on a /0 network; on a /32 network only the interface's own address is. */
  lemma PrefixExtremes(iface: Interface, target: string)
    requires Network(iface).Some? && ParseAddress(target).Some?
    ensures Network(iface).value.1 == 0 ==> IsOnSameSubnet(iface, target)
    ensures Network(iface).value.1 == 32 ==>
      (IsOnSameSubnet(iface, target) <==> ParseAddress(target).value == ParseAddress(iface.ip).value)
  {
    SameNetworkExtremes(ParseAddress(target).value, ParseAddress(iface.ip).value);
  }

  /** An interface is on its own subnet. */
  lemma OwnAddressOnSubnet(iface: Interface)
    requires Network(iface).Some?
    ensures IsOnSameSubnet(iface, iface.ip)
  {
  }

  /** `network.num_addresses` of an interface; 0 where its network does not parse. */
  function Size(iface: Interface): nat
  {
    var n := Network(iface);
    if n.Some? then NumAddresses(n.value.1) else 0
  }

  /**
   * `min` over the elements `keep` accepts, keyed by `size`: the index of
   * the first accepted element of smallest size; None when `keep` accepts
   * none.
   */
  function FirstSmallest<T>(s: seq<T>, keep: T -> bool, size: T -> nat): (r: Option<nat>)
    ensures r.None? <==> forall k :: 0 <= k < |s| ==> !keep(s[k])
    ensures r.Some? ==> r.value < |s| && keep(s[r.value])
    ensures r.Some? ==> forall k :: 0 <= k < |s| && keep(s[k]) ==> size(s[r.value]) <= size(s[k])
    ensures r.Some? ==> forall k :: 0 <= k < r.value && keep(s[k]) ==> size(s[r.value]) < size(s[k])
  {
    if |s| == 0 then None
    else
      var rest := FirstSmallest(s[1..], keep, size);
      assert forall k :: 1 <= k < |s| ==> s[k] == s[1..][k - 1];
      if keep(s[0]) && (rest.None? || size(s[0]) <= size(s[1..][rest.value])) then Some(0)
      else if rest.Some? then Some(rest.value + 1)
      else None
  }

  /**
   * Interface `i` is on the camera's subnet, no interface on it has a
   * smaller network, and every earlier one on it has a larger network.
   */
  predicate BestMatch(ifaces: seq<Interface>, camera: string, i: int)
  {
    && 0 <= i < |ifaces| && IsOnSameSubnet(ifaces[i], camera)
    && (forall k :: 0 <= k < |ifaces| && IsOnSameSubnet(ifaces[k], camera) ==> Size(ifaces[i]) <= Size(ifaces[k]))
    && (forall k :: 0 <= k < i && IsOnSameSubnet(ifaces[k], camera) ==> Size(ifaces[i]) < Size(ifaces[k]))
  }

  /** At most one interface is the best match: the choice is determined. */
  lemma BestMatchUnique(ifaces: seq<Interface>, camera: string, i: int, j: int)
    requires BestMatch(ifaces, camera, i) && BestMatch(ifaces, camera, j)
    ensures i == j
  {
  }

  /**
   * `find_interface_for_camera`: among the interfaces on the camera's
   * subnet, the only one, or the first with the fewest addresses when
   * several match; None when none does.
   */
  function FindInterface(ifaces: seq<Interface>, camera: string): (r: Option<Interface>)
    ensures r.None? <==> forall k :: 0 <= k < |ifaces| ==> !IsOnSameSubnet(ifaces[k], camera)
    ensures r.Some? ==> exists i :: BestMatch(ifaces, camera, i) && ifaces[i] == r.value
  {
    var keep := x => IsOnSameSubnet(x, camera);
    var best := FirstSmallest(ifaces, keep, Size);
    if best.Some? then
      assert BestMatch(ifaces, camera, best.value);
      Some(ifaces[best.value])
    else None
  }

  /** The address of the interface chosen for a camera, if any. */
  function ChosenIp(ifaces: seq<Interface>, camera: string): (r: Option<string>)
    ensures r.None? <==> FindInterface(ifaces, camera).None?
    ensures r.Some? ==> r.value == FindInterface(ifaces, camera).value.ip
  {
    var found := FindInterface(ifaces, camera);
    if found.Some? then Some(found.value.ip) else None
  }

  /** The chosen interface address of each camera, in order. */
  function Choices(cameras: seq<string>, ifaces: seq<Interface>): (r: seq<Option<string>>)
    ensures |r| == |cameras|
  {
    if |cameras| == 0 then []
    else Choices(cameras[..|cameras| - 1], ifaces) + [ChosenIp(ifaces, cameras[|cameras| - 1])]
  }

  /** Entry `k` of the choices is the address chosen for camera `k`. */
  lemma {:induction false} ChoicesAt(cameras: seq<string>, ifaces: seq<Interface>, k: nat)
    requires k < |cameras|
    ensures Choices(cameras, ifaces)[k] == ChosenIp(ifaces, cameras[k])
    decreases |cameras|
  {
    if k < |cameras| - 1 {
      var init := cameras[..|cameras| - 1];
      ChoicesAt(init, ifaces, k);
      assert init[k] == cameras[k];
    }
  }

  /** No camera has an interface exactly when every choice is None. */
  lemma ChoicesNone(cameras: seq<string>, ifaces: seq<Interface>)
    ensures (forall k :: 0 <= k < |cameras| ==> Choices(cameras, ifaces)[k].None?) <==>
      forall k :: 0 <= k < |cameras| ==> FindInterface(ifaces, cameras[k]).None?
  {
    forall k | 0 <= k < |cameras|
      ensures Choices(cameras, ifaces)[k].None? <==> FindInterface(ifaces, cameras[k]).None?
    {
      ChoicesAt(cameras, ifaces, k);
    }
  }

  /**
   * `get_preferred_interface_ip`: count, camera by camera, how often each
   * interface address is chosen, in a dictionary kept in insertion order;
   * then return the address counted most often, the first one counted
   * among equals (`max` over the dictionary); None for no cameras or when
   * no camera has an interface.
   */
  method PreferredInterfaceIp(cameras: seq<string>, ifaces: seq<Interface>) returns (r: Option<string>)
    ensures |cameras| == 0 ==> r.None?
    ensures r.None? <==> forall k :: 0 <= k < |cameras| ==> FindInterface(ifaces, cameras[k]).None?
    ensures r.Some? ==> MostChosen(Choices(cameras, ifaces), r.value)
  {
    if |cameras| == 0 {
      return None;
    }
    ghost var choices := Choices(cameras, ifaces);
    var counts: seq<(string, nat)> := [];
    var i := 0;
    while i < |cameras|
      invariant i <= |cameras| && counts == TallyOf(choices[..i])
    {
      var found := ChosenIp(ifaces, cameras[i]);
      ChoicesAt(cameras, ifaces, i);
      assert choices[..i + 1][..i] == choices[..i];
      counts := NextCounts(counts, found);
      i := i + 1;
    }
    assert choices[..i] == choices;
    TallyEmpty(choices);
    ChoicesNone(cameras, ifaces);
    if |counts| == 0 {
      return None;
    }
    var b := FirstMaximum(counts);
    TallyMaximum(choices);
    r := Some(counts[b].0);
  }
}

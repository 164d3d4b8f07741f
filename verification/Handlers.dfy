/** What the daemon does with one received packet (router.go, dhcpv6.go, ndp.go). */
module Handlers {
  import opened Common
  import opened Addresses
  import opened KernelModel
  import opened Model
  import opened LinkLocal
  import opened Daemon
  import opened Interfaces
  import opened Process
  import opened Loops
  import opened Dhcpv6
  import opened RouterAdvert
  import opened LinkAddress
  import opened Packets

  /** The record a packet came from belongs to an interface in the table, or to one that was closed. */
  ghost predicate KnownOrClosed(d: Relayd, iface: Interface)
    reads d`interfaces, iface`router, iface`dhcp, iface`nd
  {
    d.Valid() && (d.Holds(iface) || (iface.router.None? && iface.dhcp.None? && iface.nd.None?))
  }

  // ---------- router packets ----------

  /** A Router Solicitation; the link-layer address is announced when it is known. */
  function RouterSolicitation(mac: Option<Mac>): (pkt: seq<byte>)
    ensures |pkt| == (if mac.Some? then 16 else 8) && pkt[0] == 133 && forall k :: 1 <= k < 8 ==> pkt[k] == 0
    ensures mac.Some? ==> Offsets(pkt, 8) == [8] && pkt[8] == 1 && pkt[9] == 1 && pkt[10..16] == mac.value
    ensures mac.None? ==> Offsets(pkt, 8) == []
  {
    var header := [ROUTER_SOLICIT, 0, 0, 0, 0, 0, 0, 0];
    match mac
    case None => header
    case Some(m) =>
      var pkt := header + [SOURCE_LINK_ADDR, 1] + m;
      assert Offsets(pkt, 16) == [];
      pkt
  }

  /** The private copy of an advertisement for one slave. */
  ghost predicate CopyFor(data: seq<byte>, out: seq<byte>, mac: Option<Mac>) {
    match mac
    case None => out == data
    case Some(m) => IsRewrite(data, out, m)
  }

  function MacOf(macs: map<string, Mac>, n: string): Option<Mac> {
    if n in macs then Some(macs[n]) else None
  }

  method CopyWithMac(data: seq<byte>, mac: Option<Mac>) returns (out: seq<byte>)
    ensures CopyFor(data, out, mac)
  {
    out := data;
    if mac.Some? {
      var buf := new byte[|data|](k requires 0 <= k < |data| => data[k]);
      assert buf[..] == data;
      FixSourceLinkAddrOption(buf, mac.value);
      out := buf[..];
    }
  }

  /** Repeats a solicitation on the other masters; `macs` holds the hardware addresses that can be read. */
  method ForwardRouterSolicitation(d: Relayd, iface: Interface, macs: map<string, Mac>)
    returns (out: map<string, seq<byte>>)
    ensures out.Keys == SolicitTargets(d.TableView(), iface.ifindex)
    ensures forall n :: n in out ==> out[n] == RouterSolicitation(MacOf(macs, n))
  {
    out := map[];
    var todo := d.interfaces.Keys;
    while todo != {}
      invariant todo <= d.interfaces.Keys
      invariant forall n :: n in out <==>
        n in d.interfaces.Keys - todo && d.interfaces[n].ifindex != iface.ifindex && d.interfaces[n].master
        && d.interfaces[n].ra.Relay? && d.interfaces[n].router.Some?
      invariant forall n :: n in out ==> out[n] == RouterSolicitation(MacOf(macs, n))
    {
      var n :| n in todo;
      todo := todo - {n};
      var c := d.interfaces[n];
      if c.ifindex == iface.ifindex || !c.master || !c.ra.Relay? {
        continue;
      }
      if c.router.Some? {
        out := out[n := RouterSolicitation(MacOf(macs, n))];
      }
    }
  }

  /** Relays an advertisement to the slaves, each with a private copy that carries the slave's own MAC. */
  method ForwardRouterAdvertisement(d: Relayd, iface: Interface, data: seq<byte>, macs: map<string, Mac>)
    returns (out: map<string, seq<byte>>)
    ensures out.Keys == AdvertTargets(d.TableView(), iface.ifindex)
    ensures forall n :: n in out ==> CopyFor(data, out[n], MacOf(macs, n))
  {
    hide CopyFor;
    out := map[];
    var todo := d.interfaces.Keys;
    while todo != {}
      invariant todo <= d.interfaces.Keys
      invariant forall n :: n in out <==>
        n in d.interfaces.Keys - todo && d.interfaces[n].ifindex != iface.ifindex && !d.interfaces[n].master
        && d.interfaces[n].ra.Relay? && d.interfaces[n].router.Some?
      invariant forall n :: n in out ==> CopyFor(data, out[n], MacOf(macs, n))
    {
      var n :| n in todo;
      todo := todo - {n};
      var c := d.interfaces[n];
      if c.ifindex == iface.ifindex || c.master || !c.ra.Relay? {
        continue;
      }
      var copy := CopyWithMac(data, MacOf(macs, n));
      if c.router.Some? {
        out := out[n := copy];
      }
    }
  }

  /** Exactly the effects of the packet, and in each sent packet exactly the right bytes. */
  method HandleICMPv6(d: Relayd, sock: RouterSock, iface: Interface, data: seq<byte>, macs: map<string, Mac>)
    returns (solicits: map<string, seq<byte>>, adverts: map<string, seq<byte>>)
    requires KnownOrClosed(d, iface)
    ensures d.Holds(iface) ==>
      (set n | n in solicits.Keys :: SolicitOn(n)) + (set n | n in adverts.Keys :: AdvertiseOn(n))
      == IcmpEffects(d.TableView(), iface.name, sock, data)
    ensures !d.Holds(iface) ==> solicits == map[] && adverts == map[]
    ensures forall n :: n in solicits ==> solicits[n] == RouterSolicitation(MacOf(macs, n))
    ensures forall n :: n in adverts ==> CopyFor(data, adverts[n], MacOf(macs, n))
  {
    hide CopyFor, RouterSolicitation;
    solicits, adverts := map[], map[];
    if iface.router != Some(sock) || !iface.ra.Relay? {
      return;
    }
    if |data| < 4 {
      return;
    }
    if data[1] != 0 {
      return;
    }
    if data[0] == ROUTER_SOLICIT {
      solicits := ForwardRouterSolicitation(d, iface, macs);
    } else if data[0] == ROUTER_ADVERT {
      adverts := ForwardRouterAdvertisement(d, iface, data, macs);
    }
  }

  // ---------- DHCPv6 packets ----------

  /** The link address of a relayed message: the chosen own address, or the unspecified one if none is usable. */
  ghost predicate LinkAddressFor(addrs: seq<IPAddr>, now: nat, link: Bytes16) {
    if forall k :: 0 <= k < |addrs| ==> !LinkAddress.Usable(addrs[k], now)
    then forall k :: 0 <= k < 16 ==> link[k] == 0
    else exists k :: Chosen(addrs, now, k) && link == addrs[k].addr.As16()
  }

  method RelayLinkAddressOrZero(iface: Interface, now: nat) returns (link: Bytes16)
    ensures LinkAddressFor(iface.addr6, now, link)
  {
    var best := RelayLinkAddress(iface.addr6, now);
    if best == -1 {
      return UNSPECIFIED.As16();
    }
    assert Chosen(iface.addr6, now, best);
    return iface.addr6[best].addr.As16();
  }

  /** The masters that carry a relayed request to the servers. */
  method Upstream(d: Relayd) returns (out: set<string>)
    ensures out == RequestTargets(d.TableView())
  {
    out := {};
    var todo := d.interfaces.Keys;
    while todo != {}
      invariant todo <= d.interfaces.Keys
      invariant forall n :: n in out <==>
        n in d.interfaces.Keys - todo && d.interfaces[n].master && d.interfaces[n].dhcpv6.Relay?
        && d.interfaces[n].dhcp.Some?
    {
      var n :| n in todo;
      todo := todo - {n};
      var c := d.interfaces[n];
      if !c.master || !c.dhcpv6.Relay? || c.dhcp.None? {
        continue;
      }
      out := out + {n};
    }
  }

  /** The reply goes to the slave its Interface-Id names, if that slave has a socket. */
  method ReplyDownstream(d: Relayd, data: seq<byte>) returns (sent: set<Effect>, byIndex: Option<string>)
    ensures Unwrap(data).Some? ==> Found(d.TableView(), Unwrap(data).value.ifindex, byIndex)
    ensures sent == match Unwrap(data)
                    case None => {}
                    case Some(r) =>
                      if MayAnswerOn(d.TableView(), byIndex) then {DhcpOn(byIndex.value, r.dest, r.port, r.payload)} else {}
  {
    hide Relayd.TableView, Interface.View, Unwrap;
    sent, byIndex := {}, None;
    var reply := RelayServerResponse(data);
    if reply.None? {
      return;
    }
    byIndex := d.IfaceByIndex(reply.value.ifindex);
    if byIndex.None? || d.interfaces[byIndex.value].master || d.interfaces[byIndex.value].dhcp.None? {
      return;
    }
    sent := {DhcpOn(byIndex.value, reply.value.dest, reply.value.port, reply.value.payload)};
  }

  /** The wrapped request goes to the servers through every master. */
  method RequestUpstream(d: Relayd, iface: Interface, source: Bytes16, data: seq<byte>, link: Bytes16)
    returns (sent: set<Effect>)
    ensures sent == match Wrap(source, data, link, iface.ifindex)
                    case None => {}
                    case Some(env) =>
                      set n | n in RequestTargets(d.TableView()) :: DhcpOn(n, ALL_DHCP_SERVERS, SERVER_PORT, env)
  {
    hide Relayd.TableView, Interface.View, Wrap, RequestTargets;
    var envelope := RelayClientRequest(source, data, link, iface.ifindex);
    if envelope.None? {
      return {};
    }
    var masters := Upstream(d);
    sent := set n | n in masters :: DhcpOn(n, ALL_DHCP_SERVERS, SERVER_PORT, envelope.value);
  }

  /** `link` and `byIndex` are what the packet made the daemon look up. */
  method HandleDHCPv6(d: Relayd, sock: DhcpSock, iface: Interface, source: Bytes16, data: seq<byte>, now: nat)
    returns (sent: set<Effect>, link: Bytes16, byIndex: Option<string>)
    requires KnownOrClosed(d, iface)
    ensures d.Holds(iface) ==> sent == DhcpEffects(d.TableView(), iface.name, sock, source, data, link, byIndex)
    ensures !d.Holds(iface) ==> sent == {}
    ensures LinkAddressFor(iface.addr6, now, link)
    ensures iface.dhcp == Some(sock) && iface.dhcpv6.Relay? && iface.master && Unwrap(data).Some? ==>
      Found(d.TableView(), Unwrap(data).value.ifindex, byIndex)
  {
    hide Relayd.TableView, Interface.View, Unwrap, Wrap, LinkAddressFor, MayAnswerOn, RequestTargets;
    sent, byIndex := {}, None;
    link := RelayLinkAddressOrZero(iface, now);
    if iface.dhcp != Some(sock) || !iface.dhcpv6.Relay? {
      return;
    }
    if iface.master {
      sent, byIndex := ReplyDownstream(d, data);
    } else {
      sent := RequestUpstream(d, iface, source, data, link);
    }
  }

  // ---------- Neighbor Solicitations ----------

  /** Every interface outside `names` as it was, those in it the same but for the cached source. */
  ghost predicate SameButCache(T: Table, U: Table, names: set<string>) {
    && U.Keys == T.Keys
    && forall n :: n in T ==> U[n].conf == T[n].conf && U[n].nd == T[n].nd && (n !in names ==> U[n] == T[n])
  }

  lemma PingKeeps(s: State, n: string, target: Addr)
    requires n in s.table
    ensures SameButCache(s.table, Ping(s, n, target).table, {n})
  {
  }

  lemma {:induction false} OneMorePing(s: State, names: seq<string>, n: string, target: Addr)
    requires forall m :: m in names + [n] ==> m in s.table
    ensures PingAll(s, names, target).table.Keys == s.table.Keys
    ensures PingAll(s, names + [n], target) == Ping(PingAll(s, names, target), n, target)
    decreases |names|
  {
    hide Ping;
    assert n in names + [n];
    if names == [] {
      assert names + [n] == [n];
    } else {
      assert names[0] in names + [n];
      PingKeeps(s, names[0], target);
      assert (names + [n])[1..] == names[1..] + [n];
      assert forall m :: m in names[1..] + [n] ==> m in names + [n];
      OneMorePing(Ping(s, names[0], target), names[1..], n, target);
    }
  }

  lemma {:induction false} PingSockets(s: State, names: seq<string>, target: Addr)
    ensures SameButCache(s.table, PingAll(s, names, target).table, Elements(names))
    decreases |names|
  {
    hide Ping;
    if names != [] && names[0] in s.table {
      PingKeeps(s, names[0], target);
      PingSockets(Ping(s, names[0], target), names[1..], target);
      assert Elements(names) == {names[0]} + Elements(names[1..]);
    }
  }

  /** The source of a probe; the link-local cache may get filled. */
  method SourceOfProbe(d: Relayd, iface: Interface) returns (src: Option<Addr>)
    requires d.Holds(iface)
    modifies iface`cachedLL, iface`cachedLLValid
    ensures d.Holds(iface)
    ensures d.TableView()
            == old(d.TableView())[iface.name := if old(iface.ndpFromLinkLocal) then Looked(old(iface.View())) else old(iface.View())]
    ensures src == ProbeSource(old(iface.View()))
  {
    hide Relayd.TableView, Interface.View, Looked, LinkLocalOf;
    src := None;
    if iface.ndpFromLinkLocal {
      src := iface.GetLinkLocalAddr();
    }
    d.OneChanged(iface);
  }

  /** The effects of relayPing on one interface. */
  function PingEffects(i: Iface, name: string, target: Addr): set<Effect> {
    if i.nd.Some? then {RouteOn(name, target), ProbeOn(name, target, ProbeSource(i))} else {}
  }

  /** The echo request is sent between installing and removing a host route that pins it to the interface. */
  method RelayPing(d: Relayd, target: Addr, iface: Interface, w: World) returns (w': World, sent: set<Effect>)
    requires d.Holds(iface)
    modifies iface`cachedLL, iface`cachedLLValid
    ensures d.Holds(iface) && d.View(w') == Ping(old(d.View(w)), iface.name, target)
    ensures sent == PingEffects(old(iface.View()), iface.name, target)
  {
    hide Relayd.TableView, Interface.View, Looked, SetupRoute, ProbeSource, Ping;
    PingIs(d.View(w), iface.name, target);
    if iface.nd.None? {
      return w, {};
    }
    var k := SetupRoute(w.kernel, target, iface.ifindex, PING_METRIC, true);
    sent := {RouteOn(iface.name, target)};
    var src := SourceOfProbe(d, iface);
    sent := sent + {ProbeOn(iface.name, target, src)};
    k := SetupRoute(k, target, iface.ifindex, PING_METRIC, false);
    w' := w.(kernel := k);
  }

  lemma PingIs(s: State, n: string, target: Addr)
    requires n in s.table
    ensures
      var i := s.table[n];
      var k := SetupRoute(SetupRoute(s.kernel, target, i.ifindex, PING_METRIC, true), target, i.ifindex, PING_METRIC, false);
      Ping(s, n, target) ==
        if i.nd.None? then s else s.(kernel := k, table := s.table[n := if i.ndpFromLinkLocal then Looked(i) else i])
  {
    hide Looked, ReplaceRoutes, DelRoutes;
  }

  /** The state, the effects and the order when the loop still has to visit `todo`. */
  ghost predicate ProbedSoFar(s: State, name: string, target: Addr, todo: set<string>, now: State, sent: set<Effect>,
                              order: seq<string>)
  {
    && now == PingAll(s, order, target) && Elements(order) == OtherNdp(s.table, name) - todo && Distinct(order)
    && sent == ProbeEffects(s.table, Elements(order), target)
  }

  lemma ProbeBegins(s: State, name: string, target: Addr)
    ensures ProbedSoFar(s, name, target, s.table.Keys, s, {}, [])
  {
    assert Answering(s.table, {}) == {};
    assert Elements<string>([]) == OtherNdp(s.table, name) - s.table.Keys;
  }

  lemma ProbeSkips(s: State, name: string, target: Addr, todo: set<string>, n: string, now: State, sent: set<Effect>,
                   order: seq<string>)
    requires ProbedSoFar(s, name, target, todo, now, sent, order) && n in todo && todo <= s.table.Keys
    ensures now.table.Keys == s.table.Keys && now.table[n] == s.table[n]
    ensures !(n != name && now.table[n].ndp.Relay?) ==> ProbedSoFar(s, name, target, todo - {n}, now, sent, order)
  {
    hide PingAll, ProbeEffects;
    PingSockets(s, order, target);
    assert n !in Elements(order);
  }

  lemma EffectsOfOneMore(T: Table, names: set<string>, n: string, target: Addr)
    requires n in T
    ensures ProbeEffects(T, names + {n}, target) == ProbeEffects(T, names, target) + PingEffects(T[n], n, target)
  {
    hide ProbeSource;
    assert Answering(T, names + {n}) == Answering(T, names) + (if T[n].nd.Some? then {n} else {});
  }

  lemma ProbeAdds(s: State, name: string, target: Addr, todo: set<string>, n: string, now: State, sent: set<Effect>,
                  order: seq<string>)
    requires ProbedSoFar(s, name, target, todo, now, sent, order) && n in todo && todo <= s.table.Keys
    requires n in OtherNdp(s.table, name) && n in now.table
    ensures ProbedSoFar(s, name, target, todo - {n}, Ping(now, n, target), sent + PingEffects(s.table[n], n, target), order + [n])
  {
    hide PingAll, Ping, ProbeEffects, PingEffects;
    var order2 := order + [n];
    assert n !in Elements(order);
    assert Elements(order2) == Elements(order) + {n};
    assert forall m :: m in order2 ==> m in Elements(order2);
    OneMorePing(s, order, n, target);
    EffectsOfOneMore(s.table, Elements(order), n, target);
  }

  /** Probes the target on all other relaying interfaces; `order` records the arbitrary order of the loop. */
  method ProbeOthers(d: Relayd, iface: Interface, target: Addr, w: World)
    returns (w': World, sent: set<Effect>, ghost order: seq<string>)
    requires d.Holds(iface)
    modifies d.interfaces.Values
    ensures d.Holds(iface) && ProbedSoFar(old(d.View(w)), iface.name, target, {}, d.View(w'), sent, order)
  {
    hide Relayd.TableView, Interface.View, Ping, ProbedSoFar;
    ghost var s := d.View(w);
    w', sent, order := w, {}, [];
    var todo := d.interfaces.Keys;
    ProbeBegins(s, iface.name, target);
    while todo != {}
      invariant todo <= d.interfaces.Keys && d.Holds(iface)
      invariant ProbedSoFar(s, iface.name, target, todo, d.View(w'), sent, order)
    {
      var n :| n in todo;
      w', sent, order := ProbeTurn(d, iface, target, s, todo, n, w', sent, order);
      todo := todo - {n};
    }
  }

  method ProbeTurn(d: Relayd, iface: Interface, target: Addr, ghost s: State, ghost todo: set<string>, n: string,
                   w: World, before: set<Effect>, ghost taken: seq<string>)
    returns (w': World, sent: set<Effect>, ghost order: seq<string>)
    requires d.Holds(iface) && n in todo && todo <= d.interfaces.Keys && s.table.Keys == d.interfaces.Keys
    requires ProbedSoFar(s, iface.name, target, todo, d.View(w), before, taken)
    modifies d.interfaces.Values
    ensures d.Holds(iface) && ProbedSoFar(s, iface.name, target, todo - {n}, d.View(w'), sent, order)
  {
    hide Relayd.TableView, Interface.View, Ping, ProbedSoFar, PingEffects;
    w', sent, order := w, before, taken;
    ProbeSkips(s, iface.name, target, todo, n, d.View(w), before, taken);
    var c := d.interfaces[n];
    if c != iface && c.ndp.Relay? {
      ProbeAdds(s, iface.name, target, todo, n, d.View(w), before, taken);
      var one;
      w', one := RelayPing(d, target, c, w);
      order := order + [n];
      sent := sent + one;
    }
  }

  /** The checks of handleSolicit; the target if there is one to probe for. */
  method CheckSolicit(sock: NdpSock, iface: Interface, srcMac: Mac, ownMac: Option<Mac>, data: seq<byte>)
    returns (r: Option<Addr>)
    ensures r == ProbeTarget(iface.View(), sock, srcMac, ownMac, data)
  {
    hide Addr.IsLoopback, Addr.IsMulticast, Addr.IsLinkLocalUnicast, Unmap;
    if iface.nd != Some(sock) || !iface.ndp.Relay? {
      return None;
    }
    if |data| < 64 {
      return None;
    }
    var target := Unmap(data[48..64]);
    if data[7] != 255 || data[41] != 0 {
      return None;
    }
    if target.IsLinkLocalUnicast() || target.IsLoopback() || target.IsMulticast() {
      return None;
    }
    if ownMac == Some(srcMac) && !iface.master {
      return None;
    }
    return Some(target);
  }

  /** The engine's event for a captured packet of this interface, if it is still in the table. */
  function SolicitEvent(name: Option<string>, sock: NdpSock, srcMac: Mac, ownMac: Option<Mac>, data: seq<byte>,
                        order: seq<string>): Event {
    EvPacket(name, Solicitation(sock, srcMac, data), ownMac, order)
  }

  /**
   * Exactly the routes and probes of the packet, and exactly its step: a stale, foreign or invalid packet
   * changes nothing, any other makes every other relaying interface be visited once.
   */
  method HandleSolicit(d: Relayd, sock: NdpSock, iface: Interface, srcMac: Mac, ownMac: Option<Mac>, data: seq<byte>,
                       w: World)
    returns (w': World, sent: set<Effect>, ghost order: seq<string>)
    requires KnownOrClosed(d, iface)
    modifies d.interfaces.Values
    ensures old(d.Holds(iface)) ==>
      && Enabled(old(d.View(w)), SolicitEvent(Some(iface.name), sock, srcMac, ownMac, data, order))
      && d.View(w') == Step(old(d.View(w)), SolicitEvent(Some(iface.name), sock, srcMac, ownMac, data, order))
      && sent == NdpEffects(old(d.View(w)).table, iface.name, sock, srcMac, ownMac, data)
    ensures old(d.Holds(iface)) && ProbeTarget(old(iface.View()), sock, srcMac, ownMac, data).Some? ==>
      Elements(order) == OtherNdp(old(d.View(w)).table, iface.name) && Distinct(order)
    ensures !old(d.Holds(iface)) || ProbeTarget(old(iface.View()), sock, srcMac, ownMac, data).None? ==>
      sent == {} && order == [] && d.View(w') == old(d.View(w))
  {
    hide Relayd.TableView, Interface.View, Step, Enabled, ProbeTarget, ProbedSoFar, NdpEffects;
    var target := CheckSolicit(sock, iface, srcMac, ownMac, data);
    if target.None? {
      if d.Holds(iface) {
        NoneProbed(d.View(w), iface.name, sock, srcMac, ownMac, data);
      }
      return w, {}, [];
    }
    NoSocketNoTarget(iface.View(), sock, srcMac, ownMac, data);
    w', sent, order := ProbeOthers(d, iface, target.value, w);
    AllProbed(old(d.View(w)), iface.name, sock, srcMac, ownMac, data, d.View(w'), sent, order);
  }

  lemma NoSocketNoTarget(i: Iface, sock: NdpSock, srcMac: Mac, ownMac: Option<Mac>, data: seq<byte>)
    ensures i.nd.None? ==> ProbeTarget(i, sock, srcMac, ownMac, data).None?
  {
    hide SolicitTarget;
  }

  lemma NoneProbed(s: State, n: string, sock: NdpSock, srcMac: Mac, ownMac: Option<Mac>, data: seq<byte>)
    requires n in s.table && ProbeTarget(s.table[n], sock, srcMac, ownMac, data).None?
    ensures Enabled(s, SolicitEvent(Some(n), sock, srcMac, ownMac, data, []))
    ensures Step(s, SolicitEvent(Some(n), sock, srcMac, ownMac, data, [])) == s
    ensures NdpEffects(s.table, n, sock, srcMac, ownMac, data) == {}
  {
    hide ProbeTarget;
  }

  lemma AllProbed(s: State, n: string, sock: NdpSock, srcMac: Mac, ownMac: Option<Mac>, data: seq<byte>,
                  now: State, sent: set<Effect>, order: seq<string>)
    requires n in s.table && ProbeTarget(s.table[n], sock, srcMac, ownMac, data).Some?
    requires ProbedSoFar(s, n, ProbeTarget(s.table[n], sock, srcMac, ownMac, data).value, {}, now, sent, order)
    ensures sent == NdpEffects(s.table, n, sock, srcMac, ownMac, data)
    ensures Elements(order) == OtherNdp(s.table, n) && Distinct(order)
    ensures Enabled(s, SolicitEvent(Some(n), sock, srcMac, ownMac, data, order))
    ensures now == Step(s, SolicitEvent(Some(n), sock, srcMac, ownMac, data, order))
  {
    hide ProbeTarget, PingAll, ProbeEffects;
    assert OtherNdp(s.table, n) - {} == OtherNdp(s.table, n);
  }
}

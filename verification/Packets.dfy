/** What a processed packet causes, and why packets from replaced sockets cause nothing. */
module Packets {
  import opened Common
  import opened Addresses
  import opened KernelModel
  import opened Model
  import opened LinkLocal
  import opened Daemon
  import opened Ownership
  import opened Lifecycle
  import opened Aging
  import opened Dhcpv6
  import opened Filter

  const ROUTER_SOLICIT: byte := 133
  const ROUTER_ADVERT: byte := 134
  const ALL_DHCP_SERVERS: Bytes16 := [0xff, 0x05, 0, 0, 0, 0, 0, 0, 0, 0, 0, 0, 0, 1, 0, 3]

  datatype Effect =
    | SolicitOn(out: string)
    | AdvertiseOn(out: string)
    | DhcpOn(out: string, dest: Bytes16, port: int, payload: seq<byte>)
    | RouteOn(out: string, target: Addr)
    | ProbeOn(out: string, target: Addr, from: Option<Addr>)

  // ---------- router packets ----------

  /** Masters other than the receiving interface on which a solicitation is repeated. */
  function SolicitTargets(T: Table, ifindex: int): set<string> {
    set c | c in T && T[c].ifindex != ifindex && T[c].master && T[c].ra.Relay? && T[c].router.Some?
  }

  /** Slaves to which an advertisement is relayed. */
  function AdvertTargets(T: Table, ifindex: int): set<string> {
    set c | c in T && T[c].ifindex != ifindex && !T[c].master && T[c].ra.Relay? && T[c].router.Some?
  }

  function IcmpEffects(T: Table, n: string, sock: RouterSock, data: seq<byte>): set<Effect>
    requires n in T
  {
    if T[n].router != Some(sock) || !T[n].ra.Relay? || |data| < 4 || data[1] != 0 then {}
    else if data[0] == ROUTER_SOLICIT then set c | c in SolicitTargets(T, T[n].ifindex) :: SolicitOn(c)
    else if data[0] == ROUTER_ADVERT then set c | c in AdvertTargets(T, T[n].ifindex) :: AdvertiseOn(c)
    else {}
  }

  // ---------- DHCPv6 packets ----------

  /** The interface a Relay-reply names, if it may be answered there. `byIndex` is the index lookup's result. */
  predicate MayAnswerOn(T: Table, byIndex: Option<string>) {
    byIndex.Some? && byIndex.value in T && !T[byIndex.value].master && T[byIndex.value].dhcp.Some?
  }

  /** The masters through which a wrapped request goes to the servers. */
  function RequestTargets(T: Table): set<string> {
    set c | c in T && T[c].master && T[c].dhcpv6.Relay? && T[c].dhcp.Some?
  }

  function DhcpEffects(T: Table, n: string, sock: DhcpSock, source: Bytes16, data: seq<byte>, link: Bytes16,
                       byIndex: Option<string>): set<Effect>
    requires n in T
  {
    if T[n].dhcp != Some(sock) || !T[n].dhcpv6.Relay? then {}
    else if T[n].master then
      match Unwrap(data)
      case None => {}
      case Some(r) => if MayAnswerOn(T, byIndex) then {DhcpOn(byIndex.value, r.dest, r.port, r.payload)} else {}
    else
      match Wrap(source, data, link, T[n].ifindex)
      case None => {}
      case Some(env) => set c | c in RequestTargets(T) :: DhcpOn(c, ALL_DHCP_SERVERS, SERVER_PORT, env)
  }

  // ---------- Neighbor Solicitations ----------

  /** The source a probe is sent from; without one the kernel picks it. */
  function ProbeSource(i: Iface): Option<Addr> {
    if i.ndpFromLinkLocal then LinkLocalOf(i.cache) else None
  }

  /** Those of the interfaces that have their sockets up. */
  function Answering(T: Table, names: set<string>): set<string> {
    set c | c in names && c in T && T[c].nd.Some?
  }

  /** On each of the interfaces with its sockets up, a temporary route to the target and a probe. */
  function ProbeEffects(T: Table, names: set<string>, target: Addr): set<Effect> {
    (set c | c in Answering(T, names) :: RouteOn(c, target))
    + (set c | c in Answering(T, names) :: ProbeOn(c, target, ProbeSource(T[c])))
  }

  function NdpEffects(T: Table, n: string, sock: NdpSock, srcMac: Mac, ownMac: Option<Mac>, data: seq<byte>): set<Effect>
    requires n in T
  {
    match ProbeTarget(T[n], sock, srcMac, ownMac, data)
    case None => {}
    case Some(target) => ProbeEffects(T, OtherNdp(T, n), target)
  }

  // ---------- in bytes and flags ----------

  /**
   * Where router packets go: a solicitation, type 133, to the other masters and an advertisement, type 134, to the
   * other slaves, of those that relay with a socket; only if the packet comes through the socket the interface
   * holds while it relays, is four bytes long at least and of code 0. Nothing else is caused.
   */
  lemma IcmpForwarding(T: Table, n: string, sock: RouterSock, data: seq<byte>, e: Effect)
    requires n in T
    ensures
      var heard := T[n].router == Some(sock) && T[n].ra == Relay && |data| >= 4 && data[1] == 0;
      e in IcmpEffects(T, n, sock, data) <==>
        && heard && (e.SolicitOn? || e.AdvertiseOn?) && e.out in T && T[e.out].ifindex != T[n].ifindex
        && T[e.out].ra == Relay && T[e.out].router.Some?
        && (if e.SolicitOn? then data[0] == 133 && T[e.out].master else data[0] == 134 && !T[e.out].master)
  {
    if e.SolicitOn? && e.out in SolicitTargets(T, T[n].ifindex) { assert e == SolicitOn(e.out); }
    if e.AdvertiseOn? && e.out in AdvertTargets(T, T[n].ifindex) { assert e == AdvertiseOn(e.out); }
  }

  /**
   * Where DHCPv6 packets go, through the socket the interface holds while it relays: what comes in on a slave, in
   * an envelope to port 547 of ff05::1:3 through every master that relays with a socket; what comes in on a master,
   * unwrapped, on the slave whose index it names if that has a socket. Nothing else is caused.
   */
  lemma DhcpForwarding(T: Table, n: string, sock: DhcpSock, source: Bytes16, data: seq<byte>, link: Bytes16,
                       byIndex: Option<string>, e: Effect)
    requires n in T
    ensures
      e in DhcpEffects(T, n, sock, source, data, link, byIndex) <==>
        && T[n].dhcp == Some(sock) && T[n].dhcpv6 == Relay && e.DhcpOn? && e.out in T && T[e.out].dhcp.Some?
        && if T[n].master
           then byIndex == Some(e.out) && !T[e.out].master && Unwrap(data).Some?
                && Unwrap(data).value.(ifindex := 0) == Reply(0, e.payload, e.port, e.dest)
           else T[e.out].master && T[e.out].dhcpv6 == Relay && Wrap(source, data, link, T[n].ifindex) == Some(e.payload)
                && e.port == 547 && e.dest == [0xff, 5, 0, 0, 0, 0, 0, 0, 0, 0, 0, 0, 0, 1, 0, 3]
  {
    hide Wrap, Unwrap;
    if e.DhcpOn? && e.out in RequestTargets(T) { assert e == DhcpOn(e.out, e.dest, e.port, e.payload); }
  }

  /** What a probe through this interface for `t` is: a temporary route and an echo request, from where it is asked. */
  ghost predicate ProbesFor(i: Iface, c: string, t: Addr, e: Effect) {
    e == RouteOn(c, t) || e == ProbeOn(c, t, if i.ndpFromLinkLocal then LinkLocalOf(i.cache) else None)
  }

  /**
   * What a captured solicitation causes, in bytes. If it comes through the socket the interface holds while it
   * relays, is not the daemon's own on a slave, is long enough, of hop limit 255 and code 0, and its bytes 48 to 64
   * are a host's, then those bytes are probed for, once on each other interface that relays, and by those with
   * sockets; otherwise nothing happens at all.
   */
  lemma SolicitationProbes(s: State, n: string, sock: NdpSock, srcMac: Mac, ownMac: Option<Mac>, data: seq<byte>,
                           order: seq<string>)
    requires n in s.table && Enabled(s, EvPacket(Some(n), Solicitation(sock, srcMac, data), ownMac, order))
    ensures
      var T, i := s.table, s.table[n];
      var effects := NdpEffects(T, n, sock, srcMac, ownMac, data);
      var s2 := Step(s, EvPacket(Some(n), Solicitation(sock, srcMac, data), ownMac, order));
      var due := i.nd == Some(sock) && i.ndp == Relay && (ownMac == Some(srcMac) ==> i.master)
                 && |data| >= 64 && data[7] == 255 && data[41] == 0 && HostBytes(data[48..64]);
      && (!due ==> effects == {} && s2 == s)
      && (due ==> exists t: Addr ::
            && t.As16() == data[48..64] && (t.V4? <==> data[48..60] == MAPPED_PREFIX)
            && (forall e :: e in effects <==>
                  exists c :: c in T && c != n && T[c].ndp == Relay && T[c].nd.Some? && ProbesFor(T[c], c, t, e))
            && Distinct(order) && (forall c :: c in order <==> c in T && c != n && T[c].ndp == Relay)
            && s2 == PingAll(s, order, t))
  {
    hide PingAll, Unmap, Mirrorable, HostBytes;
    var T := s.table;
    if |data| >= 64 {
      var t := Unmap(data[48..64]);
      UnmapBytes(data[48..64]);
      assert data[48..64][..12] == data[48..60];
      if ProbeTarget(T[n], sock, srcMac, ownMac, data).Some? {
        forall e ensures e in NdpEffects(T, n, sock, srcMac, ownMac, data) <==>
          exists c :: c in T && c != n && T[c].ndp == Relay && T[c].nd.Some? && ProbesFor(T[c], c, t, e)
        {
          EffectsOfProbes(T, n, t, e);
        }
        assert forall c :: c in order <==> c in Elements(order);
      }
    }
  }

  lemma EffectsOfProbes(T: Table, n: string, t: Addr, e: Effect)
    requires n in T
    ensures e in ProbeEffects(T, OtherNdp(T, n), t) <==>
              exists c :: c in T && c != n && T[c].ndp == Relay && T[c].nd.Some? && ProbesFor(T[c], c, t, e)
  {
    var cs := Answering(T, OtherNdp(T, n));
    if c :| c in T && c != n && T[c].ndp == Relay && T[c].nd.Some? && ProbesFor(T[c], c, t, e) {
      assert c in cs;
    }
    if e in ProbeEffects(T, OtherNdp(T, n), t) {
      var c :| c in cs && (e == RouteOn(c, t) || e == ProbeOn(c, t, ProbeSource(T[c])));
      assert ProbesFor(T[c], c, t, e);
    }
  }

  /** What the environment answers while a packet is processed. */
  datatype Env = Env(link: Bytes16, byIndex: Option<string>, ownMac: Option<Mac>)

  /** `n` is the interface of the record the packet came from, if that interface is still configured. */
  function Effects(T: Table, n: Option<string>, p: Packet, env: Env): set<Effect>
    requires n.Some? ==> n.value in T
  {
    match n
    case None => {}
    case Some(m) =>
      match p
      case Icmp(sock, data) => IcmpEffects(T, m, sock, data)
      case Dhcp(sock, source, data) => DhcpEffects(T, m, sock, source, data, env.link, env.byIndex)
      case Solicitation(sock, srcMac, data) => NdpEffects(T, m, sock, srcMac, env.ownMac, data)
  }

  /** A retired channel belongs to no record any interface holds. */
  lemma RetiredNotHeld(T: Table, os: Os, n: string, h: Handle)
    requires HandlesOwned(T, os) && n in T && h !in os.open
    ensures T[n].router.Some? ==> T[n].router.value.done != h
    ensures T[n].dhcp.Some? ==> T[n].dhcp.value.done != h
    ensures T[n].nd.Some? ==> T[n].nd.value.done != h
  {
    assert h !in Held(T[n]);
  }

  /** Processing the packet sends nothing, installs no temporary route and leaves the whole state as it is. */
  ghost predicate CausesNothing(s: State, n: Option<string>, p: Packet, env: Env, order: seq<string>)
    requires n.Some? ==> n.value in s.table
  {
    && Effects(s.table, n, p, env) == {}
    && Enabled(s, EvPacket(n, p, env.ownMac, order)) && Step(s, EvPacket(n, p, env.ownMac, order)) == s
  }

  /** A packet whose record the interface does not hold. */
  lemma NotHeldSilent(s: State, n: Option<string>, p: Packet, env: Env, order: seq<string>)
    requires n.Some? ==> n.value in s.table
    requires n.Some? ==>
      match p
      case Icmp(sock, _) => s.table[n.value].router != Some(sock)
      case Dhcp(sock, _, _) => s.table[n.value].dhcp != Some(sock)
      case Solicitation(sock, _, _) => s.table[n.value].nd != Some(sock)
    ensures CausesNothing(s, n, p, env, order)
  {
    hide SolicitTarget, PingAll;
  }

  /**
   * Stale-socket safety: once the record a packet came from has been given up, the packet causes nothing,
   * however late it is processed and whatever happened in between.
   */
  lemma StalePacketSilent(s: State, es: seq<Event>, n: Option<string>, p: Packet, env: Env, order: seq<string>)
    requires Inv(s) && Run(s, es) && Retired(s.os, p.Channel())
    requires n.Some? ==> n.value in After(s, es).table
    ensures CausesNothing(After(s, es), n, p, env, order)
  {
    hide Step, Enabled, TokensOwned, CachesAgree, Settled;
    RetiredForever(s, es, p.Channel());
    RunKeeps(s, es);
    var s2 := After(s, es);
    if n.Some? { RetiredNotHeld(s2.table, s2.os, n.value, p.Channel()); }
    hide Inv, Run, After, CausesNothing;
    NotHeldSilent(s2, n, p, env, order);
  }

  /** If the first step of a run takes a record from its interface, packets from it are silent at the end of the run. */
  lemma ReplacedSocketSilent(s: State, es: seq<Event>, n: string, v: Service, m: Option<string>, p: Packet,
                             env: Env, order: seq<string>)
    requires Inv(s) && Run(s, es) && es != []
    requires n in s.table && Done(s.table[n], v) == Some(p.Channel())
    requires Lost(s.table[n], v, Step(s, es[0]).table)
    requires m.Some? ==> m.value in After(s, es).table
    ensures CausesNothing(After(s, es), m, p, env, order)
  {
    var s1 := Step(s, es[0]);
    assert Enabled(s, es[0]) && Run(s1, es[1..]) && After(s, es) == After(s1, es[1..]);
    hide Step, Enabled, Inv, Run, After, CausesNothing;
    LostRecordRetired(s, es[0], n, v);
    StepKeeps(s, es[0]);
    StalePacketSilent(s1, es[1..], m, p, env, order);
  }

  // ---------- filter and handler together ----------

  /**
   * A captured packet that passes the filter makes the daemon probe some interface exactly when it is an
   * unforwarded Neighbor Solicitation of at least 64 bytes with code 0 and an allowed target, not the
   * slave's own probe, and there is another relaying interface with its sockets up.
   */
  lemma ProbeIff(T: Table, n: string, sock: NdpSock, srcMac: Mac, ownMac: Option<Mac>, data: seq<byte>)
    requires n in T && T[n].nd == Some(sock) && T[n].ndp.Relay?
    ensures Accepts(NS_FILTER, data) && NdpEffects(T, n, sock, srcMac, ownMac, data) != {} <==>
              && |data| >= 64 && data[6] == 58 && data[40] == 135 && data[7] == 255 && data[41] == 0
              && Mirrorable(Unmap(data[48..64]))
              && (T[n].master || ownMac != Some(srcMac))
              && exists c :: c in T && c != n && T[c].ndp.Relay? && T[c].nd.Some?
  {
    hide Unmap, Mirrorable, Exec;
    NsFilterAccepts(data);
    var target := ProbeTarget(T[n], sock, srcMac, ownMac, data);
    if c :| c in T && c != n && T[c].ndp.Relay? && T[c].nd.Some? {
      assert c in Answering(T, OtherNdp(T, n));
      assert target.Some? ==> RouteOn(c, target.value) in NdpEffects(T, n, sock, srcMac, ownMac, data);
    } else {
      assert Answering(T, OtherNdp(T, n)) == {};
    }
  }

  /** No host route of the probing metric to this target. */
  ghost predicate NoPingRoute(k: Kernel, target: Addr) {
    forall r :: r in k.routes && r.addr == target ==> r.metric != 128
  }

  /** The temporary route of a probe through this interface. */
  function PingRoute(T: Table, n: string, target: Addr): Route
    requires n in T
  {
    Route(target, T[n].ifindex, 128)
  }

  predicate Probing(r: Route, target: Addr) {
    r.addr == target && r.metric == 128
  }

  /** The last temporary route the kernel accepts in a probe loop. */
  function LastPut(T: Table, names: seq<string>, target: Addr, refused: set<Route>): Option<Route>
    decreases |names|
  {
    if names == [] || names[0] !in T then None
    else
      var later := LastPut(T, names[1..], target, refused);
      if later.Some? || T[names[0]].nd.None? || PingRoute(T, names[0], target) in refused then later
      else Some(PingRoute(T, names[0], target))
  }

  /** Some interface of the loop sends its probe along this very route. */
  ghost predicate Probes(T: Table, names: seq<string>, r: Route) {
    exists j :: 0 <= j < |names| && names[j] in T && T[names[j]].nd.Some? && r == PingRoute(T, names[j], r.addr)
  }

  /** Which routes there are after a probe loop. */
  ghost predicate Survives(T: Table, names: seq<string>, target: Addr, k: Kernel, r: Route) {
    if !Probing(r, target) then r in k.routes
    else
      match LastPut(T, names, target, k.refuse.add.routes)
      case Some(q) => r == q && q in k.refuse.del.routes
      case None => r in k.routes && (r in k.refuse.del.routes || !Probes(T, names, r))
  }

  lemma PingKeepsRest(s: State, n: string, target: Addr)
    requires n in s.table
    ensures
      var s2 := Ping(s, n, target);
      && s2.kernel == s.kernel.(routes := s2.kernel.routes) && s2.mirrored == s.mirrored
      && s2.table.Keys == s.table.Keys
      && forall c :: c in s.table ==> s2.table[c].nd == s.table[c].nd && s2.table[c].ifindex == s.table[c].ifindex
  {
    hide Searched, LinkLocalOf;
  }

  /** The routes after one probe, exactly, whatever the kernel refuses to add or to remove. */
  lemma PingRoutes(s: State, n: string, target: Addr, r: Route)
    requires n in s.table
    ensures
      var p := PingRoute(s.table, n, target);
      var refuse := s.kernel.refuse;
      r in Ping(s, n, target).kernel.routes <==>
        if s.table[n].nd.None? || !Probing(r, target) then r in s.kernel.routes
        else if p !in refuse.add.routes then r == p && p in refuse.del.routes
        else r in s.kernel.routes && (r == p ==> p in refuse.del.routes)
  {
    hide Looked;
  }

  lemma {:induction false} LastPutSame(T: Table, U: Table, names: seq<string>, target: Addr, refused: set<Route>)
    requires U.Keys == T.Keys && forall c :: c in T ==> U[c].nd == T[c].nd && U[c].ifindex == T[c].ifindex
    ensures LastPut(U, names, target, refused) == LastPut(T, names, target, refused)
    decreases |names|
  {
    if names != [] { LastPutSame(T, U, names[1..], target, refused); }
  }

  lemma ProbesCons(T: Table, U: Table, names: seq<string>, r: Route)
    requires names != [] && names[0] in T
    requires U.Keys == T.Keys && forall c :: c in T ==> U[c].nd == T[c].nd && U[c].ifindex == T[c].ifindex
    ensures Probes(T, names, r) <==>
              (T[names[0]].nd.Some? && r == PingRoute(T, names[0], r.addr)) || Probes(U, names[1..], r)
  {
    assert forall j :: 0 <= j < |names[1..]| ==> names[1..][j] == names[j + 1];
    if Probes(T, names, r) {
      var j :| 0 <= j < |names| && names[j] in T && T[names[j]].nd.Some? && r == PingRoute(T, names[j], r.addr);
      if j > 0 { assert names[1..][j - 1] == names[j]; }
    }
    if Probes(U, names[1..], r) {
      var j :| 0 <= j < |names[1..]| && names[1..][j] in U && U[names[1..][j]].nd.Some?
               && r == PingRoute(U, names[1..][j], r.addr);
      assert names[j + 1] == names[1..][j];
    }
  }

  /**
   * The routes after the whole probe loop, exactly, whatever the kernel refuses: of the probing routes to the
   * target, the last one it accepted stays if its removal is refused, and nothing else; if it accepted none,
   * those go that are probed along and may be removed.
   */
  lemma {:induction false} ProbeLoopRoutes(s: State, names: seq<string>, target: Addr, r: Route)
    requires forall k :: 0 <= k < |names| ==> names[k] in s.table
    ensures r in PingAll(s, names, target).kernel.routes <==> Survives(s.table, names, target, s.kernel, r)
    decreases |names|
  {
    if names != [] {
      var s1 := Ping(s, names[0], target);
      PingRoutes(s, names[0], target, r);
      PingKeepsRest(s, names[0], target);
      hide Ping, Probes;
      assert forall k :: 0 <= k < |names[1..]| ==> names[1..][k] == names[k + 1];
      ProbeLoopRoutes(s1, names[1..], target, r);
      LastPutSame(s.table, s1.table, names[1..], target, s.kernel.refuse.add.routes);
      ProbesCons(s.table, s1.table, names, r);
    }
  }

  /** The probing routes to a target. */
  function ProbingRoutes(k: Kernel, target: Addr): (q: set<Route>)
    ensures forall r :: r in q <==> r in k.routes && Probing(r, target)
  {
    set r | r in k.routes && Probing(r, target)
  }

  /** What a probe loop finds is what it leaves. */
  ghost predicate LoopKeeps(T: Table, names: seq<string>, target: Addr, k: Kernel) {
    match LastPut(T, names, target, k.refuse.add.routes)
    case Some(q) => ProbingRoutes(k, target) == if q in k.refuse.del.routes then {q} else {}
    case None => forall r :: r in ProbingRoutes(k, target) && Probes(T, names, r) ==> r in k.refuse.del.routes
  }

  /**
   * The whole probe loop leaves proxy entries, neighbours and tracked hosts as they were. Without a foreign
   * route of the probing metric to the target it leaves the routes, too, exactly when the kernel does not
   * refuse to remove the last temporary route it accepted.
   */
  lemma ProbeLoopLeavesNoTrace(s: State, names: seq<string>, target: Addr)
    requires forall k :: 0 <= k < |names| ==> names[k] in s.table
    ensures
      var s2 := PingAll(s, names, target);
      var last := LastPut(s.table, names, target, s.kernel.refuse.add.routes);
      && s2.mirrored == s.mirrored && s2.kernel == s.kernel.(routes := s2.kernel.routes)
      && (NoPingRoute(s.kernel, target) ==>
            (s2.kernel.routes == s.kernel.routes <==> last.None? || last.value !in s.kernel.refuse.del.routes))
  {
    PingAllKeepsRest(s, names, target);
    hide PingAll, LastPut, Probes;
    ProbeLoopRoutesIff(s, names, target);
  }

  lemma {:induction false} PingAllKeepsRest(s: State, names: seq<string>, target: Addr)
    ensures
      var s2 := PingAll(s, names, target);
      s2.mirrored == s.mirrored && s2.kernel == s.kernel.(routes := s2.kernel.routes)
    decreases |names|
  {
    hide Ping;
    if names != [] && names[0] in s.table {
      PingKeepsRest(s, names[0], target);
      PingAllKeepsRest(Ping(s, names[0], target), names[1..], target);
    }
  }

  lemma {:induction false} LastPutProbing(T: Table, names: seq<string>, target: Addr, refused: set<Route>)
    ensures
      var last := LastPut(T, names, target, refused);
      last.Some? ==> Probing(last.value, target) && last.value !in refused && Probes(T, names, last.value)
    decreases |names|
  {
    if names != [] && names[0] in T {
      LastPutProbing(T, names[1..], target, refused);
      var last := LastPut(T, names, target, refused);
      if last.Some? { ProbesCons(T, T, names, last.value); }
    }
  }

  lemma {:induction false} LastPutNone(T: Table, names: seq<string>, target: Addr)
    requires forall k :: 0 <= k < |names| ==> names[k] in T
    ensures LastPut(T, names, target, {}).None? <==> forall k :: 0 <= k < |names| ==> T[names[k]].nd.None?
    decreases |names|
  {
    if names != [] {
      assert forall k :: 0 <= k < |names[1..]| ==> names[1..][k] == names[k + 1];
      assert forall k :: 0 < k < |names| ==> names[k] == names[1..][k - 1];
      LastPutNone(T, names[1..], target);
    }
  }

  /**
   * When the routes stay as they were, whatever the kernel refuses. If it refuses nothing, a foreign route of the
   * probing metric is lost exactly when some probe is sent.
   */
  lemma ProbeLoopRoutesIff(s: State, names: seq<string>, target: Addr)
    requires forall k :: 0 <= k < |names| ==> names[k] in s.table
    ensures PingAll(s, names, target).kernel.routes == s.kernel.routes <==> LoopKeeps(s.table, names, target, s.kernel)
    ensures s.kernel.refuse == NO_REFUSAL ==>
      (LoopKeeps(s.table, names, target, s.kernel) <==>
         NoPingRoute(s.kernel, target) || forall k :: 0 <= k < |names| ==> s.table[names[k]].nd.None?)
  {
    var refuse := s.kernel.refuse;
    LastPutProbing(s.table, names, target, refuse.add.routes);
    LastPutNone(s.table, names, target);
    forall r ensures r in PingAll(s, names, target).kernel.routes <==> Survives(s.table, names, target, s.kernel, r) {
      ProbeLoopRoutes(s, names, target, r);
    }
    hide PingAll, LastPut, Probes;
  }

  /**
   * A processed packet, whatever it is: proxy entries, neighbours and tracked hosts stay, and so do the routes
   * unless it is a solicitation to probe for and its loop does not leave the probing routes it finds; if the
   * kernel refuses nothing, that takes a probe that is sent and a foreign metric-128 route.
   */
  lemma PacketRoutesIff(s: State, n: Option<string>, p: Packet, mac: Option<Mac>, order: seq<string>)
    requires Enabled(s, EvPacket(n, p, mac, order))
    ensures
      var s2 := Step(s, EvPacket(n, p, mac, order));
      var target := ProbedBy(s.table, n, p, mac);
      && s2.mirrored == s.mirrored && s2.kernel == s.kernel.(routes := s2.kernel.routes)
      && (s2.kernel.routes == s.kernel.routes <==> target.None? || LoopKeeps(s.table, order, target.value, s.kernel))
      && (s.kernel.refuse == NO_REFUSAL && target.Some? ==>
            (LoopKeeps(s.table, order, target.value, s.kernel) <==>
               NoPingRoute(s.kernel, target.value) || Answering(s.table, OtherNdp(s.table, n.value)) == {}))
  {
    hide PingAll, NoPingRoute, ProbeTarget, LoopKeeps;
    var target := ProbedBy(s.table, n, p, mac);
    if target.Some? {
      forall k | 0 <= k < |order| ensures order[k] in Elements(order) && order[k] in s.table { }
      PingAllKeepsRest(s, order, target.value);
      ProbeLoopRoutesIff(s, order, target.value);
      var probed := Answering(s.table, OtherNdp(s.table, n.value));
      if c :| c in probed {
        assert c in Elements(order);
      }
      if k :| 0 <= k < |order| && s.table[order[k]].nd.Some? { assert order[k] in probed; }
    }
  }
}

/** Reload, link events and all other engine steps as functions on the daemon's state. */
module Daemon {
  import opened Common
  import opened Addresses
  import opened KernelModel
  import opened Model
  import opened Services
  import opened LinkLocal
  import opened Mirror

  // ---------- one interface's services ----------

  function SetupRouter(s: State, n: string, enable: bool, fault: RouterFault): State
    requires n in s.table
  {
    var r := RouterSetup(s.table[n], s.os, enable, fault);
    s.(table := s.table[n := r.i], os := r.os)
  }

  function SetupDhcp(s: State, n: string, enable: bool, fault: DhcpFault): State
    requires n in s.table
  {
    var r := DhcpSetup(s.table[n], s.os, enable, fault);
    s.(table := s.table[n := r.i], os := r.os)
  }

  /** ndpSetup: once the capture socket is up, the hosts the kernel already resolved are mirrored. */
  function SetupNdp(s: State, n: string, enable: bool, fault: NdpFault, listed: bool): State
    requires n in s.table
  {
    var r := NdpSetup(s.table[n], s.os, s.kernel, enable, fault);
    var s1 := s.(table := s.table[n := r.i], os := r.os, kernel := r.kernel);
    if r.i.nd.Some? then Seed(s1, r.i, listed) else s1
  }

  /** Setups with enable == false never reach a step that can fail. */
  function DisableServices(s: State, n: string): State
    requires n in s.table
  {
    SetupNdp(SetupDhcp(SetupRouter(s, n, false, RNone), n, false, DNone), n, false, NNone, true)
  }

  function ReloadServices(s: State, n: string, f: Faults): State
    requires n in s.table
  {
    if s.table[n].running then
      var s1 := SetupRouter(s, n, !s.table[n].ra.Disabled?, f.router);
      var s2 := SetupDhcp(s1, n, !s1.table[n].dhcpv6.Disabled?, f.dhcp);
      SetupNdp(s2, n, !s2.table[n].ndp.Disabled?, f.ndp, f.neighsListed)
    else DisableServices(s, n)
  }

  function CloseInterface(s: State, n: string): State
    requires n in s.table
  {
    var s1 := DisableServices(s, n);
    var r := StopTimer(s1.table[n], s1.os);
    s1.(table := s1.table - {n}, os := r.os)
  }

  // ---------- configuration ----------

  datatype JsonIface = JsonIface(
    ifname: Option<string>, master: Option<bool>, ndproxyRouting: Option<bool>, ndpFromLinkLocal: Option<bool>)
  datatype Link = Link(index: int, running: bool)

  /** One decoded interface entry with the outcome of its link lookup and address listing. */
  datatype Entry = Entry(name: string, json: JsonIface, link: Option<Link>, addrs: seq<IPAddr>)

  function FindOrCreate(s: State, n: string): State {
    if n in s.table then s
    else s.(table := s.table[n := Defaults(FreshIface(n, s.os.nextId))], os := s.os.(nextId := s.os.nextId + 1))
  }

  function Or(o: Option<bool>, d: bool): bool {
    match o
    case Some(b) => b
    case None => d
  }

  function Options(i: Iface, j: JsonIface): Iface {
    i.(conf := i.conf.(inuse := true, master := Or(j.master, i.master),
                       learnRoutes := Or(j.ndproxyRouting, i.learnRoutes),
                       ndpFromLinkLocal := Or(j.ndpFromLinkLocal, i.ndpFromLinkLocal)))
  }

  /** Sockets and mirrored hosts of an interface that is about to sit on another netdev go first. */
  function Detach(s: State, n: string): State
    requires n in s.table
  {
    var s1 := DisableServices(s, n);
    ClearMirrored(s1, s1.table[n])
  }

  function Attach(i: Iface, ifname: string, link: Link): Iface {
    i.(conf := i.conf.(ifname := ifname, ifindex := link.index, running := link.running))
  }

  /** An interface is put on a netdev, after leaving the one it is on if that is another one. */
  function Moved(s: State, n: string, newIfname: string, link: Link, addrs: seq<IPAddr>): (s2: State)
    requires n in s.table
    ensures n in s2.table
  {
    var i := s.table[n];
    var s2 := if i.ifindex != 0 && (i.ifname != newIfname || i.ifindex != link.index) then Detach(s, n) else s;
    s2.(table := s2.table[n := Refresh(Attach(s2.table[n], newIfname, link), addrs)])
  }

  /** What an entry that names a known interface, and a link that exists, does. */
  function Accepted(s: State, e: Entry): State
    requires e.name in s.table && (e.json.ifname.Some? ==> e.link.Some?)
  {
    var s2 := if e.json.ifname.None? then s else Moved(s, e.name, e.json.ifname.value, e.link.value, e.addrs);
    s2.(table := s2.table[e.name := Options(s2.table[e.name], e.json)])
  }

  /** An entry without a netdev name for an interface that has none either, or with one that no link has. */
  predicate Rejected(i: Iface, e: Entry) {
    (i.ifname == "" && e.json.ifname.None?) || (e.json.ifname.Some? && e.link.None?)
  }

  /** parseInterfaceJSON: an entry that is rejected may still have created its interface. */
  function Parse(s: State, e: Entry): State {
    var s1 := FindOrCreate(s, e.name);
    if Rejected(s1.table[e.name], e) then s1 else Accepted(s1, e)
  }

  function ParseAll(s: State, cfg: seq<Entry>): State
    decreases |cfg|
  {
    if cfg == [] then s else ParseAll(Parse(s, cfg[0]), cfg[1..])
  }

  function Unused(i: Iface): Iface {
    i.(conf := i.conf.(inuse := false))
  }

  function ResetAll(s: State): State {
    s.(table := map n | n in s.table :: Unused(Defaults(s.table[n])))
  }

  /** Which services some slave relays. */
  datatype Slaves = Slaves(ra: bool, dhcpv6: bool, ndp: bool)

  /** Entries about to be closed still count. */
  function SlavesOf(T: Table): Slaves {
    Slaves(exists n :: n in T && !T[n].master && T[n].ra.Relay?,
           exists n :: n in T && !T[n].master && T[n].dhcpv6.Relay?,
           exists n :: n in T && !T[n].master && T[n].ndp.Relay?)
  }

  /** A master stops relaying a service that no slave relays. */
  function IdleMaster(i: Iface, any: Slaves): Iface {
    if !i.master then i
    else i.(conf := i.conf.(ra := if any.ra then i.ra else Disabled,
                            dhcpv6 := if any.dhcpv6 then i.dhcpv6 else Disabled,
                            ndp := if any.ndp then i.ndp else Disabled))
  }

  function DisableIdleMasters(s: State): State {
    s.(table := map n | n in s.table :: IdleMaster(s.table[n], SlavesOf(s.table)))
  }

  /** One interface of the final pass of Reload, with the faults its setups meet. */
  datatype Restart = Restart(name: string, faults: Faults)

  function RestartOne(s: State, r: Restart): State
    requires r.name in s.table
  {
    if s.table[r.name].inuse then ReloadServices(s, r.name, r.faults) else CloseInterface(s, r.name)
  }

  function RestartAll(s: State, order: seq<Restart>): State
    decreases |order|
  {
    if order == [] || order[0].name !in s.table then s else RestartAll(RestartOne(s, order[0]), order[1..])
  }

  /** Reload up to its final pass; an unreadable configuration file is the empty entry list. */
  function Configure(s: State, cfg: seq<Entry>): State {
    DisableIdleMasters(ParseAll(ResetAll(s), cfg))
  }

  function Reload(s: State, cfg: seq<Entry>, order: seq<Restart>): State {
    RestartAll(Configure(s, cfg), order)
  }

  // ---------- netlink link and address events ----------

  datatype LinkEvent = DelLink(index: int) | NewLink(index: int, running: bool)

  function WithRunning(i: Iface, running: bool): Iface {
    i.(conf := i.conf.(running := running))
  }

  /** The record of an interface whose netdev was deleted. */
  function Gone(i: Iface): Iface {
    i.(conf := i.conf.(ifindex := 0, running := false), cache := Cache([], i.cache.cachedLL, false, false))
  }

  function HandleLink(s: State, n: string, u: LinkEvent, addrs: seq<IPAddr>, f: Faults): State
    requires n in s.table
  {
    match u
    case DelLink(index) =>
      if s.table[n].ifindex != index then s
      else
        var s1 := Detach(s, n);
        s1.(table := s1.table[n := Gone(s1.table[n])])
    case NewLink(index, running) =>
      if s.table[n].ifindex == index then
        var i := WithRunning(s.table[n], running);
        if s.table[n].running == running then s.(table := s.table[n := i])
        else
          var i1 := if running then Refresh(i, addrs) else i;
          ReloadServices(s.(table := s.table[n := i1]), n, f)
      else
        var s1 := Detach(s, n);
        var i1 := Refresh(Attach(s1.table[n], s1.table[n].ifname, Link(index, running)), addrs);
        ReloadServices(s1.(table := s1.table[n := i1]), n, f)
  }

  function HandleAddr(s: State, n: string, addrs: seq<IPAddr>, addr: Addr, add: bool): State
    requires n in s.table
  {
    if addr.V4? then s
    else
      var i := Refresh(s.table[n], addrs);
      var s1 := s.(table := s.table[n := i]);
      if OwnEligible(i, addr) then s1.(kernel := MirrorAddrs(s1.kernel, s1.table, i, {addr}, add)) else s1
  }

  // ---------- route events and the debounced reconcile ----------

  /** A route notification as handleRouteEvent sees it; `owner` is the interface its index names. */
  datatype RouteEvent = RouteEvent(deleted: bool, metric: int, prefixLen: int, owner: Option<string>)

  predicate Qualifies(T: Table, u: RouteEvent) {
    u.deleted && u.metric == OUR_METRIC && u.prefixLen == 128
    && u.owner.Some? && u.owner.value in T && T[u.owner.value].ndp.Relay?
  }

  function HandleRoute(s: State, u: RouteEvent): State {
    if !Qualifies(s.table, u) || s.scheduled then s
    else s.(scheduled := true, wakeTimers := s.wakeTimers + 1)
  }

  function Reconcile(s: State, todo: seq<Target>): State
    requires s.wakeQueued > 0
  {
    s.(scheduled := false, wakeQueued := s.wakeQueued - 1, kernel := ReconcileKernel(s, todo))
  }

  // ---------- solicitation timers ----------

  const MAX_SOLICITATIONS: nat := 3

  /** The generation is the interface's newest, and the interface is a master with a router socket. */
  predicate Current(i: Iface, gen: nat) {
    i.rsTimerN == gen && i.router.Some? && i.master && i.ra.Relay?
  }

  /** One solicitation attempt; without a link-local address, or when the send fails, it is repeated. */
  function Solicit(i: Iface, os: Os, gen: nat, sendOk: bool): Svc {
    if LinkLocalOf(i.cache).None? then Arm(i, os, gen)
    else if !sendOk then Arm(Looked(i), os, gen)
    else
      var i2 := Looked(i).(raSent := i.raSent + 1);
      var os2 := os.(sent := os.sent + multiset{Token(i.id, gen)});
      if i2.raSent < MAX_SOLICITATIONS then Arm(i2, os2, gen) else Svc(i2, os2)
  }

  /** solicitTimerFire for generation `gen`; `sendOk` is the outcome of the send. */
  function SolicitFire(i: Iface, os: Os, gen: nat, sendOk: bool): Svc {
    if Current(i, gen) then Solicit(i, os, gen, sendOk) else Svc(i, os)
  }

  /** A timer expires: its closure is posted to the queue. */
  function Expire(s: State, tok: Token): State {
    s.(os := s.os.(timers := s.os.timers - multiset{tok}, queued := s.os.queued + multiset{tok}))
  }

  /** The posted closure of a token runs; a closed interface's record has no router socket left. */
  function RunSolicit(s: State, tok: Token, n: Option<string>, sendOk: bool): State
    requires n.Some? ==> n.value in s.table
  {
    var os := s.os.(queued := s.os.queued - multiset{tok});
    match n
    case None => s.(os := os)
    case Some(name) =>
      var r := SolicitFire(s.table[name], os, tok.gen, sendOk);
      s.(table := s.table[name := r.i], os := r.os)
  }

  // ---------- packets ----------

  /** A packet waits in the queue together with the socket record it came from. */
  datatype Packet =
    | Icmp(sock: RouterSock, data: seq<byte>)
    | Dhcp(dsock: DhcpSock, source: Bytes16, ddata: seq<byte>)
    | Solicitation(nsock: NdpSock, srcMac: Mac, ndata: seq<byte>)
  {
    function Channel(): Handle {
      match this
      case Icmp(r, _) => r.done
      case Dhcp(d, _, _) => d.done
      case Solicitation(n, _, _) => n.done
    }
  }

  /** The target handleSolicit goes on with: the packet is long enough, unforwarded, of code 0, to an allowed target. */
  function SolicitTarget(data: seq<byte>): Option<Addr> {
    if |data| < 64 || data[7] != 255 || data[41] != 0 || !Mirrorable(Unmap(data[48..64])) then None
    else Some(Unmap(data[48..64]))
  }

  /** The target to probe for, unless the record was replaced or a slave hears its own probe. */
  function ProbeTarget(i: Iface, sock: NdpSock, srcMac: Mac, ownMac: Option<Mac>, data: seq<byte>): Option<Addr> {
    if i.nd != Some(sock) || !i.ndp.Relay? || (ownMac == Some(srcMac) && !i.master) then None
    else SolicitTarget(data)
  }

  /** What a packet makes the daemon probe for; `owner` is the interface of its record, if it is still configured. */
  function ProbedBy(T: Table, owner: Option<string>, p: Packet, ownMac: Option<Mac>): Option<Addr>
    requires owner.Some? ==> owner.value in T
  {
    if owner.Some? && p.Solicitation? then ProbeTarget(T[owner.value], p.nsock, p.srcMac, ownMac, p.ndata) else None
  }

  /** The interfaces a solicitation of this interface is passed on to. */
  function OtherNdp(T: Table, name: string): (r: set<string>)
    ensures forall n :: n in r <==> n in T && n != name && T[n].ndp.Relay?
  {
    set n | n in T && n != name && T[n].ndp.Relay?
  }

  /** relayPing: the temporary route comes and goes; the link-local cache may get filled. */
  function Ping(s: State, n: string, target: Addr): State
    requires n in s.table
  {
    var i := s.table[n];
    if i.nd.None? then s
    else
      var k := DelRoutes(ReplaceRoutes(s.kernel, {target}, i.ifindex, PING_METRIC), {target}, i.ifindex, PING_METRIC);
      s.(kernel := k, table := s.table[n := if i.ndpFromLinkLocal then Looked(i) else i])
  }

  function PingAll(s: State, names: seq<string>, target: Addr): State
    decreases |names|
  {
    if names == [] || names[0] !in s.table then s else PingAll(Ping(s, names[0], target), names[1..], target)
  }

  /** A queued packet is processed: only a Neighbor Solicitation changes anything, by the probes it causes. */
  function Receive(s: State, owner: Option<string>, p: Packet, ownMac: Option<Mac>, order: seq<string>): State
    requires owner.Some? ==> owner.value in s.table
  {
    match ProbedBy(s.table, owner, p, ownMac)
    case None => s
    case Some(target) => PingAll(s, order, target)
  }

  // ---------- the engine ----------

  datatype Event =
    | EvReload(cfg: seq<Entry>, order: seq<Restart>)
    | EvLink(name: string, link: LinkEvent, addrs: seq<IPAddr>, faults: Faults)
    | EvAddr(name: string, addrs: seq<IPAddr>, addr: Addr, add: bool)
    | EvNeigh(name: string, addr: Addr, nud: Nud)
    | EvRoute(route: RouteEvent)
    | EvWakeExpires
    | EvReconcile(todo: seq<Target>)
    | EvSweep(visits: seq<Visit>)
    | EvSolicitExpires(tok: Token)
    | EvSolicit(tok: Token, owner: Option<string>, sendOk: bool)
    | EvPacket(receiver: Option<string>, packet: Packet, ownMac: Option<Mac>, probes: seq<string>)
    | EvOutside(kernel: Kernel)

  function Step(s: State, e: Event): State
    requires Enabled(s, e)
  {
    match e
    case EvReload(cfg, order) => Reload(s, cfg, order)
    case EvLink(n, u, addrs, f) => HandleLink(s, n, u, addrs, f)
    case EvAddr(n, addrs, addr, add) => HandleAddr(s, n, addrs, addr, add)
    case EvNeigh(n, addr, nud) => HandleNeigh(s, s.table[n], addr, nud)
    case EvRoute(u) => HandleRoute(s, u)
    case EvWakeExpires => s.(wakeTimers := s.wakeTimers - 1, wakeQueued := s.wakeQueued + 1)
    case EvReconcile(todo) => Reconcile(s, todo)
    case EvSweep(visits) => SweepAll(s, visits)
    case EvSolicitExpires(tok) => Expire(s, tok)
    case EvSolicit(tok, n, sendOk) => RunSolicit(s, tok, n, sendOk)
    case EvPacket(n, p, mac, order) => Receive(s, n, p, mac, order)
    case EvOutside(k) => s.(kernel := k)
  }

  function RestartNames(order: seq<Restart>): seq<string> {
    seq(|order|, k requires 0 <= k < |order| => order[k].name)
  }

  function VisitNames(visits: seq<Visit>): seq<string> {
    seq(|visits|, k requires 0 <= k < |visits| => visits[k].name)
  }

  /** The targets a reconcile re-asserts: own addresses, and tracked hosts of configured interfaces. */
  ghost predicate IsTarget(s: State, t: Target) {
    t.name in s.table
    && (t.addr in OwnAddrs(s.table[t.name]) || Key(t.addr, s.table[t.name].ifindex) in s.mirrored)
  }

  /** `todo` holds targets only, every own address, and every tracked host of some configured interface. */
  ghost predicate ReconcileOrder(s: State, todo: seq<Target>) {
    && (forall t :: t in todo ==> IsTarget(s, t))
    && (forall n, a :: n in s.table && a in OwnAddrs(s.table[n]) ==> Target(a, n) in todo)
    && (forall k, n :: k in s.mirrored && n in s.table && s.table[n].ifindex == k.ifindex ==>
          exists m :: m in s.table && s.table[m].ifindex == k.ifindex && Target(k.addr, m) in todo)
  }

  /** When an event can happen, and which of its recorded outcomes the environment can produce. */
  ghost predicate Enabled(s: State, e: Event) {
    match e
    case EvReload(cfg, order) =>
      && (forall k :: 0 <= k < |cfg| && cfg[k].link.Some? ==> cfg[k].link.value.index > 0)
      && Distinct(RestartNames(order)) && Elements(RestartNames(order)) == Configure(s, cfg).table.Keys
    case EvLink(n, u, _, _) => n in s.table && u.index > 0
    case EvAddr(n, _, _, _) => n in s.table && s.table[n].ifindex > 0
    case EvNeigh(n, _, _) => n in s.table && s.table[n].ifindex > 0
    case EvRoute(_) => true
    case EvWakeExpires => s.wakeTimers > 0
    case EvReconcile(todo) => s.wakeQueued > 0 && ReconcileOrder(s, todo)
    case EvSweep(visits) => Distinct(VisitNames(visits)) && Elements(VisitNames(visits)) == s.table.Keys
    case EvSolicitExpires(tok) => tok in s.os.timers
    case EvSolicit(tok, n, _) =>
      && tok in s.os.queued
      && (n.Some? ==> n.value in s.table && s.table[n.value].id == tok.id)
      && (n.None? ==> forall m :: m in s.table ==> s.table[m].id != tok.id)
    case EvPacket(n, p, mac, order) =>
      && (n.Some? ==> n.value in s.table)
      && (ProbedBy(s.table, n, p, mac).Some? ==> Distinct(order) && Elements(order) == OtherNdp(s.table, n.value))
    case EvOutside(_) => true
  }

  /** A run: every event is enabled where it happens. */
  ghost predicate Run(s: State, es: seq<Event>)
    decreases |es|
  {
    es == [] || (Enabled(s, es[0]) && Run(Step(s, es[0]), es[1..]))
  }

  ghost function After(s: State, es: seq<Event>): State
    requires Run(s, es)
    decreases |es|
  {
    if es == [] then s else After(Step(s, es[0]), es[1..])
  }

  /** The state before event `n` of a run. */
  ghost function StateAt(s: State, es: seq<Event>, n: nat): State
    requires Run(s, es) && n <= |es|
    decreases n
  {
    if n == 0 then s else StateAt(Step(s, es[0]), es[1..], n - 1)
  }

  lemma {:induction false} StateAtStep(s: State, es: seq<Event>, n: nat)
    requires Run(s, es) && n < |es|
    ensures Enabled(StateAt(s, es, n), es[n])
    ensures StateAt(s, es, n + 1) == Step(StateAt(s, es, n), es[n])
    decreases n
  {
    hide Step, Enabled;
    if n > 0 {
      StateAtStep(Step(s, es[0]), es[1..], n - 1);
    } else {
      assert StateAt(s, es, 1) == StateAt(Step(s, es[0]), es[1..], 0);
    }
  }
}

/** The mirror over whole runs of the engine: agreement with the kernel, and tracking against the history. */
module MirrorRuns {
  import opened Common
  import opened Addresses
  import opened KernelModel
  import opened Model
  import opened Services
  import opened LinkLocal
  import opened Mirror
  import opened Daemon
  import opened Agreement
  import opened Healing
  import opened Loops
  import opened Outcomes
  import opened FinalPass
  import opened Configuring
  import opened Packets
  import opened StaleIndex
  import opened SweepCorrectness

  // ---------- agreement ----------

  /** The same interfaces in the same roles, under the same indexes. */
  ghost predicate SameRoles(T: Table, U: Table) {
    U.Keys == T.Keys
    && forall n :: n in T ==> U[n].ifindex == T[n].ifindex && U[n].master == T[n].master && U[n].ndp == T[n].ndp
                              && U[n].learnRoutes == T[n].learnRoutes
  }

  /** The same proxy entries, the same routes of the daemon's metric, and no refusals. */
  predicate SameMirror(k: Kernel, k2: Kernel) {
    && k2.proxies == k.proxies && k2.refuse == k.refuse
    && (forall r :: r in k.routes && r.metric == OUR_METRIC ==> r in k2.routes)
    && (forall r :: r in k2.routes && r.metric == OUR_METRIC ==> r in k.routes)
  }

  lemma SameCarriers(T: Table, U: Table, ifindex: int)
    requires SameRoles(T, U)
    ensures Carriers(U, ifindex) == Carriers(T, ifindex)
  {
    assert Masters(U, ifindex) == Masters(T, ifindex);
    forall x ensures x in Carriers(U, ifindex) <==> x in Carriers(T, ifindex) {
      if c :| c in Masters(T, ifindex) && T[c].ifindex == x { assert U[c].ifindex == x; }
      if c :| c in Masters(U, ifindex) && U[c].ifindex == x { assert T[c].ifindex == x; }
    }
  }

  /** Agreement depends on roles, tracked hosts and the mirror's part of the kernel only. */
  lemma SameKeepsReady(s: State, s2: State)
    requires Ready(s) && SameRoles(s.table, s2.table) && s2.mirrored == s.mirrored && SameMirror(s.kernel, s2.kernel)
    ensures Ready(s2)
  {
    hide Carriers, Mirrorable;
    forall x ensures Carriers(s2.table, x) == Carriers(s.table, x) { SameCarriers(s.table, s2.table, x); }
    assert forall p :: WantsProxy(s2.table, s2.mirrored, p) <==> WantsProxy(s.table, s.mirrored, p);
  }

  lemma ConfsKeepRoles(T: Table, U: Table)
    requires SameConfs(T, U)
    ensures SameRoles(T, U)
  {
  }

  lemma ReadyLearns(s: State, n: string)
    requires Ready(s) && n in s.table
    ensures s.table[n].learnRoutes
  {
  }

  /** The socket part of ndpSetup touches the proxy_ndp flag at most. */
  lemma NdpKernel(i: Iface, os: Os, k: Kernel, enable: bool, fault: NdpFault)
    ensures SameMirror(k, NdpSetup(i, os, k, enable, fault).kernel)
  {
    hide NdpSetup;
    NdpSetupKernel(i, os, k, enable, fault);
  }

  /** The state after the socket part of ndpSetup. */
  function NdpSockets(s: State, n: string, enable: bool, fault: NdpFault): State
    requires n in s.table
  {
    var r := NdpSetup(s.table[n], s.os, s.kernel, enable, fault);
    s.(table := s.table[n := r.i], os := r.os, kernel := r.kernel)
  }

  lemma NdpSocketsAgree(s: State, n: string, enable: bool, fault: NdpFault)
    requires Ready(s) && n in s.table
    ensures Ready(NdpSockets(s, n, enable, fault))
  {
    hide NdpSetup, Ready, SameMirror;
    NdpKernel(s.table[n], s.os, s.kernel, enable, fault);
    SameKeepsReady(s, NdpSockets(s, n, enable, fault));
  }

  /** Only the seeding of ndpSetup touches the mirror. */
  lemma NdpAgrees(s: State, n: string, enable: bool, fault: NdpFault, listed: bool)
    requires Ready(s) && n in s.table && OneHome(SetupNdp(s, n, enable, fault, listed).mirrored)
    ensures Ready(SetupNdp(s, n, enable, fault, listed))
  {
    hide NdpSetup, Ready, Seed, OneHome;
    var s1 := NdpSockets(s, n, enable, fault);
    NdpSocketsAgree(s, n, enable, fault);
    ReadyLearns(s1, n);
    if s1.table[n].nd.Some? { SeedAgrees(s1, s1.table[n], listed); }
  }

  lemma SocketsAgree(s: State, n: string, r: bool, rf: RouterFault, d: bool, df: DhcpFault)
    requires Ready(s) && n in s.table
    ensures n in SetupRouter(s, n, r, rf).table && n in SetupDhcp(SetupRouter(s, n, r, rf), n, d, df).table
    ensures Ready(SetupDhcp(SetupRouter(s, n, r, rf), n, d, df))
  {
    hide RouterSetup, DhcpSetup, Ready;
    var s1 := SetupRouter(s, n, r, rf);
    RouterKeepsConfs(s, n, r, rf);
    ConfsKeepRoles(s.table, s1.table);
    SameKeepsReady(s, s1);
    var s2 := SetupDhcp(s1, n, d, df);
    DhcpKeepsConfs(s1, n, d, df);
    ConfsKeepRoles(s1.table, s2.table);
    SameKeepsReady(s1, s2);
  }

  lemma RestartAgrees(s: State, n: string, f: Faults)
    requires Ready(s) && n in s.table && OneHome(ReloadServices(s, n, f).mirrored)
    ensures Ready(ReloadServices(s, n, f))
  {
    hide RouterSetup, DhcpSetup, SetupNdp, Ready, OneHome;
    if s.table[n].running {
      var ra := !s.table[n].ra.Disabled?;
      var s1 := SetupRouter(s, n, ra, f.router);
      SocketsAgree(s, n, ra, f.router, !s1.table[n].dhcpv6.Disabled?, f.dhcp);
      var s2 := SetupDhcp(s1, n, !s1.table[n].dhcpv6.Disabled?, f.dhcp);
      NdpAgrees(s2, n, !s2.table[n].ndp.Disabled?, f.ndp, f.neighsListed);
    } else {
      SocketsAgree(s, n, false, RNone, false, DNone);
      NdpAgrees(SetupDhcp(SetupRouter(s, n, false, RNone), n, false, DNone), n, false, NNone, true);
    }
  }

  lemma ReplacedAgrees(s: State, n: string, j: Iface)
    requires Ready(s) && n in s.table && SameRoles(s.table, s.table[n := j])
    ensures Ready(s.(table := s.table[n := j]))
  {
    hide Ready, SameRoles;
    SameKeepsReady(s, s.(table := s.table[n := j]));
  }

  /** The carrier of a link comes or goes. */
  lemma ToggleAgrees(s: State, n: string, running: bool, addrs: seq<IPAddr>, f: Faults)
    requires Ready(s) && n in s.table
    requires OneHome(HandleLink(s, n, NewLink(s.table[n].ifindex, running), addrs, f).mirrored)
    ensures Ready(HandleLink(s, n, NewLink(s.table[n].ifindex, running), addrs, f))
  {
    hide HandleLink, ReloadServices, Toggled, Ready, OneHome;
    LinkCases(s, n, NewLink(s.table[n].ifindex, running), addrs, f);
    var i := Toggled(s.table[n], running, addrs);
    ToggledRoles(s.table, n, running, addrs);
    ReplacedAgrees(s, n, i);
    hide SameRoles;
    if s.table[n].running != running { RestartAgrees(s.(table := s.table[n := i]), n, f); }
  }

  lemma ToggledRoles(T: Table, n: string, running: bool, addrs: seq<IPAddr>)
    requires n in T
    ensures SameRoles(T, T[n := Toggled(T[n], running, addrs)])
  {
    hide Refreshed;
  }

  lemma VisitAgrees(s: State, i: Iface, v: Visit)
    requires Ready(s) && i.learnRoutes && OneHome(s.mirrored)
    ensures Ready(VisitOne(s, i, v)) && VisitOne(s, i, v).mirrored <= s.mirrored && VisitOne(s, i, v).table == s.table
  {
    SweepCases(s, i, v.neighsListed, v.routesListed);
    SweepAgrees(s, i);
    hide Ready, MirrorAddrs, Orphans, LiveOn, FailedOn;
  }

  lemma {:induction false} RoundAgrees(s: State, visits: seq<Visit>)
    requires Ready(s) && OneHome(s.mirrored)
    ensures Ready(SweepAll(s, visits))
    decreases |visits|
  {
    if visits != [] && visits[0].name in s.table {
      ReadyLearns(s, visits[0].name);
      hide Ready, VisitOne;
      VisitAgrees(s, s.table[visits[0].name], visits[0]);
      RoundAgrees(VisitOne(s, s.table[visits[0].name], visits[0]), visits[1..]);
    }
  }

  /** All targets are tracked hosts. */
  ghost predicate TrackedOnly(s: State, todo: seq<Target>) {
    forall t :: t in todo ==> t.name in s.table && Key(t.addr, s.table[t.name].ifindex) in s.mirrored
  }

  lemma AskedIsWanted(s: State, todo: seq<Target>, p: Proxy)
    requires TrackedOnly(s, todo) && AskedProxy(s.table, todo, p)
    ensures WantsProxy(s.table, s.mirrored, p)
  {
    var t :| t in todo && t.addr == p.addr && p.ifindex in Carriers(s.table, s.table[t.name].ifindex);
    assert Key(t.addr, s.table[t.name].ifindex) in s.mirrored;
  }

  /** The route asked for last is there already, and with one home per address there is no other. */
  lemma LastIsThere(s: State, todo: seq<Target>, r: Route)
    requires TrackedOnly(s, todo) && RoutesAgree(s) && OneHome(s.mirrored) && r.metric == OUR_METRIC
    requires LastAsked(s.table, todo, {}, r.addr).Some?
    ensures r == LastAsked(s.table, todo, {}, r.addr).value <==> r in s.kernel.routes
  {
    hide LastAsked;
    LastAskedIff(s.table, todo, {}, r.addr);
    var t :| t in todo && t.addr == r.addr && RouteFor(s.table, t) == LastAsked(s.table, todo, {}, r.addr);
    assert Key(t.addr, s.table[t.name].ifindex) in s.mirrored;
  }

  /** Re-asserting tracked hosts only, when everything they call for is there, changes nothing of the mirror. */
  lemma ReconcileAgrees(s: State, todo: seq<Target>)
    requires Ready(s) && OneHome(s.mirrored) && NoOwnAddrs(s.table) && ReconcileOrder(s, todo)
    ensures SameMirror(s.kernel, ReconcileKernel(s, todo))
  {
    var k0 := SetFlags(s.kernel, NdpIfnames(s.table));
    var k := ReconcileKernel(s, todo);
    assert TrackedOnly(s, todo) && RoutesAgree(s) && ProxiesAgree(s);
    AddTargetsNeighs(k0, s.table, todo);
    hide ReconcileOrder, OwnAddrs, Ready, OneHome, LastAsked, AddTargets, RoutesAgree, WantsProxy, AskedProxy;
    forall p ensures p in k.proxies <==> p in s.kernel.proxies {
      AddTargetsProxies(k0, s.table, todo, p);
      if AskedProxy(s.table, todo, p) { AskedIsWanted(s, todo, p); }
    }
    forall r: Route | r.metric == OUR_METRIC ensures r in k.routes <==> r in s.kernel.routes {
      AddTargetsRoutes(k0, s.table, todo, r);
      if LastAsked(s.table, todo, {}, r.addr).Some? { LastIsThere(s, todo, r); }
    }
  }

  lemma {:induction false} PingsKeepMirror(s: State, names: seq<string>, target: Addr)
    ensures
      var s2 := PingAll(s, names, target);
      SameMirror(s.kernel, s2.kernel) && s2.mirrored == s.mirrored && SameRoles(s.table, s2.table)
    decreases |names|
  {
    if names != [] && names[0] in s.table {
      var s1 := Ping(s, names[0], target);
      PingKeepsMirror(s, names[0], target);
      PingsKeepMirror(s1, names[1..], target);
      var s2 := PingAll(s1, names[1..], target);
      assert PingAll(s, names, target) == s2;
      hide Ping, PingAll, SameMirror, SameRoles;
      SameTwice(s, s1, s2);
    }
  }

  lemma SameTwice(s: State, s1: State, s2: State)
    requires SameMirror(s.kernel, s1.kernel) && SameRoles(s.table, s1.table)
    requires SameMirror(s1.kernel, s2.kernel) && SameRoles(s1.table, s2.table)
    ensures SameMirror(s.kernel, s2.kernel) && SameRoles(s.table, s2.table)
  {
  }

  lemma PingKeepsMirror(s: State, n: string, target: Addr)
    requires n in s.table
    ensures
      var s2 := Ping(s, n, target);
      SameMirror(s.kernel, s2.kernel) && s2.mirrored == s.mirrored && SameRoles(s.table, s2.table)
  {
    PingKeepsRest(s, n, target);
    forall r: Route | r.metric == OUR_METRIC ensures r in Ping(s, n, target).kernel.routes <==> r in s.kernel.routes {
      PingRoutes(s, n, target, r);
    }
    hide Searched, LinkLocalOf, ReplaceRoutes, DelRoutes;
  }

  /**
   * The events of a run that neither a reload, nor a netdev that comes or goes, nor an own address disturbs, and
   * in which the outside leaves the mirror's part of the kernel alone.
   */
  ghost predicate Undisturbed(s: State, e: Event) {
    match e
    case EvReload(_, _) => false
    case EvLink(n, u, _, _) => n in s.table && u.NewLink? && s.table[n].ifindex == u.index
    case EvAddr(_, _, _, _) => false
    case EvReconcile(_) => NoOwnAddrs(s.table)
    case EvOutside(k) => SameMirror(s.kernel, k)
    case _ => true
  }

  lemma StepAgrees(s: State, e: Event)
    requires Ready(s) && OneHome(s.mirrored) && Enabled(s, e) && Undisturbed(s, e) && OneHome(Step(s, e).mirrored)
    ensures Ready(Step(s, e))
  {
    hide Ready, OneHome, HandleLink, HandleNeigh, SweepAll, PingAll, ReconcileKernel, RunSolicit, ReconcileOrder, NoOwnAddrs;
    match e {
      case EvLink(n, u, addrs, f) => ToggleAgrees(s, n, u.running, addrs, f);
      case EvNeigh(n, addr, nud) => ReadyLearns(s, n); NeighAgrees(s, s.table[n], addr, nud);
      case EvSweep(visits) => RoundAgrees(s, visits);
      case EvReconcile(todo) => ReconcileAgrees(s, todo); SameKeepsReady(s, Step(s, e));
      case EvPacket(n, p, mac, order) =>
        var target := ProbedBy(s.table, n, p, mac);
        if target.Some? {
          PingsKeepMirror(s, order, target.value);
          SameKeepsReady(s, PingAll(s, order, target.value));
        }
      case EvSolicit(tok, n, sendOk) => SolicitRoles(s, tok, n, sendOk); SameKeepsReady(s, Step(s, e));
      case EvRoute(u) => SameKeepsReady(s, HandleRoute(s, u));
      case EvSolicitExpires(tok) => SameKeepsReady(s, Expire(s, tok));
      case EvOutside(k) => SameKeepsReady(s, s.(kernel := k));
      case EvWakeExpires => SameKeepsReady(s, Step(s, e));
      case EvReload(_, _) =>
      case EvAddr(_, _, _, _) =>
    }
  }

  lemma SolicitRoles(s: State, tok: Token, n: Option<string>, sendOk: bool)
    requires n.Some? ==> n.value in s.table
    ensures
      var s2 := RunSolicit(s, tok, n, sendOk);
      SameRoles(s.table, s2.table) && s2.mirrored == s.mirrored && s2.kernel == s.kernel
  {
    hide Searched, LinkLocalOf;
  }

  /** A run of such events in which no address is ever tracked on two interfaces. */
  ghost predicate Calm(s: State, es: seq<Event>)
    requires Run(s, es)
    decreases |es|
  {
    OneHome(s.mirrored) && (es == [] || (Undisturbed(s, es[0]) && Calm(Step(s, es[0]), es[1..])))
  }

  /**
   * Exact agreement: however neighbour events, links that come up and seed, sweeps, reconciles, packets, timers
   * and the kernel's own neighbour changes interleave, proxy entries and owned routes are those the tracked
   * hosts call for.
   */
  lemma {:induction false} RunAgrees(s: State, es: seq<Event>)
    requires Ready(s) && Run(s, es) && Calm(s, es)
    ensures Ready(After(s, es))
    decreases |es|
  {
    if es != [] {
      assert OneHome(Step(s, es[0]).mirrored);
      hide Ready, Step, Enabled, Undisturbed, OneHome;
      StepAgrees(s, es[0]);
      RunAgrees(Step(s, es[0]), es[1..]);
    }
  }

  // ---------- tracking ----------

  /** A visit of the periodic sweep drops the host. */
  predicate DropsIn(T: Table, k: Kernel, v: Visit, q: Key) {
    v.name in T && T[v.name].ndp.Relay? && Drops(k, T[v.name], v.neighsListed, v.routesListed, q)
  }

  /** A visit that does not drop the host leaves what later visits decide about it by. */
  lemma VisitKeepsDrops(s: State, v: Visit, v2: Visit, q: Key)
    requires v.name in s.table && !DropsIn(s.table, s.kernel, v, q)
    ensures DropsIn(s.table, VisitOne(s, s.table[v.name], v).kernel, v2, q) <==> DropsIn(s.table, s.kernel, v2, q)
  {
    hide VisitOne, Mirrorable;
    var i := s.table[v.name];
    if i.ndp.Relay? && v.neighsListed {
      VisitKeepsNeigh(s, i, v, q);
      VisitKeepsRoute(s, i, v, q);
      assert q == Key(q.addr, q.ifindex);
    } else {
      IdleVisit(s, i, v);
    }
  }

  lemma IdleVisit(s: State, i: Iface, v: Visit)
    requires !(i.ndp.Relay? && v.neighsListed)
    ensures VisitOne(s, i, v) == s
  {
  }

  lemma VisitKeepsNeigh(s: State, i: Iface, v: Visit, q: Key)
    requires !Drops(s.kernel, i, v.neighsListed, v.routesListed, q) && v.neighsListed
    ensures
      var k := VisitOne(s, i, v).kernel;
      && (q in k.neighs && k.neighs[q].Failed? && Mirrorable(q.addr) <==>
            q in s.kernel.neighs && s.kernel.neighs[q].Failed? && Mirrorable(q.addr))
      && (Alive(k, q) <==> Alive(s.kernel, q))
  {
    var s1 := Reap(s, i);
    MirrorKeepsNeighs(s.kernel, s.table, i, TrackedOf(s, FailedOn(s.kernel, i.ifindex), i.ifindex), false);
    MirrorKeepsNeighs(s1.kernel, s.table, i, Orphans(s1.kernel, i.ifindex, LiveOn(s.kernel, i.ifindex)), false);
    hide MirrorAddrs, Mirrorable, Orphans;
    assert q == Key(q.addr, q.ifindex);
  }

  lemma VisitKeepsRoute(s: State, i: Iface, v: Visit, q: Key)
    requires !Drops(s.kernel, i, v.neighsListed, v.routesListed, q) && v.neighsListed
    ensures Route(q.addr, q.ifindex, OUR_METRIC) in VisitOne(s, i, v).kernel.routes <==>
              Route(q.addr, q.ifindex, OUR_METRIC) in s.kernel.routes
  {
    hide MirrorAddrs, Mirrorable;
    var r := Route(q.addr, q.ifindex, OUR_METRIC);
    UnmirrorKeepsRoute(s.kernel, s.table, i, TrackedOf(s, FailedOn(s.kernel, i.ifindex), i.ifindex), r);
    var s1 := Reap(s, i);
    UnmirrorKeepsRoute(s1.kernel, s.table, i, Orphans(s1.kernel, i.ifindex, LiveOn(s.kernel, i.ifindex)), r);
  }

  lemma UnmirrorKeepsRoute(k: Kernel, T: Table, i: Iface, addrs: set<Addr>, r: Route)
    ensures r.ifindex != i.ifindex || r.addr !in addrs ==>
      (r in MirrorAddrs(k, T, i, addrs, false).routes <==> r in k.routes)
  {
  }

  lemma {:induction false} RoundTracked(s: State, visits: seq<Visit>, q: Key)
    requires forall v :: v in visits ==> v.name in s.table
    ensures q in SweepAll(s, visits).mirrored <==>
              q in s.mirrored && forall v :: v in visits ==> !DropsIn(s.table, s.kernel, v, q)
    decreases |visits|
  {
    if visits != [] {
      var v, i := visits[0], s.table[visits[0].name];
      var s1 := VisitOne(s, i, v);
      assert forall u :: u in visits <==> u == v || u in visits[1..];
      SweepTracked(s, i, v.neighsListed, v.routesListed, q);
      SweepKeepsTable(s, i, v);
      assert q in s1.mirrored <==> q in s.mirrored && !DropsIn(s.table, s.kernel, v, q);
      hide VisitOne, Drops;
      RoundTracked(s1, visits[1..], q);
      if !DropsIn(s.table, s.kernel, v, q) {
        forall u | u in visits[1..] ensures DropsIn(s.table, s1.kernel, u, q) <==> DropsIn(s.table, s.kernel, u, q) {
          VisitKeepsDrops(s, v, u, q);
        }
      }
    }
  }

  /**
   * The event starts the NDP service of the interface: the link comes up, or comes back under another index, in
   * which case the teardown has switched the proxy_ndp flag off before.
   */
  predicate LinkBringsUp(s: State, n: string, u: LinkEvent, f: Faults)
    requires n in s.table && u.NewLink?
  {
    var i := s.table[n];
    && u.running && i.ndp.Relay? && f.ndp.NNone?
    && if i.ifindex == u.index then !i.running && FlagEnables(s.kernel, i.ifname)
       else FlagEnables(ClearFlag(s.kernel, i.ifname), i.ifname)
  }

  /**
   * What an event says about a host: it is there, it is gone, or nothing decisive. A link event decides by the
   * index it takes away and by the sockets it brings up, whose start reads the neighbour table; so does a reload,
   * by the interfaces it moves and by those whose sockets its final pass brings up.
   */
  ghost predicate Appears(s: State, e: Event, q: Key)
    requires Enabled(s, e)
  {
    match e
    case EvNeigh(n, addr, nud) =>
      q == Key(addr, s.table[n].ifindex) && s.table[n].ndp.Relay? && addr.V6? && Mirrorable(addr)
      && nud in {Reachable, Stale, Delay, Probe, Permanent, NoArp}
    case EvLink(n, u, _, f) =>
      && u.NewLink? && q.ifindex == u.index && Resolves(s.kernel.neighs, q) && f.neighsListed && LinkBringsUp(s, n, u, f)
    case EvReload(cfg, order) =>
      Resolves(s.kernel.neighs, q) && exists m: nat :: SeedsOn(EndOutset(s, cfg), order, m, q.ifindex)
    case _ => false
  }

  ghost predicate Disappears(s: State, e: Event, q: Key)
    requires Enabled(s, e)
  {
    match e
    case EvNeigh(n, addr, nud) =>
      q == Key(addr, s.table[n].ifindex) && s.table[n].ndp.Relay? && addr.V6? && Mirrorable(addr) && nud.Failed?
    case EvLink(n, u, _, _) =>
      q.ifindex == s.table[n].ifindex && (if u.DelLink? then u.index == s.table[n].ifindex else u.index != s.table[n].ifindex)
    case EvSweep(visits) => exists v :: v in visits && DropsIn(s.table, s.kernel, v, q)
    case EvReload(cfg, _) => MovedOff(s.table, cfg, q.ifindex)
    case _ => false
  }

  lemma DetachKeepsNeighs(s: State, n: string)
    requires n in s.table
    ensures Detach(s, n).kernel.neighs == s.kernel.neighs
  {
    hide RouterSetup, DhcpSetup;
    var s1 := DisableServices(s, n);
    MirrorKeepsNeighs(s1.kernel, s1.table, s1.table[n], OwnAddrs(s1.table[n]), false);
    var s2 := s1.(kernel := MirrorAddrs(s1.kernel, s1.table, s1.table[n], OwnAddrs(s1.table[n]), false));
    MirrorKeepsNeighs(s2.kernel, s2.table, s1.table[n], AddrsOn(s2.mirrored, s1.table[n].ifindex), false);
    hide MirrorAddrs;
  }

  lemma ToggledConf(i: Iface, running: bool, addrs: seq<IPAddr>)
    ensures Toggled(i, running, addrs).conf == i.conf.(running := running)
  {
    hide Refreshed;
  }

  /** What leaving a netdev does to its flag: it is switched off, if the kernel lets it be. */
  lemma DetachFlag(s: State, n: string)
    requires n in s.table
    ensures
      var i := s.table[n];
      FlagEnables(Detach(s, n).kernel, i.ifname) <==> FlagEnables(ClearFlag(s.kernel, i.ifname), i.ifname)
  {
    hide RouterSetup, DhcpSetup, OwnAddrs;
    var s1 := DisableServices(s, n);
    assert s1.kernel == ClearFlag(s.kernel, s.table[n].ifname);
    hide DisableServices;
  }

  lemma LinkTracked(s: State, n: string, u: LinkEvent, addrs: seq<IPAddr>, f: Faults, q: Key)
    requires Enabled(s, EvLink(n, u, addrs, f))
    ensures
      var e := EvLink(n, u, addrs, f);
      q in Step(s, e).mirrored <==> Appears(s, e, q) || (q in s.mirrored && !Disappears(s, e, q))
  {
    hide HandleLink, Detach, ReloadServices, Toggled, Refreshed, Resolves;
    LinkCases(s, n, u, addrs, f);
    DetachClears(s, n);
    DetachKeepsNeighs(s, n);
    if u.NewLink? {
      var i := s.table[n];
      if i.ifindex == u.index {
        var s1 := s.(table := s.table[n := Toggled(i, u.running, addrs)]);
        ToggledRoles(s.table, n, u.running, addrs);
        RestartSeeds(s1, n, f, q);
        ServicesUpIff(s1, n, f);
        ToggledConf(i, u.running, addrs);
      } else {
        var s1 := Detach(s, n);
        var s2 := s1.(table := s1.table[n := Refresh(Attach(s1.table[n], s1.table[n].ifname, Link(u.index, u.running)), addrs)]);
        RestartSeeds(s2, n, f, q);
        ServicesUpIff(s2, n, f);
        DetachFlag(s, n);
      }
    }
  }

  lemma SweepStepTracked(s: State, visits: seq<Visit>, q: Key)
    requires Enabled(s, EvSweep(visits))
    ensures q in SweepAll(s, visits).mirrored <==> q in s.mirrored && !Disappears(s, EvSweep(visits), q)
  {
    hide SweepAll, DropsIn;
    var names := VisitNames(visits);
    forall u | u in visits ensures u.name in s.table {
      var k :| 0 <= k < |visits| && visits[k] == u;
      assert names[k] == u.name && names[k] in Elements(names);
    }
    RoundTracked(s, visits, q);
  }

  lemma NeighTracked(s: State, n: string, addr: Addr, nud: Nud, q: Key)
    requires Enabled(s, EvNeigh(n, addr, nud))
    ensures
      var e := EvNeigh(n, addr, nud);
      q in HandleNeigh(s, s.table[n], addr, nud).mirrored <==> Appears(s, e, q) || (q in s.mirrored && !Disappears(s, e, q))
  {
    hide MirrorAddrs, Mirrorable;
  }

  /** The names of decoded entries are those of a JSON object, so no two are the same. */
  ghost predicate Decoded(e: Event) {
    e.EvReload? ==> Distinct(EntryNames(e.cfg))
  }

  lemma ReloadTracked(s: State, cfg: seq<Entry>, order: seq<Restart>, q: Key)
    requires Enabled(s, EvReload(cfg, order)) && Distinct(EntryNames(cfg))
    ensures
      var e := EvReload(cfg, order);
      q in Reload(s, cfg, order).mirrored <==> Appears(s, e, q) || (q in s.mirrored && !Disappears(s, e, q))
  {
    hide Reload, MovedOff, MovedFrom, SeedsOn, Resolves, EntryNames, EndRole;
    ReloadTracks(s, cfg, order, q);
  }

  /** One event turns a host on or off exactly as it appears or disappears. */
  lemma StepTracked(s: State, e: Event, q: Key)
    requires Enabled(s, e) && Decoded(e)
    ensures q in Step(s, e).mirrored <==> Appears(s, e, q) || (q in s.mirrored && !Disappears(s, e, q))
  {
    hide Reload, EndOutset, MovedOff, SeedsOn, Resolves, EntryNames, Distinct;
    match e {
      case EvReload(cfg, order) => ReloadTracked(s, cfg, order, q);
      case EvLink(n, u, addrs, f) => LinkTracked(s, n, u, addrs, f, q);
      case EvNeigh(n, addr, nud) => NeighTracked(s, n, addr, nud, q); hide Enabled;
      case EvSweep(visits) => SweepStepTracked(s, visits, q);
      case EvPacket(n, p, mac, order) =>
        var target := ProbedBy(s.table, n, p, mac);
        if target.Some? { PingsKeepMirror(s, order, target.value); }
      case EvAddr(n, addrs, addr, add) =>
      case EvSolicit(tok, n, sendOk) => SolicitRoles(s, tok, n, sendOk);
      case _ =>
    }
  }

  /** Event `j` made the host appear, and none since has made it disappear without another appearance. */
  ghost predicate LatestAppeared(s: State, es: seq<Event>, n: nat, q: Key, j: nat)
    requires Run(s, es) && n <= |es|
  {
    && j < n && AppearsAt(s, es, j, q)
    && forall l :: j < l < n && DisappearsAt(s, es, l, q) ==> AppearsAt(s, es, l, q)
  }

  ghost predicate AppearsAt(s: State, es: seq<Event>, j: nat, q: Key)
    requires Run(s, es) && j < |es|
  {
    Enabled(StateAt(s, es, j), es[j]) && Appears(StateAt(s, es, j), es[j], q)
  }

  ghost predicate DisappearsAt(s: State, es: seq<Event>, j: nat, q: Key)
    requires Run(s, es) && j < |es|
  {
    Enabled(StateAt(s, es, j), es[j]) && Disappears(StateAt(s, es, j), es[j], q)
  }

  ghost predicate Appeared(s: State, es: seq<Event>, n: nat, q: Key)
    requires Run(s, es) && n <= |es|
  {
    exists j: nat :: LatestAppeared(s, es, n, q, j)
  }

  lemma AppearedStep(s: State, es: seq<Event>, n: nat, q: Key)
    requires Run(s, es) && n < |es|
    ensures Appeared(s, es, n + 1, q) <==>
              AppearsAt(s, es, n, q) || (Appeared(s, es, n, q) && !DisappearsAt(s, es, n, q))
  {
    hide AppearsAt, DisappearsAt, Run;
    var m := n + 1;
    if AppearsAt(s, es, n, q) { assert LatestAppeared(s, es, m, q, n); }
    if Appeared(s, es, n, q) && !DisappearsAt(s, es, n, q) {
      var j: nat :| LatestAppeared(s, es, n, q, j);
      assert LatestAppeared(s, es, m, q, j);
    }
    if Appeared(s, es, m, q) && !AppearsAt(s, es, n, q) {
      var j: nat :| LatestAppeared(s, es, m, q, j);
      assert LatestAppeared(s, es, n, q, j);
    }
  }

  /**
   * Tracking refines history: at every point of every run, a host that was not tracked at the start is tracked
   * exactly when some event made it appear and no later one made it disappear.
   */
  lemma {:induction false} TrackedIffAppeared(s: State, es: seq<Event>, n: nat, q: Key)
    requires Run(s, es) && n <= |es| && q !in s.mirrored
    requires forall j :: 0 <= j < n ==> Decoded(es[j])
    ensures q in StateAt(s, es, n).mirrored <==> Appeared(s, es, n, q)
  {
    hide Step, Enabled, Appears, Disappears;
    if n == 0 {
      assert StateAt(s, es, 0) == s;
    } else {
      TrackedIffAppeared(s, es, n - 1, q);
      StateAtStep(s, es, n - 1);
      StepTracked(StateAt(s, es, n - 1), es[n - 1], q);
      hide Run, LatestAppeared;
      AppearedStep(s, es, n - 1, q);
    }
  }
}

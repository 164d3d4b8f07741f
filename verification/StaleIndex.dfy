/** Tracked hosts and interface indexes: through deletion, return under a new index, and reload. */
module StaleIndex {
  import opened Common
  import opened Addresses
  import opened KernelModel
  import opened Model
  import opened Services
  import opened LinkLocal
  import opened Mirror
  import opened Daemon

  /** Some configured interface currently has this index. */
  ghost predicate Configured(T: Table, ifindex: int) {
    exists n :: n in T && T[n].ifindex == ifindex
  }

  ghost predicate NoStale(s: State) {
    forall k :: k in s.mirrored ==> k.ifindex > 0 && Configured(s.table, k.ifindex)
  }

  /** Running interfaces have an index; no index is negative. */
  ghost predicate RunningIndexed(T: Table) {
    forall n :: n in T ==> T[n].ifindex >= 0 && (T[n].running ==> T[n].ifindex > 0)
  }

  ghost predicate Fresh(s: State) {
    NoStale(s) && RunningIndexed(s.table)
  }

  /** Same indexes and running flags everywhere; new tracked hosts only on running interfaces. */
  ghost predicate Follows(s: State, s2: State) {
    && s2.table.Keys == s.table.Keys
    && (forall n :: n in s.table ==> s2.table[n].ifindex == s.table[n].ifindex && s2.table[n].running == s.table[n].running)
    && (forall k :: k in s2.mirrored ==> k in s.mirrored || exists n :: n in s.table && s.table[n].running && s.table[n].ifindex == k.ifindex)
  }

  lemma FollowsKeeps(s: State, s2: State)
    requires Fresh(s) && Follows(s, s2)
    ensures Fresh(s2)
  {
    forall k | k in s2.mirrored ensures k.ifindex > 0 && Configured(s2.table, k.ifindex) {
      if k in s.mirrored {
        var n :| n in s.table && s.table[n].ifindex == k.ifindex;
        assert s2.table[n].ifindex == k.ifindex;
      } else {
        var n :| n in s.table && s.table[n].running && s.table[n].ifindex == k.ifindex;
        assert s2.table[n].ifindex == k.ifindex;
      }
    }
  }

  lemma DisableFollows(s: State, n: string)
    requires n in s.table
    ensures Follows(s, DisableServices(s, n)) && DisableServices(s, n).mirrored == s.mirrored
    ensures SameConfig(s.table[n], DisableServices(s, n).table[n])
  {
    hide RouterSetup, DhcpSetup, NdpSetup, Seed;
  }

  lemma FollowsTwice(s: State, s2: State, s3: State)
    requires Follows(s, s2) && Follows(s2, s3)
    ensures Follows(s, s3)
  {
    forall k | k in s3.mirrored && k !in s.mirrored
      ensures exists n :: n in s.table && s.table[n].running && s.table[n].ifindex == k.ifindex
    {
      if k !in s2.mirrored {
        var n :| n in s2.table && s2.table[n].running && s2.table[n].ifindex == k.ifindex;
        assert s.table[n].ifindex == k.ifindex;
      }
    }
  }

  lemma SocketsFollow(s: State, n: string, rf: RouterFault, df: DhcpFault)
    requires n in s.table
    ensures
      var s1 := SetupRouter(s, n, !s.table[n].ra.Disabled?, rf);
      var s2 := SetupDhcp(s1, n, !s1.table[n].dhcpv6.Disabled?, df);
      Follows(s, s2) && SameConfig(s.table[n], s2.table[n]) && s2.mirrored == s.mirrored
  {
    hide RouterSetup, DhcpSetup;
  }

  lemma SeedingFollows(s: State, n: string, enable: bool, fault: NdpFault, listed: bool)
    requires n in s.table && s.table[n].running
    ensures Follows(s, SetupNdp(s, n, enable, fault, listed))
  {
    hide NdpSetup, MirrorAddrs;
  }

  lemma ReloadServicesFollows(s: State, n: string, f: Faults)
    requires n in s.table
    ensures Follows(s, ReloadServices(s, n, f))
  {
    hide Follows, SetupNdp, RouterSetup, DhcpSetup, DisableServices;
    if s.table[n].running {
      var s1 := SetupRouter(s, n, !s.table[n].ra.Disabled?, f.router);
      var s2 := SetupDhcp(s1, n, !s1.table[n].dhcpv6.Disabled?, f.dhcp);
      SocketsFollow(s, n, f.router, f.dhcp);
      SeedingFollows(s2, n, !s2.table[n].ndp.Disabled?, f.ndp, f.neighsListed);
      FollowsTwice(s, s2, ReloadServices(s, n, f));
    } else {
      DisableFollows(s, n);
    }
  }

  /** A detached interface has no tracked host left under its index. */
  lemma DetachClears(s: State, n: string)
    requires n in s.table
    ensures n in Detach(s, n).table && SameConfig(s.table[n], Detach(s, n).table[n])
    ensures Detach(s, n).table.Keys == s.table.Keys
    ensures forall m :: m in s.table ==> Detach(s, n).table[m].conf == s.table[m].conf
    ensures forall k :: k in Detach(s, n).mirrored <==> k in s.mirrored && k.ifindex != s.table[n].ifindex
  {
    hide MirrorAddrs, RouterSetup, DhcpSetup, NdpSetup, OwnAddrs;
    DisableFollows(s, n);
  }

  /** An interface moves to another index (0 when deleted) once its old index has no tracked host. */
  lemma MoveKeeps(s: State, n: string, j: Iface, s2: State)
    requires Fresh(s) && n in s.table && forall k :: k in s.mirrored ==> k.ifindex != s.table[n].ifindex
    requires s2.table == s.table[n := j] && s2.mirrored == s.mirrored
    requires j.ifindex >= 0 && (j.running ==> j.ifindex > 0)
    ensures Fresh(s2)
  {
    forall k | k in s2.mirrored ensures Configured(s2.table, k.ifindex) {
      var m :| m in s.table && s.table[m].ifindex == k.ifindex;
      assert s2.table[m].ifindex == k.ifindex;
    }
  }

  /** Same index, whatever else changes. */
  lemma StayKeeps(s: State, n: string, j: Iface, s2: State)
    requires Fresh(s) && n in s.table && j.ifindex == s.table[n].ifindex
    requires s2.table == s.table[n := j] && s2.mirrored <= s.mirrored && (j.running ==> j.ifindex > 0)
    ensures Fresh(s2)
  {
    forall k | k in s2.mirrored ensures Configured(s2.table, k.ifindex) {
      var m :| m in s.table && s.table[m].ifindex == k.ifindex;
      assert s2.table[m].ifindex == k.ifindex;
    }
  }

  lemma DetachFresh(s: State, n: string)
    requires Fresh(s) && n in s.table
    ensures Fresh(Detach(s, n))
  {
    hide Detach;
    DetachClears(s, n);
    FollowsKeeps(s, Detach(s, n));
  }

  lemma HandleLinkFresh(s: State, n: string, u: LinkEvent, addrs: seq<IPAddr>, f: Faults)
    requires Fresh(s) && n in s.table && u.index > 0
    ensures Fresh(HandleLink(s, n, u, addrs, f))
  {
    hide Detach, ReloadServices, Fresh;
    var s1 := Detach(s, n);
    DetachClears(s, n);
    DetachFresh(s, n);
    match u {
      case DelLink(index) =>
        if s.table[n].ifindex == index { MoveKeeps(s1, n, Gone(s1.table[n]), HandleLink(s, n, u, addrs, f)); }
      case NewLink(index, running) =>
        if s.table[n].ifindex == index {
          var i := WithRunning(s.table[n], running);
          var j := if s.table[n].running != running && running then Refresh(i, addrs) else i;
          var s2 := s.(table := s.table[n := j]);
          StayKeeps(s, n, j, s2);
          ReloadServicesFollows(s2, n, f);
          FollowsKeeps(s2, ReloadServices(s2, n, f));
        } else {
          var j := Refresh(Attach(s1.table[n], s1.table[n].ifname, Link(index, running)), addrs);
          var s2 := s1.(table := s1.table[n := j]);
          MoveKeeps(s1, n, j, s2);
          ReloadServicesFollows(s2, n, f);
          FollowsKeeps(s2, ReloadServices(s2, n, f));
        }
    }
  }

  lemma CreateFresh(s: State, n: string)
    requires Fresh(s)
    ensures Fresh(FindOrCreate(s, n))
  {
    var s1 := FindOrCreate(s, n);
    forall k | k in s1.mirrored ensures Configured(s1.table, k.ifindex) {
      var m :| m in s.table && s.table[m].ifindex == k.ifindex;
      assert s1.table[m].ifindex == k.ifindex;
    }
  }

  lemma MovedFresh(s: State, n: string, newIfname: string, link: Link, addrs: seq<IPAddr>)
    requires Fresh(s) && n in s.table && link.index > 0
    ensures Fresh(Moved(s, n, newIfname, link, addrs))
  {
    hide Detach, Fresh;
    var i := s.table[n];
    var s3 := Moved(s, n, newIfname, link, addrs);
    if i.ifindex != 0 && (i.ifname != newIfname || i.ifindex != link.index) {
      DetachFresh(s, n);
      DetachClears(s, n);
      MoveKeeps(Detach(s, n), n, s3.table[n], s3);
    } else if i.ifindex == 0 {
      NoneAtZero(s);
      MoveKeeps(s, n, s3.table[n], s3);
    } else {
      StayKeeps(s, n, s3.table[n], s3);
    }
  }

  lemma ParseFresh(s: State, e: Entry)
    requires Fresh(s) && (e.link.Some? ==> e.link.value.index > 0)
    ensures Fresh(Parse(s, e))
  {
    hide Moved, Fresh;
    var n := e.name;
    var s1 := FindOrCreate(s, n);
    CreateFresh(s, n);
    if !Rejected(s1.table[n], e) {
      if e.json.ifname.Some? { MovedFresh(s1, n, e.json.ifname.value, e.link.value, e.addrs); }
      var s2 := if e.json.ifname.None? then s1 else Moved(s1, n, e.json.ifname.value, e.link.value, e.addrs);
      StayOptions(s2, n, e.json, Parse(s, e));
    }
  }

  lemma NoneAtZero(s: State)
    requires Fresh(s)
    ensures forall k :: k in s.mirrored ==> k.ifindex != 0
  {
  }

  lemma StayOptions(s: State, n: string, j: JsonIface, s2: State)
    requires Fresh(s) && n in s.table && s2 == s.(table := s.table[n := Options(s.table[n], j)])
    ensures Fresh(s2)
  {
    StayKeeps(s, n, Options(s.table[n], j), s2);
  }

  lemma {:induction false} ParseAllFresh(s: State, cfg: seq<Entry>)
    requires Fresh(s) && forall k :: 0 <= k < |cfg| && cfg[k].link.Some? ==> cfg[k].link.value.index > 0
    ensures Fresh(ParseAll(s, cfg))
    decreases |cfg|
  {
    hide Fresh, Parse;
    if cfg != [] {
      ParseFresh(s, cfg[0]);
      ParseAllFresh(Parse(s, cfg[0]), cfg[1..]);
    }
  }

  /** A reload whose final pass closes nothing. */
  ghost predicate ClosesNothing(s: State, cfg: seq<Entry>) {
    forall n :: n in Configure(s, cfg).table ==> Configure(s, cfg).table[n].inuse
  }

  ghost predicate AllInuse(T: Table) {
    forall n :: n in T ==> T[n].inuse
  }

  ghost predicate SameConfs(T: Table, U: Table) {
    U.Keys == T.Keys && forall n :: n in T ==> U[n].conf == T[n].conf
  }

  /** No setup changes what is configured. */
  lemma RouterKeepsConfs(s: State, n: string, enable: bool, fault: RouterFault)
    requires n in s.table
    ensures SameConfs(s.table, SetupRouter(s, n, enable, fault).table)
  {
    hide RouterSetup;
  }

  lemma DhcpKeepsConfs(s: State, n: string, enable: bool, fault: DhcpFault)
    requires n in s.table
    ensures SameConfs(s.table, SetupDhcp(s, n, enable, fault).table)
  {
    hide DhcpSetup;
  }

  lemma NdpKeepsConfs(s: State, n: string, enable: bool, fault: NdpFault, listed: bool)
    requires n in s.table
    ensures SameConfs(s.table, SetupNdp(s, n, enable, fault, listed).table)
  {
    hide NdpSetup, Seedable, MirrorAddrs;
  }

  /** A restart changes no configuration. */
  lemma RestartKeepsConfs(s: State, n: string, f: Faults)
    requires n in s.table
    ensures SameConfs(s.table, ReloadServices(s, n, f).table)
  {
    hide SetupRouter, SetupDhcp, SetupNdp;
    var up := s.table[n].running;
    var r, d, p, l := if up then f.router else RNone, if up then f.dhcp else DNone,
                      if up then f.ndp else NNone, if up then f.neighsListed else true;
    RouterKeepsConfs(s, n, up && !s.table[n].ra.Disabled?, r);
    var s1 := SetupRouter(s, n, up && !s.table[n].ra.Disabled?, r);
    DhcpKeepsConfs(s1, n, up && !s1.table[n].dhcpv6.Disabled?, d);
    var s2 := SetupDhcp(s1, n, up && !s1.table[n].dhcpv6.Disabled?, d);
    NdpKeepsConfs(s2, n, up && !s2.table[n].ndp.Disabled?, p, l);
  }

  lemma RestartKeepsInuse(s: State, n: string, f: Faults)
    requires n in s.table && AllInuse(s.table)
    ensures AllInuse(ReloadServices(s, n, f).table)
  {
    hide ReloadServices;
    RestartKeepsConfs(s, n, f);
  }

  lemma {:induction false} RestartAllFresh(s: State, order: seq<Restart>)
    requires Fresh(s) && AllInuse(s.table)
    ensures Fresh(RestartAll(s, order))
    decreases |order|
  {
    hide Fresh, ReloadServices;
    if order != [] && order[0].name in s.table {
      var s1 := ReloadServices(s, order[0].name, order[0].faults);
      ReloadServicesFollows(s, order[0].name, order[0].faults);
      RestartKeepsInuse(s, order[0].name, order[0].faults);
      FollowsKeeps(s, s1);
      RestartAllFresh(s1, order[1..]);
    }
  }

  lemma ConfigureFresh(s: State, cfg: seq<Entry>)
    requires Fresh(s) && forall k :: 0 <= k < |cfg| && cfg[k].link.Some? ==> cfg[k].link.value.index > 0
    ensures Fresh(Configure(s, cfg))
  {
    hide Fresh, Follows, ResetAll, ParseAll, DisableIdleMasters;
    ResetFollows(s);
    FollowsKeeps(s, ResetAll(s));
    ParseAllFresh(ResetAll(s), cfg);
    ResetFollows(ParseAll(ResetAll(s), cfg));
    FollowsKeeps(ParseAll(ResetAll(s), cfg), Configure(s, cfg));
  }

  lemma ReloadFresh(s: State, cfg: seq<Entry>, order: seq<Restart>)
    requires Fresh(s) && Enabled(s, EvReload(cfg, order)) && ClosesNothing(s, cfg)
    ensures Fresh(Reload(s, cfg, order))
  {
    hide Fresh, Configure, RestartAll;
    ConfigureFresh(s, cfg);
    RestartAllFresh(Configure(s, cfg), order);
  }

  /** Neither the first nor the third loop of a reload touches indexes, running flags or tracked hosts. */
  lemma ResetFollows(s: State)
    ensures Follows(s, ResetAll(s)) && Follows(s, DisableIdleMasters(s))
  {
    hide SlavesOf;
  }

  lemma {:induction false} PingAllFollows(s: State, names: seq<string>, target: Addr)
    requires Fresh(s)
    ensures Fresh(PingAll(s, names, target))
    decreases |names|
  {
    if names != [] && names[0] in s.table {
      var s1 := Ping(s, names[0], target);
      FollowsKeeps(s, s1);
      PingAllFollows(s1, names[1..], target);
    }
  }

  lemma {:induction false} SweepAllFollows(s: State, visits: seq<Visit>)
    requires Fresh(s)
    ensures Fresh(SweepAll(s, visits))
    decreases |visits|
  {
    hide MirrorAddrs;
    if visits != [] && visits[0].name in s.table {
      var i := s.table[visits[0].name];
      var s1 := if i.ndp.Relay? then Sweep(s, i, visits[0].neighsListed, visits[0].routesListed) else s;
      FollowsKeeps(s, s1);
      SweepAllFollows(s1, visits[1..]);
    }
  }

  lemma HandleNeighFresh(s: State, n: string, addr: Addr, nud: Nud)
    requires Fresh(s) && n in s.table && s.table[n].ifindex > 0
    ensures Fresh(HandleNeigh(s, s.table[n], addr, nud))
  {
    hide MirrorAddrs, Mirrorable;
  }

  lemma RunSolicitFresh(s: State, tok: Token, n: Option<string>, sendOk: bool)
    requires Fresh(s) && (n.Some? ==> n.value in s.table)
    ensures Fresh(RunSolicit(s, tok, n, sendOk))
  {
    FollowsKeeps(s, RunSolicit(s, tok, n, sendOk));
  }

  lemma HandleAddrFresh(s: State, n: string, addrs: seq<IPAddr>, addr: Addr, add: bool)
    requires Fresh(s) && n in s.table
    ensures Fresh(HandleAddr(s, n, addrs, addr, add))
  {
    hide Fresh, MirrorAddrs, OwnEligible, Refreshed;
    FollowsKeeps(s, HandleAddr(s, n, addrs, addr, add));
  }

  /** A step that touches neither the table nor the tracked hosts. */
  lemma UnchangedFresh(s: State, s2: State)
    requires Fresh(s) && s2.table == s.table && s2.mirrored == s.mirrored
    ensures Fresh(s2)
  {
  }

  lemma HandleRouteFresh(s: State, u: RouteEvent)
    requires Fresh(s)
    ensures Fresh(HandleRoute(s, u))
  {
    hide Fresh, Qualifies;
    UnchangedFresh(s, HandleRoute(s, u));
  }

  lemma ReconcileFresh(s: State, todo: seq<Target>)
    requires Fresh(s) && s.wakeQueued > 0
    ensures Fresh(Reconcile(s, todo))
  {
    hide Fresh, ReconcileKernel;
    UnchangedFresh(s, Reconcile(s, todo));
  }

  /** Expiring timers and outside changes. */
  lemma ExpiryFresh(s: State, e: Event)
    requires Fresh(s) && Enabled(s, e) && (e.EvWakeExpires? || e.EvSolicitExpires? || e.EvOutside?)
    ensures Fresh(Step(s, e))
  {
    hide Fresh;
    UnchangedFresh(s, Step(s, e));
  }

  lemma StepFresh(s: State, e: Event)
    requires Fresh(s) && Enabled(s, e) && (e.EvReload? ==> ClosesNothing(s, e.cfg))
    ensures Fresh(Step(s, e))
  {
    hide Fresh, Reload, HandleLink, PingAll, SweepAll, HandleRoute, Reconcile, HandleAddr, RunSolicit, HandleNeigh, Follows;
    match e {
      case EvReload(cfg, order) => ReloadFresh(s, cfg, order);
      case EvLink(n, u, addrs, f) => HandleLinkFresh(s, n, u, addrs, f);
      case EvNeigh(n, addr, nud) => HandleNeighFresh(s, n, addr, nud);
      case EvPacket(n, p, mac, order) =>
        var target := ProbedBy(s.table, n, p, mac);
        if target.Some? { PingAllFollows(s, order, target.value); }
      case EvAddr(n, addrs, addr, add) => HandleAddrFresh(s, n, addrs, addr, add);
      case EvSweep(visits) => SweepAllFollows(s, visits);
      case EvSolicit(tok, n, sendOk) => RunSolicitFresh(s, tok, n, sendOk);
      case EvRoute(u) => HandleRouteFresh(s, u);
      case EvReconcile(todo) => ReconcileFresh(s, todo);
      case _ => ExpiryFresh(s, e);
    }
  }

  /** A run in which no reload closes an interface. */
  ghost predicate ClosesNothingRun(s: State, es: seq<Event>)
    requires Run(s, es)
    decreases |es|
  {
    es == [] || ((es[0].EvReload? ==> ClosesNothing(s, es[0].cfg)) && ClosesNothingRun(Step(s, es[0]), es[1..]))
  }

  /** Every tracked host's index is the current, positive index of a configured interface. */
  lemma {:induction false} RunNeverStale(s: State, es: seq<Event>)
    requires Fresh(s) && Run(s, es) && ClosesNothingRun(s, es)
    ensures Fresh(After(s, es))
    decreases |es|
  {
    hide Fresh, Step, Enabled, ClosesNothing;
    if es != [] {
      StepFresh(s, es[0]);
      RunNeverStale(Step(s, es[0]), es[1..]);
    }
  }

  /**
   * Closing an interface leaves its tracked hosts behind: nothing goes stale exactly when every tracked
   * host of its index is also covered by another configured interface.
   */
  lemma ClosingStaleIff(s: State, n: string)
    requires NoStale(s) && n in s.table
    ensures CloseInterface(s, n).mirrored == s.mirrored
    ensures NoStale(CloseInterface(s, n)) <==>
              forall k :: k in s.mirrored && k.ifindex == s.table[n].ifindex ==> Configured(s.table - {n}, k.ifindex)
  {
    var s2 := CloseInterface(s, n);
    DisableFollows(s, n);
    hide DisableServices;
    assert s2.table.Keys == s.table.Keys - {n};
    assert forall m :: m in s2.table ==> s2.table[m].ifindex == (s.table - {n})[m].ifindex;
    forall x ensures Configured(s2.table, x) <==> Configured(s.table - {n}, x) {
      if Configured(s2.table, x) {
        var m :| m in s2.table && s2.table[m].ifindex == x;
        assert (s.table - {n})[m].ifindex == x;
      }
      if Configured(s.table - {n}, x) {
        var m :| m in s.table - {n} && (s.table - {n})[m].ifindex == x;
        assert s2.table[m].ifindex == x;
      }
    }
    forall k | k in s.mirrored && k.ifindex != s.table[n].ifindex ensures Configured(s.table - {n}, k.ifindex) {
      var m :| m in s.table && s.table[m].ifindex == k.ifindex;
      assert m in s.table - {n};
    }
  }
}

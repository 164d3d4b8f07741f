/** The running daemon: the interface table and the set of tracked hosts, updated in place (netlink.go, config.go). */
module Process {
  import opened Common
  import opened Addresses
  import opened KernelModel
  import opened Model
  import opened Services
  import opened LinkLocal
  import opened Mirror
  import opened Daemon
  import opened Interfaces
  import opened Loops

  /** What lies outside the process's memory: the kernel, descriptors and timers. */
  datatype World = World(kernel: Kernel, os: Os, wakeTimers: nat, wakeQueued: nat)

  class Relayd {
    var interfaces: map<string, Interface>
    var mirrored: set<Key>
    var reconcileScheduled: bool

    /** Every interface is filed under its own name, so no two names share a record. */
    ghost predicate Valid()
      reads this`interfaces
    {
      forall n :: n in interfaces ==> interfaces[n].name == n
    }

    function TableView(): (t: Table)
      reads this`interfaces, interfaces.Values
      ensures t.Keys == interfaces.Keys && forall n :: n in t ==> t[n] == interfaces[n].View()
    {
      map n | n in interfaces :: interfaces[n].View()
    }

    function View(w: World): (v: State)
      reads this, interfaces.Values
      ensures v.table.Keys == interfaces.Keys
    {
      State(TableView(), mirrored, w.kernel, w.os, reconcileScheduled, w.wakeTimers, w.wakeQueued)
    }

    // ---------- mirroring ----------

    method NdpMirrorAddr(addr: Addr, iface: Interface, add: bool, kernel: Kernel) returns (k: Kernel)
      ensures k == MirrorAddrs(kernel, TableView(), iface.View(), {addr}, add)
      ensures TableView() == old(TableView()) && iface.View() == old(iface.View())
    {
      hide TableView, MirroredSoFar, MirrorProxies, MirrorRoutes;
      ghost var T := TableView();
      k := kernel;
      MirrorEnds(k, T, iface.ifindex, addr, add);
      var todo := interfaces.Keys;
      while todo != {}
        invariant todo <= interfaces.Keys
        invariant k == MirroredSoFar(kernel, T, iface.ifindex, todo, addr, add)
      {
        var n :| n in todo;
        var c := interfaces[n];
        MirrorStep(kernel, T, iface.ifindex, todo, n, addr, add);
        todo := todo - {n};
        if c.ifindex == iface.ifindex || !c.master || !c.ndp.Relay? {
          continue;
        }
        if add {
          k := SetFlags(k, {c.ifname});
        }
        k := SetupProxyNeigh(k, addr, c.ifindex, add);
      }
      MirrorOneRoute(k, iface.View(), addr, add);
      if !iface.learnRoutes || addr.IsLinkLocalUnicast() {
        return;
      }
      k := SetupRoute(k, addr, iface.ifindex, OUR_METRIC, add);
    }

    // ---------- lookups ----------

    /** Any of the interfaces with this index: the table is searched in an arbitrary order. */
    method IfaceByIndex(idx: int) returns (r: Option<string>)
      ensures Found(TableView(), idx, r) && TableView() == old(TableView())
    {
      var todo := interfaces.Keys;
      while todo != {}
        invariant todo <= interfaces.Keys
        invariant forall n :: n in interfaces.Keys - todo ==> interfaces[n].ifindex != idx
      {
        var n :| n in todo;
        todo := todo - {n};
        if interfaces[n].ifindex == idx {
          return Some(n);
        }
      }
      return None;
    }

    // ---------- tracked hosts ----------

    method TrackHost(addr: Addr, iface: Interface, w: World) returns (w': World)
      modifies this`mirrored
      ensures mirrored == old(mirrored) + {Key(addr, iface.ifindex)} && TableView() == old(TableView())
      ensures w' == w.(kernel := MirrorAddrs(w.kernel, TableView(), iface.View(), {addr}, true))
    {
      hide TableView, MirrorAddrs;
      mirrored := mirrored + {Key(addr, iface.ifindex)};
      var k := NdpMirrorAddr(addr, iface, true, w.kernel);
      w' := w.(kernel := k);
    }

    method UntrackHost(addr: Addr, iface: Interface, w: World) returns (w': World)
      modifies this`mirrored
      ensures mirrored == old(mirrored) - {Key(addr, iface.ifindex)} && TableView() == old(TableView())
      ensures w' == w.(kernel := MirrorAddrs(w.kernel, TableView(), iface.View(), {addr}, false))
    {
      hide TableView, MirrorAddrs;
      mirrored := mirrored - {Key(addr, iface.ifindex)};
      var k := NdpMirrorAddr(addr, iface, false, w.kernel);
      w' := w.(kernel := k);
    }

    /** `isNew` tells a new or changed entry from a deleted one; `owner` is the interface the event falls to. */
    method HandleNeighEvent(isNew: bool, linkIndex: int, addr: Addr, nud: Nud, w: World)
      returns (owner: Option<string>, w': World)
      modifies this`mirrored
      ensures TableView() == old(TableView())
      ensures owner.None? ==> View(w') == old(View(w)) && (isNew ==> Found(TableView(), linkIndex, None))
      ensures owner.Some? ==> isNew && Found(TableView(), linkIndex, owner)
                              && View(w') == HandleNeigh(old(View(w)), TableView()[owner.value], addr, nud)
    {
      hide TableView, HandleNeigh, Interface.View;
      if !isNew {
        return None, w;
      }
      owner := IfaceByIndex(linkIndex);
      if owner.None? {
        return None, w;
      }
      w' := NeighChanged(interfaces[owner.value], addr, nud, w);
    }

    method NeighChanged(iface: Interface, addr: Addr, nud: Nud, w: World) returns (w': World)
      modifies this`mirrored
      ensures TableView() == old(TableView())
      ensures View(w') == HandleNeigh(old(View(w)), iface.View(), addr, nud)
    {
      hide TableView, MirrorAddrs, Interface.View, KeysOf, Addr.IsLoopback, Addr.IsMulticast, Addr.IsLinkLocalUnicast;
      w' := w;
      if !iface.ndp.Relay? || addr.V4? || addr.IsLoopback() || addr.IsMulticast() || addr.IsLinkLocalUnicast() {
        return;
      }
      var key := Key(addr, iface.ifindex);
      assert KeysOf({addr}, iface.ifindex) == {key};
      var wasMirrored := key in mirrored;
      if nud.Resolved() && !wasMirrored {
        w' := TrackHost(addr, iface, w);
      } else if nud.Failed? {
        if wasMirrored {
          w' := UntrackHost(addr, iface, w);
        }
        w' := w'.(kernel := DelNeighs(w'.kernel, {key}));
      }
    }

    /** `listed` tells whether the kernel's neighbour table could be listed. */
    method SeedMirroredNeighbors(iface: Interface, listed: bool, w: World) returns (w': World)
      modifies this`mirrored
      ensures TableView() == old(TableView())
      ensures View(w') == Seed(old(View(w)), iface.View(), listed)
    {
      hide TableView, MirrorAddrs, Mirrorable, SeededSoFar, Track, Interface.View;
      w' := w;
      if !listed {
        return;
      }
      ghost var s := View(w);
      var neighs := NeighList(w.kernel, iface.ifindex);
      SeedEnds(s, iface.View());
      while neighs != {}
        invariant neighs <= NeighList(w.kernel, iface.ifindex)
        invariant TableView() == s.table
        invariant View(w') == SeededSoFar(s, iface.View(), neighs)
      {
        var n :| n in neighs;
        SeedStep(s, iface.View(), neighs, n);
        neighs := neighs - {n};
        if !w.kernel.neighs[n].Resolved() || !Mirrorable(n.addr) || n in mirrored {
          continue;
        }
        w' := TrackHost(n.addr, iface, w');
      }
    }

    // ---------- the periodic sweep ----------

    method SweepIfaceFailedAndOrphans(iface: Interface, neighsListed: bool, routesListed: bool, w: World)
      returns (w': World)
      modifies this`mirrored
      ensures TableView() == old(TableView())
      ensures View(w') == Sweep(old(View(w)), iface.View(), neighsListed, routesListed)
    {
      hide TableView, Reap, Untrack, Interface.View;
      w' := w;
      if !neighsListed {
        return;
      }
      var live;
      w', live := ReapFailed(iface, w);
      if !routesListed {
        return;
      }
      w' := RemoveOrphans(iface, live, w');
    }

    /** The loop over the neighbour listing; `live` collects the addresses of entries that did not fail. */
    method ReapFailed(iface: Interface, w: World) returns (w': World, live: set<Addr>)
      modifies this`mirrored
      ensures TableView() == old(TableView())
      ensures View(w') == Reap(old(View(w)), iface.View()) && live == LiveOn(w.kernel, iface.ifindex)
    {
      hide TableView, MirrorAddrs, Mirrorable, ReapedSoFar, Reap, Interface.View;
      ghost var s := View(w);
      ghost var lives := LiveOn(w.kernel, iface.ifindex);
      var neighs := NeighList(w.kernel, iface.ifindex);
      w', live := w, {};
      ReapEnds(s, iface.View());
      SeenAll(lives, iface.ifindex, neighs);
      while neighs != {}
        invariant neighs <= NeighList(w.kernel, iface.ifindex)
        invariant TableView() == s.table
        invariant View(w') == ReapedSoFar(s, iface.View(), neighs)
        invariant live == Seen(lives, iface.ifindex, neighs)
      {
        var n :| n in neighs;
        ReapStep(s, iface.View(), neighs, n);
        SeenStep(lives, iface.ifindex, neighs, n);
        assert n == Key(n.addr, iface.ifindex);
        neighs := neighs - {n};
        var isLive;
        w', isLive := ReapOrProbe(iface, n, w.kernel.neighs[n], w');
        if isLive {
          live := live + {n.addr};
        }
      }
    }

    method ReapOrProbe(iface: Interface, n: Key, nud: Nud, w: World) returns (w': World, isLive: bool)
      requires n.ifindex == iface.ifindex
      modifies this`mirrored
      ensures TableView() == old(TableView())
      ensures View(w') == ReapOne(old(View(w)), iface.View(), n, nud)
      ensures isLive <==> Mirrorable(n.addr) && !nud.Failed?
    {
      hide TableView, MirrorAddrs, Mirrorable, Interface.View;
      assert n == Key(n.addr, iface.ifindex);
      w', isLive := w, false;
      if !Mirrorable(n.addr) {
        return;
      }
      if nud.Failed? {
        if n in mirrored {
          w' := UntrackHost(n.addr, iface, w);
        }
        w' := w'.(kernel := DelNeighs(w'.kernel, {n}));
        return;
      }
      isLive := true;
      if nud.Stale? {
        w' := w'.(kernel := ProbeNeighs(w'.kernel, {n}));
      }
    }

    /** The loop over the route listing. */
    method RemoveOrphans(iface: Interface, live: set<Addr>, w: World) returns (w': World)
      modifies this`mirrored
      ensures TableView() == old(TableView())
      ensures View(w') == Untrack(old(View(w)), iface.View(), Orphans(w.kernel, iface.ifindex, live))
    {
      hide TableView, MirrorAddrs, OrphansSoFar, Interface.View;
      ghost var s := View(w);
      var routes := w.kernel.routes;
      w' := w;
      OrphanEnds(s, iface.View(), live);
      while routes != {}
        invariant routes <= w.kernel.routes
        invariant View(w') == OrphansSoFar(s, iface.View(), live, routes)
      {
        var r :| r in routes;
        OrphanStep(s, iface.View(), live, routes, r);
        routes := routes - {r};
        if r.ifindex != iface.ifindex || r.metric != OUR_METRIC || r.addr in live {
          continue;
        }
        w' := UntrackHost(r.addr, iface, w');
      }
    }

    /**
     * One round over all interfaces, in the arbitrary order that `visits` records; the listings of the
     * interfaces in the two sets succeed.
     */
    method SweepFailedAndOrphans(neighsListed: set<string>, routesListed: set<string>, w: World)
      returns (w': World, ghost visits: seq<Visit>)
      modifies this`mirrored
      ensures Enabled(old(View(w)), EvSweep(visits)) && View(w') == SweepAll(old(View(w)), visits)
      ensures forall v :: v in visits ==> v == Visit(v.name, v.name in neighsListed, v.name in routesListed)
    {
      hide TableView, Sweep, SweepAll, SweptSoFar, Interface.View;
      ghost var s := View(w);
      w', visits := w, [];
      var todo := interfaces.Keys;
      SweepBegins(s);
      while todo != {}
        invariant todo <= interfaces.Keys && TableView() == s.table
        invariant SweptSoFar(s, todo, View(w'), visits)
        invariant forall v :: v in visits ==> v == Visit(v.name, v.name in neighsListed, v.name in routesListed)
      {
        var n :| n in todo;
        var iface := interfaces[n];
        SweepStep(s, todo, View(w'), visits, Visit(n, n in neighsListed, n in routesListed));
        visits := visits + [Visit(n, n in neighsListed, n in routesListed)];
        todo := todo - {n};
        if !iface.ndp.Relay? {
          continue;
        }
        w' := SweepIfaceFailedAndOrphans(iface, n in neighsListed, n in routesListed, w');
      }
      SweepCompletes(s, View(w'), visits);
    }

    // ---------- reconciling ----------

    /** Arms the debounce timer, which may expire at any later step, unless one is pending. */
    method ScheduleReconcile(w: World) returns (w': World)
      modifies this`reconcileScheduled
      ensures reconcileScheduled && TableView() == old(TableView())
      ensures w' == if old(reconcileScheduled) then w else w.(wakeTimers := w.wakeTimers + 1)
    {
      hide TableView;
      w' := w;
      if reconcileScheduled {
        return;
      }
      reconcileScheduled := true;
      w' := w.(wakeTimers := w.wakeTimers + 1);
    }

    method HandleRouteEvent(deleted: bool, metric: int, prefixLen: int, linkIndex: int, w: World)
      returns (owner: Option<string>, w': World)
      modifies this`reconcileScheduled
      ensures deleted && metric == OUR_METRIC && prefixLen == 128 ==> Found(TableView(), linkIndex, owner)
      ensures View(w') == HandleRoute(old(View(w)), RouteEvent(deleted, metric, prefixLen, owner))
    {
      hide TableView, Interface.View, Qualifies;
      var ours;
      owner, ours := OurRoute(deleted, metric, prefixLen, linkIndex);
      w' := w;
      if ours {
        w' := ScheduleReconcile(w);
      }
    }

    /** The checks of handleRouteEvent. */
    method OurRoute(deleted: bool, metric: int, prefixLen: int, linkIndex: int)
      returns (owner: Option<string>, ours: bool)
      ensures deleted && metric == OUR_METRIC && prefixLen == 128 ==> Found(TableView(), linkIndex, owner)
      ensures ours <==> Qualifies(TableView(), RouteEvent(deleted, metric, prefixLen, owner))
    {
      hide TableView, Interface.View;
      if !deleted || metric != OUR_METRIC {
        return None, false;
      }
      if prefixLen != 128 {
        return None, false;
      }
      owner := IfaceByIndex(linkIndex);
      ours := owner.Some? && interfaces[owner.value].ndp.Relay?;
    }

    /** `order` records the order in which the arbitrary choices of the loops re-assert the targets. */
    method ReconcileKernelState(w: World) returns (w': World, ghost order: seq<Target>)
      ensures TableView() == old(TableView())
      ensures ReconcileOrder(View(w), order)
      ensures w' == w.(kernel := ReconcileKernel(View(w), order))
    {
      hide TableView, AddTargets, Interface.View, ReconcileOrder, Reasserted, AllCovered, OwnCovered, NdpIfnames;
      var k := ReassertProxyNdp(w.kernel);
      ghost var start := k;
      k, order := ReassertOwn(w, k);
      ghost var own := order;
      k, order := ReassertTracked(w, start, k, order);
      w' := w.(kernel := k);
      OrderComplete(View(w), start, k, own, order);
    }

    method ReassertProxyNdp(kernel: Kernel) returns (k: Kernel)
      ensures TableView() == old(TableView())
      ensures k == SetFlags(kernel, NdpIfnames(TableView()))
    {
      hide TableView, FlagsSoFar, NdpIfnames, SetFlags, Interface.View;
      ghost var T := TableView();
      FlagEnds(kernel, T);
      k := kernel;
      var names := interfaces.Keys;
      while names != {}
        invariant names <= interfaces.Keys
        invariant k == FlagsSoFar(kernel, T, names)
      {
        var n :| n in names;
        FlagStep(kernel, T, names, n);
        names := names - {n};
        var iface := interfaces[n];
        if !iface.ndp.Relay? || iface.nd.None? {
          continue;
        }
        k := SetFlags(k, {iface.ifname});
      }
    }

    /** The second loop: every interface's own addresses. */
    method ReassertOwn(w: World, kernel: Kernel) returns (k: Kernel, ghost order: seq<Target>)
      ensures TableView() == old(TableView())
      ensures Reasserted(View(w), kernel, k, order) && OwnCovered(TableView(), {}, order)
    {
      hide TableView, Interface.View, OwnPrefix, OwnCovered, Reasserted;
      ghost var s := View(w);
      k, order := kernel, [];
      var names := interfaces.Keys;
      OwnBegins(s, kernel);
      while names != {}
        invariant names <= interfaces.Keys
        invariant Reasserted(s, kernel, k, order) && OwnCovered(s.table, names, order)
      {
        var n :| n in names;
        ghost var before := order;
        k, order := ReassertOwnOf(n, w, kernel, k, order);
        OwnCoveredStep(s.table, names, n, before, order);
        names := names - {n};
      }
    }

    /** One turn of the second loop. */
    method ReassertOwnOf(n: string, ghost w: World, ghost start: Kernel, kernel: Kernel, ghost before: seq<Target>)
      returns (k: Kernel, ghost order: seq<Target>)
      requires n in interfaces && Reasserted(View(w), start, kernel, before)
      ensures TableView() == old(TableView())
      ensures Reasserted(View(w), start, k, order) && before <= order
      ensures OwnPrefix(TableView()[n], n, |TableView()[n].addr6|, order)
    {
      hide TableView, MirrorAddrs, Interface.View, OwnPrefix, Reasserted, Addr.IsLoopback, Addr.IsMulticast, Addr.IsLinkLocalUnicast;
      ghost var s := View(w);
      k, order := kernel, before;
      var iface := interfaces[n];
      OwnPrefixNone(s.table[n], n, order);
      if !iface.ndp.Relay? {
        return;
      }
      for j := 0 to |iface.addr6|
        invariant Reasserted(s, start, k, order) && before <= order
        invariant OwnPrefix(s.table[n], n, j, order)
      {
        OwnPrefixStep(s.table[n], n, j, order);
        var addr := iface.addr6[j].addr;
        if addr.IsLoopback() || addr.IsMulticast() {
          continue;
        }
        if addr.IsLinkLocalUnicast() && !iface.learnRoutes {
          continue;
        }
        ReassertOne(s, start, k, order, Target(addr, n));
        k := NdpMirrorAddr(addr, iface, true, k);
        order := order + [Target(addr, n)];
      }
    }

    /** The third loop: every tracked host whose index some interface has. */
    method ReassertTracked(ghost w: World, ghost start: Kernel, kernel: Kernel, ghost before: seq<Target>)
      returns (k: Kernel, ghost order: seq<Target>)
      requires Reasserted(View(w), start, kernel, before)
      ensures TableView() == old(TableView())
      ensures Reasserted(View(w), start, k, order) && before <= order
      ensures AllCovered(TableView(), mirrored, order)
    {
      hide TableView, MirrorAddrs, Interface.View, Reasserted, AllCovered, OwnAddrs;
      ghost var s := View(w);
      k, order := kernel, before;
      var keys := mirrored;
      assert AllCovered(s.table, mirrored - keys, order) by { CoveredNone(s.table, mirrored, order); }
      while keys != {}
        invariant keys <= mirrored
        invariant Reasserted(s, start, k, order) && before <= order
        invariant AllCovered(s.table, mirrored - keys, order)
      {
        var key :| key in keys;
        var iface := IfaceByIndex(key.ifindex);
        CoveredStep(s.table, mirrored, keys, key, iface, order);
        keys := keys - {key};
        if iface.None? {
          continue;
        }
        ReassertOne(s, start, k, order, Target(key.addr, iface.value));
        k := NdpMirrorAddr(key.addr, interfaces[iface.value], true, k);
        order := order + [Target(key.addr, iface.value)];
      }
      assert mirrored - keys == mirrored;
    }

    // ---------- services of one interface ----------

    ghost predicate Holds(iface: Interface)
      reads this`interfaces
    {
      Valid() && iface.name in interfaces && interfaces[iface.name] == iface
    }

    /** When one record changes, one entry of the table does. */
    twostate lemma OneChanged(iface: Interface)
      requires old(Holds(iface)) && interfaces == old(interfaces)
      requires forall n :: n in interfaces && n != iface.name ==> interfaces[n].View() == old(interfaces[n].View())
      ensures TableView() == old(TableView())[iface.name := iface.View()]
    {
    }

    twostate lemma OneRemoved(name: string)
      requires interfaces == old(interfaces) - {name}
      requires forall n :: n in interfaces ==> interfaces[n].View() == old(interfaces)[n].View()
      requires forall n :: n in interfaces ==> old(interfaces)[n].View() == old(interfaces[n].View())
      ensures TableView() == old(TableView()) - {name}
    {
    }

    twostate lemma OneAdded(new iface: Interface)
      requires iface.name !in old(interfaces) && interfaces == old(interfaces)[iface.name := iface]
      requires forall n :: n in old(interfaces) ==> old(interfaces)[n].View() == old(interfaces[n].View())
      ensures TableView() == old(TableView())[iface.name := iface.View()]
    {
    }

    method RouterSetup(iface: Interface, enable: bool, fault: RouterFault, w: World) returns (w': World)
      requires Holds(iface)
      modifies iface
      ensures Holds(iface) && View(w') == SetupRouter(old(View(w)), iface.name, enable, fault)
    {
      hide TableView, Interface.View, Services.RouterSetup;
      var os := iface.RouterSetup(enable, fault, w.os);
      OneChanged(iface);
      w' := w.(os := os);
    }

    method Dhcpv6Setup(iface: Interface, enable: bool, fault: DhcpFault, w: World) returns (w': World)
      requires Holds(iface)
      modifies iface
      ensures Holds(iface) && View(w') == SetupDhcp(old(View(w)), iface.name, enable, fault)
    {
      hide TableView, Interface.View, DhcpSetup;
      var os := iface.Dhcpv6Setup(enable, fault, w.os);
      OneChanged(iface);
      w' := w.(os := os);
    }

    /** `listed` is used when the sockets come up and the neighbours the kernel knows are mirrored. */
    method NdpSetup(iface: Interface, enable: bool, fault: NdpFault, listed: bool, w: World) returns (w': World)
      requires Holds(iface)
      modifies iface, this`mirrored
      ensures Holds(iface) && interfaces == old(interfaces)
      ensures View(w') == SetupNdp(old(View(w)), iface.name, enable, fault, listed)
    {
      hide TableView, Interface.View, Services.NdpSetup, Seed;
      var up;
      w', up := NdpSockets(iface, enable, fault, w);
      assert View(w') == old(View(w)).(table := TableView(), os := w'.os, kernel := w'.kernel);
      assert Holds(iface);
      if up {
        w' := SeedMirroredNeighbors(iface, listed, w');
      }
    }

    method NdpSockets(iface: Interface, enable: bool, fault: NdpFault, w: World) returns (w': World, up: bool)
      requires Holds(iface)
      modifies iface
      ensures Holds(iface)
      ensures NdpSvc(iface.View(), w'.os, w'.kernel)
              == Services.NdpSetup(old(iface.View()), w.os, w.kernel, enable, fault)
      ensures w' == w.(os := w'.os, kernel := w'.kernel) && up == iface.View().nd.Some?
      ensures TableView() == old(TableView())[iface.name := iface.View()]
    {
      hide TableView, Interface.View, Services.NdpSetup;
      var os, k;
      os, k, up := iface.NdpSetup(enable, fault, w.os, w.kernel);
      OneChanged(iface);
      w' := w.(os := os, kernel := k);
    }

    method DisableServices(iface: Interface, w: World) returns (w': World)
      requires Holds(iface)
      modifies iface, this`mirrored
      ensures Holds(iface) && interfaces == old(interfaces)
      ensures View(w') == Daemon.DisableServices(old(View(w)), iface.name)
    {
      hide View, SetupRouter, SetupDhcp, SetupNdp;
      w' := RouterSetup(iface, false, RNone, w);
      w' := Dhcpv6Setup(iface, false, DNone, w');
      w' := NdpSetup(iface, false, NNone, true, w');
    }

    method ReloadServices(iface: Interface, f: Faults, w: World) returns (w': World)
      requires Holds(iface)
      modifies iface, this`mirrored
      ensures Holds(iface) && interfaces == old(interfaces)
      ensures View(w') == Daemon.ReloadServices(old(View(w)), iface.name, f)
    {
      hide TableView, SetupRouter, SetupDhcp, SetupNdp, Daemon.DisableServices, Interface.View;
      if iface.running {
        w' := RouterSetup(iface, !iface.ra.Disabled?, f.router, w);
        w' := Dhcpv6Setup(iface, !iface.dhcpv6.Disabled?, f.dhcp, w');
        w' := NdpSetup(iface, !iface.ndp.Disabled?, f.ndp, f.neighsListed, w');
      } else {
        w' := DisableServices(iface, w);
      }
    }

    method ClearMirroredState(iface: Interface, w: World) returns (w': World)
      modifies this`mirrored
      ensures TableView() == old(TableView())
      ensures View(w') == ClearMirrored(old(View(w)), iface.View())
    {
      hide TableView, MirrorAddrs, Untrack, UntrackedSoFar, Interface.View;
      var k := UnmirrorOwn(iface, w.kernel);
      w' := w.(kernel := k);
      ghost var s := View(w');
      var keys := mirrored;
      UntrackEnds(s, iface.View());
      while keys != {}
        invariant keys <= s.mirrored && TableView() == s.table
        invariant View(w') == UntrackedSoFar(s, iface.View(), keys)
      {
        var key :| key in keys;
        UntrackStep(s, iface.View(), keys, key);
        keys := keys - {key};
        if key.ifindex != iface.ifindex {
          continue;
        }
        assert key == Key(key.addr, iface.ifindex);
        w' := UntrackHost(key.addr, iface, w');
      }
    }

    /** The loop over the cached addresses in clearMirroredState. */
    method UnmirrorOwn(iface: Interface, kernel: Kernel) returns (k: Kernel)
      ensures TableView() == old(TableView()) && iface.View() == old(iface.View())
      ensures k == MirrorAddrs(kernel, TableView(), iface.View(), OwnAddrs(iface.View()), false)
    {
      hide TableView, MirrorAddrs, OwnAddrs, OwnSoFar, Interface.View, Addr.IsLoopback, Addr.IsMulticast, Addr.IsLinkLocalUnicast;
      ghost var T := TableView();
      ghost var i := iface.View();
      k := kernel;
      OwnAll(i);
      MirrorNothing(kernel, T, i, false);
      for j := 0 to |iface.addr6|
        invariant TableView() == T && iface.View() == i
        invariant k == MirrorAddrs(kernel, T, i, OwnSoFar(i, j), false)
      {
        OwnStep(kernel, T, i, j, false);
        var addr := iface.addr6[j].addr;
        if iface.ndp.Relay? && !addr.IsLoopback() && !addr.IsMulticast() && (!addr.IsLinkLocalUnicast() || iface.learnRoutes) {
          k := NdpMirrorAddr(addr, iface, false, k);
        }
      }
    }

    /** The record leaves the table first; its sockets and timer go afterwards. */
    method CloseInterface(iface: Interface, w: World) returns (w': World)
      requires Holds(iface)
      modifies iface, this`interfaces
      ensures Valid() && interfaces == old(interfaces) - {iface.name}
      ensures iface.router.None? && iface.dhcp.None? && iface.nd.None?
      ensures View(w') == Daemon.CloseInterface(old(View(w)), iface.name)
    {
      hide TableView, Interface.View, Closed, Daemon.CloseInterface;
      ClosedDirectly(View(w), iface.name);
      interfaces := interfaces - {iface.name};
      w' := CloseServices(iface, w);
      OneRemoved(iface.name);
    }

    /** What closeInterface does to a record outside the table. */
    method CloseServices(iface: Interface, w: World) returns (w': World)
      modifies iface
      ensures Leftover(w'.os, w'.kernel) == Closed(old(iface.View()), w.os, w.kernel)
      ensures w' == w.(os := w'.os, kernel := w'.kernel)
      ensures iface.router.None? && iface.dhcp.None? && iface.nd.None?
    {
      hide Interface.View, Services.RouterSetup, DhcpSetup, Services.NdpSetup;
      var os := iface.RouterSetup(false, RNone, w.os);
      os := iface.Dhcpv6Setup(false, DNone, os);
      var k, up;
      os, k, up := iface.NdpSetup(false, NNone, os, w.kernel);
      os := iface.StopTimer(os);
      w' := w.(os := os, kernel := k);
    }

    // ---------- configuration ----------

    method FindOrCreateInterface(name: string, w: World) returns (iface: Interface, w': World)
      requires Valid()
      modifies this`interfaces
      ensures Holds(iface) && iface.name == name && interfaces == old(interfaces)[name := iface]
      ensures if name in old(interfaces) then iface == old(interfaces)[name] else fresh(iface)
      ensures View(w') == FindOrCreate(old(View(w)), name)
    {
      hide TableView, Interface.View, Defaults, FreshIface;
      if name in interfaces {
        return interfaces[name], w;
      }
      iface := AddInterface(name, w.os.nextId);
      w' := w.(os := w.os.(nextId := w.os.nextId + 1));
    }

    method AddInterface(name: string, id: nat) returns (iface: Interface)
      requires Valid() && name !in interfaces
      modifies this`interfaces
      ensures Holds(iface) && iface.name == name && interfaces == old(interfaces)[name := iface] && fresh(iface)
      ensures TableView() == old(TableView())[name := Defaults(FreshIface(name, id))]
    {
      hide TableView, Interface.View, Defaults, FreshIface;
      iface := NewInterface(name, id);
      interfaces := interfaces[name := iface];
      OneAdded(iface);
    }

    method NewInterface(name: string, id: nat) returns (iface: Interface)
      ensures fresh(iface) && iface.name == name && iface.View() == Defaults(FreshIface(name, id))
    {
      iface := new Interface(name, id);
      iface.SetInterfaceDefaults();
    }

    /** Sockets and mirrored hosts go before the interface moves to another netdev. */
    method Detach(iface: Interface, w: World) returns (w': World)
      requires Holds(iface)
      modifies iface, this`mirrored
      ensures Holds(iface) && interfaces == old(interfaces)
      ensures View(w') == Daemon.Detach(old(View(w)), iface.name)
    {
      hide TableView, Interface.View, Daemon.DisableServices, ClearMirrored;
      w' := DisableServices(iface, w);
      w' := ClearMirroredState(iface, w');
    }

    method Attach(iface: Interface, ifname: string, link: Link, addrs: seq<IPAddr>, ghost w: World)
      requires Holds(iface)
      modifies iface
      ensures Holds(iface)
      ensures View(w) == old(View(w)).(table :=
                old(TableView())[iface.name := Refresh(Daemon.Attach(old(iface.View()), ifname, link), addrs)])
    {
      hide TableView, Interface.View, Daemon.Attach, Refresh;
      iface.Attach(ifname, link);
      iface.RefreshInterfaceAddresses(addrs);
      OneChanged(iface);
    }

    method ApplyOptions(iface: Interface, obj: JsonIface, ghost w: World)
      requires Holds(iface)
      modifies iface
      ensures Holds(iface)
      ensures View(w) == old(View(w)).(table := old(TableView())[iface.name := Options(old(iface.View()), obj)])
    {
      hide TableView, Interface.View, Options;
      iface.ApplyOptions(obj);
      OneChanged(iface);
    }

    method Move(iface: Interface, newIfname: string, link: Link, addrs: seq<IPAddr>, w: World) returns (w': World)
      requires Holds(iface)
      modifies iface, this`mirrored
      ensures Holds(iface) && interfaces == old(interfaces)
      ensures View(w') == Moved(old(View(w)), iface.name, newIfname, link, addrs)
    {
      hide TableView, Interface.View, Daemon.Detach, Daemon.Attach, Refresh;
      w' := w;
      if iface.ifindex != 0 && (iface.ifname != newIfname || iface.ifindex != link.index) {
        w' := Detach(iface, w);
      }
      ghost var s2 := View(w');
      assert Moved(old(View(w)), iface.name, newIfname, link, addrs)
          == s2.(table := s2.table[iface.name := Refresh(Daemon.Attach(s2.table[iface.name], newIfname, link), addrs)]);
      Attach(iface, newIfname, link, addrs, w');
    }

    /** parseInterfaceJSON behind findOrCreateInterface: an unusable entry changes nothing more. */
    method ParseInto(iface: Interface, e: Entry, w: World) returns (w': World)
      requires Holds(iface) && iface.name == e.name
      modifies iface, this`mirrored
      ensures Holds(iface) && interfaces == old(interfaces)
      ensures View(w') == Parse(old(View(w)), e)
    {
      hide TableView, Interface.View, Moved, Accepted, Options;
      if iface.ifname == "" && e.json.ifname.None? {
        return w;
      }
      if e.json.ifname.Some? && e.link.None? {
        return w;
      }
      w' := Accept(iface, e, w);
    }

    method Accept(iface: Interface, e: Entry, w: World) returns (w': World)
      requires Holds(iface) && iface.name == e.name && (e.json.ifname.Some? ==> e.link.Some?)
      modifies iface, this`mirrored
      ensures Holds(iface) && interfaces == old(interfaces)
      ensures View(w') == Accepted(old(View(w)), e)
    {
      hide TableView, Interface.View, Moved, Options;
      w' := w;
      if e.json.ifname.Some? {
        w' := Move(iface, e.json.ifname.value, e.link.value, e.addrs, w);
      }
      assert View(w') == if e.json.ifname.None? then old(View(w))
                         else Moved(old(View(w)), e.name, e.json.ifname.value, e.link.value, e.addrs);
      ApplyOptions(iface, e.json, w');
    }

    method ParseInterfaceJSON(e: Entry, w: World) returns (w': World)
      requires Valid()
      modifies this, interfaces.Values
      ensures Valid() && fresh(interfaces.Values - old(interfaces.Values))
      ensures View(w') == Parse(old(View(w)), e)
    {
      hide View, FindOrCreate, Parse;
      ParseCreates(View(w), e);
      var iface;
      iface, w' := FindOrCreateInterface(e.name, w);
      w' := ParseInto(iface, e, w');
    }

    /** The entries in the arbitrary order the decoded map yields them; none if the file cannot be read. */
    method LoadConfigJSON(cfg: seq<Entry>, w: World) returns (w': World)
      requires Valid()
      modifies this, interfaces.Values
      ensures Valid() && fresh(interfaces.Values - old(interfaces.Values))
      ensures View(w') == ParseAll(old(View(w)), cfg)
    {
      hide TableView, Interface.View, Parse;
      w' := w;
      for k := 0 to |cfg|
        invariant Valid() && fresh(interfaces.Values - old(interfaces.Values))
        invariant ParseAll(View(w'), cfg[k..]) == ParseAll(old(View(w)), cfg)
      {
        assert cfg[k..][1..] == cfg[k + 1..];
        w' := ParseInterfaceJSON(cfg[k], w');
      }
    }

    method ResetOne(iface: Interface)
      requires Holds(iface)
      modifies iface
      ensures Holds(iface) && TableView() == old(TableView())[iface.name := Unused(Defaults(old(iface.View())))]
    {
      hide TableView, Interface.View, Unused, Defaults;
      iface.ResetForReload();
      OneChanged(iface);
    }

    /** The first loop of Reload. */
    method ResetInterfaces(ghost w: World)
      requires Valid()
      modifies interfaces.Values
      ensures Valid() && View(w) == ResetAll(old(View(w)))
    {
      hide TableView, ResetSoFar, Interface.View;
      ghost var s := View(w);
      ResetEnds(s);
      var names := interfaces.Keys;
      while names != {}
        invariant names <= interfaces.Keys && Valid()
        invariant TableView() == ResetSoFar(s.table, names)
      {
        var n :| n in names;
        ResetStep(s.table, names, n);
        names := names - {n};
        ResetOne(interfaces[n]);
      }
    }

    /** The second loop: which services some slave relays. */
    method AnySlaves() returns (any: Slaves)
      ensures any == SlavesOf(TableView()) && TableView() == old(TableView())
    {
      hide TableView, SlavesOf, Without, Interface.View;
      ghost var T := TableView();
      SlavesEnds(T);
      any := Slaves(false, false, false);
      var names := interfaces.Keys;
      while names != {}
        invariant names <= interfaces.Keys
        invariant any == SlavesOf(Without(T, names))
      {
        var n :| n in names;
        SlavesStep(T, names, n);
        names := names - {n};
        var i := interfaces[n];
        if i.master {
          continue;
        }
        if i.dhcpv6.Relay? {
          any := any.(dhcpv6 := true);
        }
        if i.ra.Relay? {
          any := any.(ra := true);
        }
        if i.ndp.Relay? {
          any := any.(ndp := true);
        }
      }
    }

    method DropIdleOne(iface: Interface, any: Slaves)
      requires Holds(iface)
      modifies iface
      ensures Holds(iface) && TableView() == old(TableView())[iface.name := IdleMaster(old(iface.View()), any)]
    {
      hide TableView, Interface.View, IdleMaster;
      iface.DropIdleServices(any);
      OneChanged(iface);
    }

    /** The third loop. */
    method DropIdleMasters(ghost w: World)
      requires Valid()
      modifies interfaces.Values
      ensures Valid() && View(w) == DisableIdleMasters(old(View(w)))
    {
      hide TableView, IdleSoFar, Interface.View, SlavesOf;
      ghost var s := View(w);
      var any := AnySlaves();
      IdleEnds(s);
      var names := interfaces.Keys;
      while names != {}
        invariant names <= interfaces.Keys && Valid()
        invariant TableView() == IdleSoFar(s.table, any, names)
      {
        var n :| n in names;
        IdleStep(s.table, any, names, n);
        names := names - {n};
        DropIdleOne(interfaces[n], any);
      }
    }

    /** The interfaces in an arbitrary order. */
    method CopyIfaceList() returns (list: seq<string>)
      ensures Distinct(list) && Elements(list) == interfaces.Keys
    {
      list := [];
      var names := interfaces.Keys;
      while names != {}
        invariant names <= interfaces.Keys
        invariant Distinct(list) && Elements(list) == interfaces.Keys - names
      {
        var n :| n in names;
        assert n !in Elements(list);
        names := names - {n};
        assert Elements(list + [n]) == Elements(list) + {n};
        list := list + [n];
      }
    }

    method RestartOne(iface: Interface, f: Faults, w: World) returns (w': World)
      requires Holds(iface)
      modifies this, iface
      ensures Valid() && (interfaces == old(interfaces) || interfaces == old(interfaces) - {iface.name})
      ensures View(w') == Daemon.RestartOne(old(View(w)), Restart(iface.name, f))
    {
      hide TableView, Interface.View, Daemon.ReloadServices, Daemon.CloseInterface;
      if iface.inuse {
        w' := ReloadServices(iface, f, w);
      } else {
        w' := CloseInterface(iface, w);
      }
    }

    /** `faults` says what the setups of each interface run into; `order` records the arbitrary order taken. */
    method Reload(cfg: seq<Entry>, faults: map<string, Faults>, w: World) returns (w': World, ghost order: seq<Restart>)
      requires Valid()
      modifies this, interfaces.Values
      ensures Valid() && fresh(interfaces.Values - old(interfaces.Values))
      ensures Distinct(RestartNames(order))
      ensures Elements(RestartNames(order)) == Configure(old(View(w)), cfg).table.Keys
      ensures View(w') == Daemon.Reload(old(View(w)), cfg, order)
    {
      hide TableView, Interface.View, ResetAll, ParseAll, DisableIdleMasters, Daemon.RestartOne;
      ResetInterfaces(w);
      w' := LoadConfigJSON(cfg, w);
      DropIdleMasters(w');
      assert View(w') == Configure(old(View(w)), cfg);
      w', order := RestartServices(faults, w');
    }

    /** The last loop of Reload, over a copy of the interface list. */
    method RestartServices(faults: map<string, Faults>, w: World) returns (w': World, ghost order: seq<Restart>)
      requires Valid()
      modifies this, interfaces.Values
      ensures Valid() && interfaces.Values <= old(interfaces.Values)
      ensures Distinct(RestartNames(order)) && Elements(RestartNames(order)) == old(interfaces.Keys)
      ensures View(w') == RestartAll(old(View(w)), order)
    {
      hide View, RestartAll, Daemon.RestartOne;
      var list := CopyIfaceList();
      order := Plan(list, faults);
      w' := w;
      assert order[0..] == order;
      for k := 0 to |list|
        invariant Valid() && interfaces.Values <= old(interfaces.Values)
        invariant forall j :: k <= j < |list| ==> list[j] in interfaces
        invariant RestartAll(View(w'), order[k..]) == RestartAll(old(View(w)), order)
      {
        RestartStep(View(w'), order, k);
        w' := RestartOne(interfaces[list[k]], if list[k] in faults then faults[list[k]] else NO_FAULTS, w');
      }
      RestartNothing(View(w'), order[|list|..]);
    }

    // ---------- link and address events ----------

    /** Any of the interfaces on this netdev. */
    method IfaceByIfname(ifname: string) returns (r: Option<string>)
      ensures FoundByIfname(TableView(), ifname, r) && TableView() == old(TableView())
    {
      var todo := interfaces.Keys;
      while todo != {}
        invariant todo <= interfaces.Keys
        invariant forall n :: n in interfaces.Keys - todo ==> interfaces[n].ifname != ifname
      {
        var n :| n in todo;
        todo := todo - {n};
        if interfaces[n].ifname == ifname {
          return Some(n);
        }
      }
      return None;
    }

    method HandleLinkEvent(ifname: string, u: LinkEvent, addrs: seq<IPAddr>, f: Faults, w: World)
      returns (owner: Option<string>, w': World)
      requires Valid()
      modifies interfaces.Values, this`mirrored
      ensures Valid() && interfaces == old(interfaces)
      ensures FoundByIfname(old(TableView()), ifname, owner)
      ensures View(w') == if owner.None? then old(View(w)) else HandleLink(old(View(w)), owner.value, u, addrs, f)
    {
      hide View, TableView, HandleLink;
      owner := IfaceByIfname(ifname);
      if owner.None? {
        return owner, w;
      }
      var iface := interfaces[owner.value];
      match u
      case DelLink(_) => w' := LinkDeleted(iface, u, addrs, f, w);
      case NewLink(index, running) =>
        if iface.ifindex == index {
          w' := LinkToggled(iface, u, addrs, f, w);
        } else {
          w' := LinkMoved(iface, u, addrs, f, w);
        }
    }

    method LinkDeleted(iface: Interface, u: LinkEvent, ghost addrs: seq<IPAddr>, ghost f: Faults, w: World) returns (w': World)
      requires Holds(iface) && u.DelLink?
      modifies iface, this`mirrored
      ensures Holds(iface) && interfaces == old(interfaces)
      ensures View(w') == HandleLink(old(View(w)), iface.name, u, addrs, f)
    {
      hide TableView, Interface.View, HandleLink, Daemon.Detach, Gone;
      LinkCases(View(w), iface.name, u, addrs, f);
      if iface.ifindex != u.index {
        return w;
      }
      w' := Detach(iface, w);
      Forget(iface, w');
    }

    method Forget(iface: Interface, ghost w: World)
      requires Holds(iface)
      modifies iface
      ensures Holds(iface)
      ensures View(w) == old(View(w)).(table := old(TableView())[iface.name := Gone(old(iface.View()))])
    {
      hide TableView, Interface.View, Gone;
      iface.Detached();
      OneChanged(iface);
    }

    /** The link came up or went down, or neither, under the same index. */
    method LinkToggled(iface: Interface, u: LinkEvent, addrs: seq<IPAddr>, f: Faults, w: World) returns (w': World)
      requires Holds(iface) && u.NewLink? && iface.ifindex == u.index
      modifies iface, this`mirrored
      ensures Holds(iface) && interfaces == old(interfaces)
      ensures View(w') == HandleLink(old(View(w)), iface.name, u, addrs, f)
    {
      hide TableView, Interface.View, HandleLink, Daemon.ReloadServices, Toggled;
      LinkCases(View(w), iface.name, u, addrs, f);
      var wasRunning := iface.running;
      Toggle(iface, u.running, addrs, w);
      w' := w;
      if wasRunning != u.running {
        w' := ReloadServices(iface, f, w);
      }
    }

    method Toggle(iface: Interface, nowRunning: bool, addrs: seq<IPAddr>, ghost w: World)
      requires Holds(iface)
      modifies iface
      ensures Holds(iface)
      ensures View(w) == old(View(w)).(table := old(TableView())[iface.name := Toggled(old(iface.View()), nowRunning, addrs)])
    {
      hide TableView, Interface.View, Refresh, WithRunning;
      var wasRunning := iface.running;
      iface.SetRunning(nowRunning);
      if wasRunning != nowRunning && nowRunning {
        iface.RefreshInterfaceAddresses(addrs);
      }
      OneChanged(iface);
    }

    /** The netdev came back under another index. */
    method LinkMoved(iface: Interface, u: LinkEvent, addrs: seq<IPAddr>, f: Faults, w: World) returns (w': World)
      requires Holds(iface) && u.NewLink? && iface.ifindex != u.index
      modifies iface, this`mirrored
      ensures Holds(iface) && interfaces == old(interfaces)
      ensures View(w') == HandleLink(old(View(w)), iface.name, u, addrs, f)
    {
      hide TableView, Interface.View, HandleLink, Daemon.Detach, Daemon.ReloadServices, Daemon.Attach, Refresh;
      LinkCases(View(w), iface.name, u, addrs, f);
      w' := Detach(iface, w);
      Attach(iface, iface.ifname, Link(u.index, u.running), addrs, w');
      w' := ReloadServices(iface, f, w');
    }

    method HandleAddrEvent(linkIndex: int, addr: Addr, addrs: seq<IPAddr>, add: bool, w: World)
      returns (owner: Option<string>, w': World)
      requires Valid()
      modifies interfaces.Values
      ensures Valid() && (addr.V6? ==> Found(old(TableView()), linkIndex, owner)) && (addr.V4? ==> owner.None?)
      ensures View(w') == if owner.None? then old(View(w)) else HandleAddr(old(View(w)), owner.value, addrs, addr, add)
    {
      hide View, TableView, HandleAddr;
      if addr.V4? {
        return None, w;
      }
      owner := IfaceByIndex(linkIndex);
      if owner.None? {
        return owner, w;
      }
      w' := AddressChanged(interfaces[owner.value], addr, addrs, add, w);
    }

    method AddressChanged(iface: Interface, addr: Addr, addrs: seq<IPAddr>, add: bool, w: World) returns (w': World)
      requires Holds(iface) && addr.V6?
      modifies iface
      ensures Holds(iface)
      ensures View(w') == HandleAddr(old(View(w)), iface.name, addrs, addr, add)
    {
      hide TableView, Interface.View, Refresh, MirrorAddrs, OwnEligible;
      RefreshAddresses(iface, addr.IsLinkLocalUnicast(), addrs);
      w' := MirrorOwn(iface, addr, add, w);
    }

    /** An own address that came or went is mirrored, or no longer, if it is eligible. */
    method MirrorOwn(iface: Interface, addr: Addr, add: bool, w: World) returns (w': World)
      ensures TableView() == old(TableView())
      ensures w' == if OwnEligible(iface.View(), addr)
                    then w.(kernel := MirrorAddrs(w.kernel, TableView(), iface.View(), {addr}, add)) else w
    {
      hide TableView, Interface.View, MirrorAddrs, Addr.IsLoopback, Addr.IsMulticast, Addr.IsLinkLocalUnicast;
      w' := w;
      if iface.ndp.Relay? && !addr.IsLoopback() && !addr.IsMulticast() && (!addr.IsLinkLocalUnicast() || iface.learnRoutes) {
        var k := NdpMirrorAddr(addr, iface, add, w.kernel);
        w' := w.(kernel := k);
      }
    }

    /** The address list is read anew; for a link-local address the cached source is dropped once more. */
    method RefreshAddresses(iface: Interface, linkLocal: bool, addrs: seq<IPAddr>)
      requires Holds(iface)
      modifies iface
      ensures Holds(iface) && TableView() == old(TableView())[iface.name := iface.View()]
      ensures iface.View() == Refresh(old(iface.View()), addrs)
    {
      hide TableView, Interface.View;
      iface.RefreshInterfaceAddresses(addrs);
      if linkLocal {
        iface.ForgetLinkLocal();
      }
      OneChanged(iface);
    }

    // ---------- closures that timers post ----------

    /** The closure behind the debounce timer. */
    method RunReconcile(w: World) returns (w': World, ghost order: seq<Target>)
      requires w.wakeQueued > 0
      modifies this`reconcileScheduled
      ensures ReconcileOrder(old(View(w)), order)
      ensures View(w') == Reconcile(old(View(w)), order)
    {
      hide TableView, Interface.View, ReconcileKernel, ReconcileOrder;
      w', order := ReconcileKernelState(w);
      w' := w'.(wakeQueued := w'.wakeQueued - 1);
      reconcileScheduled := false;
    }

    /** The closure of one timer generation of a record that is in the table, or was closed and has no socket left. */
    method RunSolicitation(iface: Interface, gen: nat, sendOk: bool, w: World) returns (w': World)
      requires Holds(iface) || iface.router.None?
      modifies iface
      ensures old(Holds(iface)) ==>
        View(w') == RunSolicit(old(View(w)), Token(iface.id, gen), Some(iface.name), sendOk)
      ensures !old(Holds(iface)) ==>
        iface.View() == old(iface.View()) && View(w') == RunSolicit(old(View(w)), Token(iface.id, gen), None, sendOk)
    {
      hide TableView, Solicit;
      var os := w.os.(queued := w.os.queued - multiset{Token(iface.id, gen)});
      if iface.router.None? {
        assert SolicitFire(iface.View(), os, gen, sendOk) == Svc(iface.View(), os);
        return w.(os := os);
      }
      os := iface.SolicitTimerFire(gen, sendOk, os);
      OneChanged(iface);
      w' := w.(os := os);
    }
  }
}

/** What one interface's sweep leaves behind, from any neighbour table, tracked set and route table. */
module SweepCorrectness {
  import opened Common
  import opened Addresses
  import opened KernelModel
  import opened Model
  import opened Mirror
  import opened Daemon
  import opened Agreement
  import opened Healing

  /** A neighbour that the kernel has and does not consider failed. */
  predicate Alive(k: Kernel, q: Key) {
    q in k.neighs && !k.neighs[q].Failed?
  }

  lemma ReapNeighs(s: State, i: Iface, q: Key)
    requires s.kernel.refuse == NO_REFUSAL
    ensures
      var k := Reap(s, i).kernel;
      && (Alive(k, q) <==> Alive(s.kernel, q))
      && (q in k.neighs && k.neighs[q].Failed? <==>
            q in s.kernel.neighs && s.kernel.neighs[q].Failed? && !(q.ifindex == i.ifindex && Mirrorable(q.addr)))
  {
    MirrorKeepsNeighs(s.kernel, s.table, i, TrackedOf(s, FailedOn(s.kernel, i.ifindex), i.ifindex), false);
    hide MirrorAddrs, Mirrorable;
  }

  /** No failed neighbour survives the sweep of its interface; live ones and other interfaces' are kept. */
  lemma SweepReapsFailed(s: State, i: Iface, routesListed: bool, q: Key)
    requires s.kernel.refuse == NO_REFUSAL
    ensures
      var k := Sweep(s, i, true, routesListed).kernel;
      && (Alive(k, q) <==> Alive(s.kernel, q))
      && (q.ifindex == i.ifindex && Mirrorable(q.addr) && q in k.neighs ==> !k.neighs[q].Failed?)
      && (q.ifindex != i.ifindex ==> (q in k.neighs <==> q in s.kernel.neighs)
                                     && (q in k.neighs ==> k.neighs[q] == s.kernel.neighs[q]))
  {
    var s1 := Reap(s, i);
    ReapNeighs(s, i, q);
    MirrorKeepsNeighs(s.kernel, s.table, i, TrackedOf(s, FailedOn(s.kernel, i.ifindex), i.ifindex), false);
    MirrorKeepsNeighs(s1.kernel, s.table, i, Orphans(s1.kernel, i.ifindex, LiveOn(s.kernel, i.ifindex)), false);
    hide MirrorAddrs, Mirrorable;
  }

  /**
   * What a sweep does to a neighbour that has not failed: if it is stale, on this interface and mirrorable, a probe
   * is asked for, so that a dead host fails in the end; otherwise its state stays exactly as it is.
   */
  lemma SweepProbes(s: State, i: Iface, routesListed: bool, q: Key)
    requires s.kernel.refuse == NO_REFUSAL && q in s.kernel.neighs && s.kernel.neighs[q] != Failed
    ensures
      var k := Sweep(s, i, true, routesListed).kernel;
      var a := q.addr;
      var due := s.kernel.neighs[q] == Stale && q.ifindex == i.ifindex
                 && !a.IsLoopback() && !a.IsMulticast() && !a.IsLinkLocalUnicast();
      q in k.neighs && k.neighs[q] == if due then Probe else s.kernel.neighs[q]
  {
    var s1 := Reap(s, i);
    MirrorKeepsNeighs(s.kernel, s.table, i, TrackedOf(s, FailedOn(s.kernel, i.ifindex), i.ifindex), false);
    MirrorKeepsNeighs(s1.kernel, s.table, i, Orphans(s1.kernel, i.ifindex, LiveOn(s.kernel, i.ifindex)), false);
    hide MirrorAddrs, Addr.IsLoopback, Addr.IsMulticast, Addr.IsLinkLocalUnicast;
    assert q == Key(q.addr, q.ifindex);
  }

  lemma UntrackRoutes(s: State, i: Iface, addrs: set<Addr>, r: Route)
    requires s.kernel.refuse == NO_REFUSAL
    ensures r in Untrack(s, i, addrs).kernel.routes <==>
              r in s.kernel.routes && !(i.learnRoutes && r.addr in addrs && !r.addr.IsLinkLocalUnicast()
                                        && r.ifindex == i.ifindex && r.metric == OUR_METRIC)
  {
  }

  /**
   * Routes after a sweep, exactly: a route goes when it is the daemon's own on this interface, routable,
   * and leads to a host that was not alive; and only if the interface learns routes.
   */
  lemma SweepRoutes(s: State, i: Iface, r: Route)
    requires s.kernel.refuse == NO_REFUSAL
    ensures r in Sweep(s, i, true, true).kernel.routes <==>
              r in s.kernel.routes
              && !(i.learnRoutes && r.ifindex == i.ifindex && r.metric == OUR_METRIC && !r.addr.IsLinkLocalUnicast()
                   && r.addr !in LiveOn(s.kernel, i.ifindex))
  {
    var gone := TrackedOf(s, FailedOn(s.kernel, i.ifindex), i.ifindex);
    var s1 := Reap(s, i);
    UntrackRoutes(s, i, gone, r);
    MirrorKeepsNeighs(s.kernel, s.table, i, gone, false);
    UntrackRoutes(s1, i, Orphans(s1.kernel, i.ifindex, LiveOn(s.kernel, i.ifindex)), r);
    hide MirrorAddrs, Mirrorable;
  }

  /** Every owned, routable route left on the interface has a neighbour that is not failed. */
  lemma SweepLeavesNoOrphan(s: State, i: Iface, r: Route)
    requires s.kernel.refuse == NO_REFUSAL && i.learnRoutes
    requires r in Sweep(s, i, true, true).kernel.routes
    requires r.ifindex == i.ifindex && r.metric == OUR_METRIC && !r.addr.IsLinkLocalUnicast()
    ensures Alive(Sweep(s, i, true, true).kernel, Key(r.addr, r.ifindex))
  {
    SweepRoutes(s, i, r);
    SweepReapsFailed(s, i, true, Key(r.addr, r.ifindex));
  }

  /** A sweep drops a host of its interface: it failed, or its owned route leads to no live neighbour. */
  predicate Drops(k: Kernel, i: Iface, neighsListed: bool, routesListed: bool, q: Key) {
    neighsListed && q.ifindex == i.ifindex
    && (q.addr in FailedOn(k, i.ifindex)
        || (routesListed && Route(q.addr, i.ifindex, OUR_METRIC) in k.routes && q.addr !in LiveOn(k, i.ifindex)))
  }

  /** Reaping leaves the owned route to any host that did not fail, whatever the kernel refuses. */
  lemma ReapRoutes(s: State, i: Iface, a: Addr)
    requires a !in FailedOn(s.kernel, i.ifindex)
    ensures Route(a, i.ifindex, OUR_METRIC) in Reap(s, i).kernel.routes <==> Route(a, i.ifindex, OUR_METRIC) in s.kernel.routes
  {
    hide Mirrorable;
  }

  /** Tracked hosts after a sweep, exactly, whatever the kernel refuses; those of other interfaces are untouched. */
  lemma SweepTracked(s: State, i: Iface, neighsListed: bool, routesListed: bool, q: Key)
    ensures q in Sweep(s, i, neighsListed, routesListed).mirrored <==>
              q in s.mirrored && !Drops(s.kernel, i, neighsListed, routesListed, q)
  {
    if q.ifindex == i.ifindex && q.addr !in FailedOn(s.kernel, i.ifindex) { ReapRoutes(s, i, q.addr); }
    hide MirrorAddrs, Mirrorable;
    assert q.ifindex == i.ifindex ==> q == Key(q.addr, i.ifindex);
  }

  /**
   * A swept orphan comes back with a later reconcile only as an own address of an interface with its index:
   * its route is there afterwards exactly when the targets ask for it last, and then it is such an address.
   */
  lemma OrphanStaysAway(s: State, i: Iface, r: Route, todo: seq<Target>)
    requires s.kernel.refuse == NO_REFUSAL && i.learnRoutes
    requires r in s.kernel.routes && r.ifindex == i.ifindex && r.metric == OUR_METRIC && !r.addr.IsLinkLocalUnicast()
    requires r.addr !in LiveOn(s.kernel, i.ifindex)
    requires ReconcileOrder(Sweep(s, i, true, true), todo)
    ensures r in ReconcileKernel(Sweep(s, i, true, true), todo).routes <==>
              LastAsked(s.table, todo, {}, r.addr) == Some(r)
    ensures LastAsked(s.table, todo, {}, r.addr) == Some(r) ==>
              exists n :: n in s.table && s.table[n].ifindex == i.ifindex && r.addr in OwnAddrs(s.table[n])
  {
    var s2 := Sweep(s, i, true, true);
    SweepRoutes(s, i, r);
    SweepTracked(s, i, true, true, Key(r.addr, i.ifindex));
    assert s2.table == s.table && s2.kernel.refuse == s.kernel.refuse;
    hide Sweep;
    AddTargetsRoutes(SetFlags(s2.kernel, NdpIfnames(s2.table)), s.table, todo, r);
    LastAskedIff(s.table, todo, {}, r.addr);
    if LastAsked(s.table, todo, {}, r.addr) == Some(r) {
      var t :| t in todo && t.addr == r.addr && RouteFor(s.table, t) == Some(r);
      assert IsTarget(s2, t);
      assert r.addr in OwnAddrs(s.table[t.name]);
    }
  }

  // ---------- all interfaces ----------

  /** Neighbours stay as alive as they are, failed ones and routes only go. */
  ghost predicate OnlyReaped(k: Kernel, k2: Kernel) {
    && k2.refuse == k.refuse && k2.routes <= k.routes
    && (forall q :: Alive(k2, q) <==> Alive(k, q))
    && (forall q :: q in k2.neighs && k2.neighs[q].Failed? ==> q in k.neighs && k.neighs[q].Failed?)
  }

  lemma VisitReaps(s: State, i: Iface, v: Visit)
    requires s.kernel.refuse == NO_REFUSAL
    ensures OnlyReaped(s.kernel, VisitOne(s, i, v).kernel)
  {
    if i.ndp.Relay? && v.neighsListed {
      var s1 := Reap(s, i);
      var gone := TrackedOf(s, FailedOn(s.kernel, i.ifindex), i.ifindex);
      var orphans := Orphans(s1.kernel, i.ifindex, LiveOn(s.kernel, i.ifindex));
      forall q { ReapNeighs(s, i, q); }
      MirrorKeepsNeighs(s.kernel, s.table, i, gone, false);
      MirrorKeepsNeighs(s1.kernel, s.table, i, orphans, false);
      forall r | r in VisitOne(s, i, v).kernel.routes ensures r in s.kernel.routes {
        UntrackRoutes(s, i, gone, r);
        UntrackRoutes(s1, i, orphans, r);
      }
      hide MirrorAddrs, Reap;
    }
  }

  lemma {:induction false} RoundReaps(s: State, visits: seq<Visit>)
    requires s.kernel.refuse == NO_REFUSAL
    ensures OnlyReaped(s.kernel, SweepAll(s, visits).kernel)
    decreases |visits|
  {
    if visits != [] && visits[0].name in s.table {
      VisitReaps(s, s.table[visits[0].name], visits[0]);
      hide VisitOne, Alive;
      RoundReaps(VisitOne(s, s.table[visits[0].name], visits[0]), visits[1..]);
    }
  }

  /** Nothing failed and mirrorable is left on the interface, and no owned routable route without a live neighbour. */
  ghost predicate Swept(k: Kernel, i: Iface, routes: bool) {
    && (forall q :: q in k.neighs && q.ifindex == i.ifindex && Mirrorable(q.addr) ==> !k.neighs[q].Failed?)
    && (routes && i.learnRoutes ==>
          forall r :: r in k.routes && r.ifindex == i.ifindex && r.metric == OUR_METRIC && !r.addr.IsLinkLocalUnicast() ==>
            Alive(k, Key(r.addr, r.ifindex)))
  }

  lemma SweepSweeps(s: State, i: Iface, routesListed: bool)
    requires s.kernel.refuse == NO_REFUSAL
    ensures Swept(Sweep(s, i, true, routesListed).kernel, i, routesListed)
  {
    hide Mirrorable, Sweep;
    var k := Sweep(s, i, true, routesListed).kernel;
    forall q | q in k.neighs && q.ifindex == i.ifindex && Mirrorable(q.addr) ensures !k.neighs[q].Failed? {
      SweepReapsFailed(s, i, routesListed, q);
    }
    if routesListed && i.learnRoutes {
      forall r | r in k.routes && r.ifindex == i.ifindex && r.metric == OUR_METRIC && !r.addr.IsLinkLocalUnicast()
        ensures Alive(k, Key(r.addr, r.ifindex))
      { SweepLeavesNoOrphan(s, i, r); }
    }
  }

  lemma SweptStays(k: Kernel, k2: Kernel, i: Iface, routes: bool)
    requires Swept(k, i, routes) && OnlyReaped(k, k2)
    ensures Swept(k2, i, routes)
  {
    hide Mirrorable, Alive;
  }

  lemma {:induction false} RoundSweeps(s: State, visits: seq<Visit>, n: string, routesListed: bool)
    requires s.kernel.refuse == NO_REFUSAL && n in s.table && s.table[n].ndp.Relay?
    requires Visit(n, true, routesListed) in visits && forall v :: v in visits ==> v.name in s.table
    ensures Swept(SweepAll(s, visits).kernel, s.table[n], routesListed)
    decreases |visits|
  {
    var v, i := visits[0], s.table[visits[0].name];
    var s1 := VisitOne(s, i, v);
    VisitReaps(s, i, v);
    assert s1.table == s.table;
    assert forall u :: u in visits[1..] ==> u in visits;
    if v == Visit(n, true, routesListed) {
      SweepSweeps(s, i, routesListed);
      hide VisitOne, Swept, OnlyReaped;
      assert s1.kernel.refuse == NO_REFUSAL by { VisitKeepsRefusals(s, i, v); }
      RoundReaps(s1, visits[1..]);
      SweptStays(s1.kernel, SweepAll(s1, visits[1..]).kernel, i, routesListed);
    } else {
      hide VisitOne, Swept;
      RoundSweeps(s1, visits[1..], n, routesListed);
    }
  }

  lemma VisitKeepsRefusals(s: State, i: Iface, v: Visit)
    requires s.kernel.refuse == NO_REFUSAL
    ensures VisitOne(s, i, v).kernel.refuse == NO_REFUSAL
  {
    VisitReaps(s, i, v);
  }

  /**
   * After a whole periodic sweep, every relaying interface whose neighbours could be listed is swept: no failed
   * mirrorable neighbour is left there, and, if its routes could be listed and it learns them, no orphan.
   */
  lemma WholeSweepSweeps(s: State, visits: seq<Visit>, v: Visit)
    requires Enabled(s, EvSweep(visits)) && s.kernel.refuse == NO_REFUSAL
    requires v in visits && v.neighsListed && v.name in s.table && s.table[v.name].ndp.Relay?
    ensures Swept(Step(s, EvSweep(visits)).kernel, s.table[v.name], v.routesListed)
  {
    hide SweepAll, Swept;
    var names := VisitNames(visits);
    forall u | u in visits ensures u.name in s.table {
      var k :| 0 <= k < |visits| && visits[k] == u;
      assert names[k] == u.name && names[k] in Elements(names);
    }
    RoundSweeps(s, visits, v.name, v.routesListed);
  }

  /** Every interface is visited. */
  lemma WholeSweepVisits(s: State, visits: seq<Visit>, n: string)
    requires Enabled(s, EvSweep(visits)) && n in s.table
    ensures exists v :: v in visits && v.name == n
  {
    var names := VisitNames(visits);
    assert n in Elements(names);
    var k :| 0 <= k < |names| && names[k] == n;
    assert visits[k] in visits && visits[k].name == n;
  }

  /** Some visited interface that relays, whose neighbours could be listed, has the index. */
  ghost predicate ListedOn(T: Table, visits: seq<Visit>, ifindex: int) {
    exists v :: v in visits && v.neighsListed && v.name in T && T[v.name].ndp == Relay && T[v.name].ifindex == ifindex
  }

  lemma ListedCons(T: Table, visits: seq<Visit>, ifindex: int)
    requires visits != [] && visits[0].name in T
    ensures ListedOn(T, visits, ifindex) <==>
              (visits[0].neighsListed && T[visits[0].name].ndp == Relay && T[visits[0].name].ifindex == ifindex)
              || ListedOn(T, visits[1..], ifindex)
  {
    assert forall v :: v in visits <==> v == visits[0] || v in visits[1..];
  }

  lemma VisitProbes(s: State, i: Iface, v: Visit, q: Key)
    requires s.kernel.refuse == NO_REFUSAL && q in s.kernel.neighs && s.kernel.neighs[q] != Failed
    ensures
      var s2 := VisitOne(s, i, v);
      var due := s.kernel.neighs[q] == Stale && v.neighsListed && i.ndp == Relay && q.ifindex == i.ifindex
                 && !q.addr.IsLoopback() && !q.addr.IsMulticast() && !q.addr.IsLinkLocalUnicast();
      && q in s2.kernel.neighs && s2.kernel.neighs[q] == (if due then Probe else s.kernel.neighs[q])
      && s2.kernel.refuse == NO_REFUSAL && s2.table == s.table
  {
    VisitKeepsRefusals(s, i, v);
    VisitReaps(s, i, v);
    SweepProbes(s, i, v.routesListed, q);
    hide Reap, MirrorAddrs, Addr.IsLoopback, Addr.IsMulticast, Addr.IsLinkLocalUnicast;
  }

  lemma {:induction false} RoundProbes(s: State, visits: seq<Visit>, q: Key)
    requires s.kernel.refuse == NO_REFUSAL && q in s.kernel.neighs && s.kernel.neighs[q] != Failed
    requires forall v :: v in visits ==> v.name in s.table
    ensures
      var k := SweepAll(s, visits).kernel;
      var due := s.kernel.neighs[q] == Stale && ListedOn(s.table, visits, q.ifindex)
                 && !q.addr.IsLoopback() && !q.addr.IsMulticast() && !q.addr.IsLinkLocalUnicast();
      q in k.neighs && k.neighs[q] == if due then Probe else s.kernel.neighs[q]
    decreases |visits|
  {
    hide VisitOne, ListedOn, Addr.IsLoopback, Addr.IsMulticast, Addr.IsLinkLocalUnicast;
    if visits != [] {
      var v, i := visits[0], s.table[visits[0].name];
      VisitProbes(s, i, v, q);
      ListedCons(s.table, visits, q.ifindex);
      RoundProbes(VisitOne(s, i, v), visits[1..], q);
    } else {
      assert !ListedOn(s.table, visits, q.ifindex) by { NoneListed(s.table, q.ifindex); }
    }
  }

  lemma NoneListed(T: Table, ifindex: int)
    ensures !ListedOn(T, [], ifindex)
  {
  }

  /**
   * After a whole periodic sweep each stale mirrorable neighbour of a relaying interface whose neighbours could be
   * listed is being probed, and every other neighbour that had not failed is as it was.
   */
  lemma WholeSweepProbes(s: State, visits: seq<Visit>, q: Key)
    requires Enabled(s, EvSweep(visits)) && s.kernel.refuse == NO_REFUSAL
    requires q in s.kernel.neighs && s.kernel.neighs[q] != Failed
    ensures
      var k := Step(s, EvSweep(visits)).kernel;
      var due := s.kernel.neighs[q] == Stale && ListedOn(s.table, visits, q.ifindex)
                 && !q.addr.IsLoopback() && !q.addr.IsMulticast() && !q.addr.IsLinkLocalUnicast();
      q in k.neighs && k.neighs[q] == if due then Probe else s.kernel.neighs[q]
  {
    hide SweepAll, ListedOn;
    var names := VisitNames(visits);
    forall u | u in visits ensures u.name in s.table {
      var k :| 0 <= k < |visits| && visits[k] == u;
      assert names[k] == u.name && names[k] in Elements(names);
    }
    RoundProbes(s, visits, q);
  }
}

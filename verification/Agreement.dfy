/** When the kernel's proxy entries and host routes are exactly what the tracked hosts call for. */
module Agreement {
  import opened Common
  import opened Addresses
  import opened KernelModel
  import opened Model
  import opened Mirror

  /** The interface indexes that carry a proxy entry for a host behind `ifindex`. */
  function Carriers(T: Table, ifindex: int): set<int> {
    Indexes(T, Masters(T, ifindex))
  }

  ghost predicate WantsProxy(T: Table, tracked: set<Key>, p: Proxy) {
    exists k :: k in tracked && k.addr == p.addr && p.ifindex in Carriers(T, k.ifindex)
  }

  ghost predicate ProxiesAgree(s: State) {
    forall p: Proxy :: p in s.kernel.proxies <==> WantsProxy(s.table, s.mirrored, p)
  }

  /** The routes of the daemon's own metric are those to the tracked hosts. */
  ghost predicate RoutesAgree(s: State) {
    forall r: Route :: r.metric == OUR_METRIC ==> (r in s.kernel.routes <==> Key(r.addr, r.ifindex) in s.mirrored)
  }

  ghost predicate Agrees(s: State) {
    ProxiesAgree(s) && RoutesAgree(s)
  }

  /** Each address is tracked on at most one interface. */
  ghost predicate OneHome(tracked: set<Key>) {
    forall k, l :: k in tracked && l in tracked && k.addr == l.addr ==> k == l
  }

  /** Every configured interface relays NDP and learns routes. */
  ghost predicate AllRelay(T: Table) {
    forall n :: n in T ==> T[n].ndp.Relay? && T[n].learnRoutes
  }

  lemma TrackAgrees(s: State, i: Iface, addrs: set<Addr>)
    requires Agrees(s) && s.kernel.refuse == NO_REFUSAL && i.learnRoutes
    requires forall a :: a in addrs ==> Mirrorable(a)
    requires OneHome(s.mirrored + KeysOf(addrs, i.ifindex))
    ensures Agrees(Track(s, i, addrs))
  {
    var s2 := Track(s, i, addrs);
    forall p: Proxy ensures p in s2.kernel.proxies <==> WantsProxy(s2.table, s2.mirrored, p) {
      if WantsProxy(s2.table, s2.mirrored, p) {
        var k :| k in s2.mirrored && k.addr == p.addr && p.ifindex in Carriers(s.table, k.ifindex);
        assert k in s.mirrored ==> WantsProxy(s.table, s.mirrored, p);
      } else {
        assert p.addr in addrs ==> Key(p.addr, i.ifindex) in s2.mirrored;
      }
    }
    forall r: Route | r.metric == OUR_METRIC
      ensures r in s2.kernel.routes <==> Key(r.addr, r.ifindex) in s2.mirrored
    {
      if r.addr in addrs {
        assert Key(r.addr, i.ifindex) in s2.mirrored;
      }
    }
  }

  lemma UntrackAgrees(s: State, i: Iface, addrs: set<Addr>)
    requires Agrees(s) && s.kernel.refuse == NO_REFUSAL && i.learnRoutes
    requires KeysOf(addrs, i.ifindex) <= s.mirrored && OneHome(s.mirrored)
    requires forall a :: a in addrs ==> Mirrorable(a)
    ensures Agrees(Untrack(s, i, addrs))
  {
    var s2 := Untrack(s, i, addrs);
    forall p: Proxy ensures p in s2.kernel.proxies <==> WantsProxy(s2.table, s2.mirrored, p) {
      var home := Key(p.addr, i.ifindex);
      if p.addr in addrs {
        assert home in s.mirrored;
        assert forall k :: k in s.mirrored && k.addr == p.addr ==> k == home;
      } else {
        assert forall k :: k in s.mirrored && k.addr == p.addr ==> k in s2.mirrored;
      }
    }
  }

  /**
   * Adding a host: agreement survives exactly when no other interface tracks the same address,
   * because the new route takes the place of the other interface's.
   */
  lemma AddAgreesIff(s: State, i: Iface, a: Addr)
    requires Agrees(s) && s.kernel.refuse == NO_REFUSAL && i.learnRoutes && Mirrorable(a)
    requires Key(a, i.ifindex) !in s.mirrored
    ensures Agrees(Track(s, i, {a})) <==> forall k :: k in s.mirrored ==> k.addr != a
  {
    var s2 := Track(s, i, {a});
    if k :| k in s.mirrored && k.addr == a {
      assert Route(a, k.ifindex, OUR_METRIC) !in s2.kernel.routes;
      assert Key(a, k.ifindex) in s2.mirrored;
    } else {
      forall p: Proxy ensures p in s2.kernel.proxies <==> WantsProxy(s2.table, s2.mirrored, p) {
        if WantsProxy(s2.table, s2.mirrored, p) {
          var k :| k in s2.mirrored && k.addr == p.addr && p.ifindex in Carriers(s.table, k.ifindex);
          assert k in s.mirrored ==> WantsProxy(s.table, s.mirrored, p);
        } else {
          assert p.addr == a ==> Key(p.addr, i.ifindex) in s2.mirrored;
        }
      }
    }
  }

  /**
   * Removing a host: its proxy entries are dropped by address, so agreement survives exactly when no
   * other interface that tracks the address has a carrier in common with it.
   */
  lemma RemoveAgreesIff(s: State, i: Iface, a: Addr)
    requires Agrees(s) && s.kernel.refuse == NO_REFUSAL && i.learnRoutes && Mirrorable(a)
    requires Key(a, i.ifindex) in s.mirrored
    ensures Agrees(Untrack(s, i, {a})) <==>
              forall k :: k in s.mirrored && k.addr == a && k.ifindex != i.ifindex ==>
                Carriers(s.table, k.ifindex) !! Carriers(s.table, i.ifindex)
  {
    var s2 := Untrack(s, i, {a});
    if Agrees(s2) {
      forall k | k in s.mirrored && k.addr == a && k.ifindex != i.ifindex
        ensures Carriers(s.table, k.ifindex) !! Carriers(s.table, i.ifindex)
      {
        forall x | x in Carriers(s.table, k.ifindex) ensures x !in Carriers(s.table, i.ifindex) {
          assert k in s2.mirrored;
          assert WantsProxy(s2.table, s2.mirrored, Proxy(a, x));
        }
      }
    } else {
      assert RoutesAgree(s2);
      var p: Proxy :| !(p in s2.kernel.proxies <==> WantsProxy(s2.table, s2.mirrored, p));
      RemovalMismatch(s, i, a, p);
    }
  }

  lemma RemovalMismatch(s: State, i: Iface, a: Addr, p: Proxy)
    requires ProxiesAgree(s) && s.kernel.refuse == NO_REFUSAL && Key(a, i.ifindex) in s.mirrored
    requires !(p in Untrack(s, i, {a}).kernel.proxies <==> WantsProxy(s.table, Untrack(s, i, {a}).mirrored, p))
    ensures exists k :: k in s.mirrored && k.addr == a && k.ifindex != i.ifindex
                        && !(Carriers(s.table, k.ifindex) !! Carriers(s.table, i.ifindex))
  {
    var s2 := Untrack(s, i, {a});
    if WantsProxy(s.table, s2.mirrored, p) {
      var k :| k in s2.mirrored && k.addr == p.addr && p.ifindex in Carriers(s.table, k.ifindex);
      assert WantsProxy(s.table, s.mirrored, p);
      assert p.addr == a && p.ifindex in Carriers(s.table, i.ifindex);
      assert p.ifindex in Carriers(s.table, k.ifindex) * Carriers(s.table, i.ifindex);
    }
  }

  /**
   * The failing family at work: on any table with two slaves and a master, a host that shows up behind
   * both slaves and then fails on the second loses its proxy entry though the first still tracks it.
   */
  lemma SharedAddressLosesProxy(s: State, lan1: string, lan2: string, wan: string, a: Addr)
    requires s.mirrored == {} && Agrees(s) && AllRelay(s.table) && s.kernel.refuse == NO_REFUSAL
    requires lan1 in s.table && lan2 in s.table && wan in s.table && s.table[wan].master
    requires s.table[lan1].ifindex != s.table[lan2].ifindex
    requires s.table[wan].ifindex !in {s.table[lan1].ifindex, s.table[lan2].ifindex}
    requires a.V6? && Mirrorable(a)
    ensures
      var s1 := HandleNeigh(s, s.table[lan1], a, Reachable);
      var s2 := HandleNeigh(s1, s.table[lan2], a, Reachable);
      var s3 := HandleNeigh(s2, s.table[lan2], a, Failed);
      && Agrees(s1) && !Agrees(s2)
      && Key(a, s.table[lan1].ifindex) in s3.mirrored
      && Proxy(a, s.table[wan].ifindex) in s2.kernel.proxies && Proxy(a, s.table[wan].ifindex) !in s3.kernel.proxies
  {
    var s1 := HandleNeigh(s, s.table[lan1], a, Reachable);
    var s2 := HandleNeigh(s1, s.table[lan2], a, Reachable);
    assert s1 == Track(s, s.table[lan1], {a}) && s2 == Track(s1, s.table[lan2], {a});
    UntrackKeeps(s, s.table[lan1], {a});
    AddAgreesIff(s, s.table[lan1], a);
    AddAgreesIff(s1, s.table[lan2], a);
    assert Key(a, s.table[lan1].ifindex) in s1.mirrored;
    assert s.table[wan].ifindex in Carriers(s.table, s.table[lan2].ifindex);
  }

  // ---------- steps ----------

  ghost predicate Mirrorables(tracked: set<Key>) {
    forall k :: k in tracked ==> Mirrorable(k.addr)
  }

  ghost predicate Ready(s: State) {
    Agrees(s) && Mirrorables(s.mirrored) && AllRelay(s.table) && s.kernel.refuse == NO_REFUSAL
  }

  lemma SweepAgrees(s: State, i: Iface)
    requires Ready(s) && i.learnRoutes && OneHome(s.mirrored)
    ensures Ready(Sweep(s, i, true, true)) && Ready(Reap(s, i))
  {
    hide MirrorAddrs;
    var gone := TrackedOf(s, FailedOn(s.kernel, i.ifindex), i.ifindex);
    UntrackAgrees(s, i, gone);
    var s1 := Reap(s, i);
    UntrackKeeps(s, i, gone);
    assert Ready(s1);
    var orphans := Orphans(s1.kernel, i.ifindex, LiveOn(s.kernel, i.ifindex));
    forall a | a in orphans ensures Key(a, i.ifindex) in s1.mirrored {
      assert Route(a, i.ifindex, OUR_METRIC) in s1.kernel.routes;
    }
    UntrackAgrees(s1, i, orphans);
    UntrackKeeps(s1, i, orphans);
  }

  lemma UntrackKeeps(s: State, i: Iface, addrs: set<Addr>)
    ensures Untrack(s, i, addrs).kernel.refuse == s.kernel.refuse
    ensures Track(s, i, addrs).kernel.refuse == s.kernel.refuse
  {
  }

  lemma NeighAgrees(s: State, i: Iface, addr: Addr, nud: Nud)
    requires Ready(s) && i.learnRoutes && OneHome(s.mirrored) && OneHome(HandleNeigh(s, i, addr, nud).mirrored)
    ensures Ready(HandleNeigh(s, i, addr, nud))
  {
    hide MirrorAddrs, Mirrorable;
    UntrackKeeps(s, i, {addr});
    if nud.Resolved() && HandleNeigh(s, i, addr, nud) != s {
      TrackAgrees(s, i, {addr});
    } else if nud.Failed? && Key(addr, i.ifindex) in s.mirrored {
      UntrackAgrees(s, i, {addr});
    }
  }

  lemma SeedAgrees(s: State, i: Iface, listed: bool)
    requires Ready(s) && i.learnRoutes && OneHome(Seed(s, i, listed).mirrored)
    ensures Ready(Seed(s, i, listed))
  {
    hide MirrorAddrs, Mirrorable;
    var found := Seedable(s, i.ifindex);
    UntrackKeeps(s, i, found);
    if listed { TrackAgrees(s, i, found); }
  }

  lemma SweepCases(s: State, i: Iface, neighsListed: bool, routesListed: bool)
    ensures Sweep(s, i, neighsListed, routesListed) in {s, Reap(s, i), Sweep(s, i, true, true)}
  {
  }

  /** A daemon that tracks nothing agrees with a kernel that holds nothing of its own. */
  lemma EmptyAgrees(s: State)
    requires s.mirrored == {} && s.kernel.proxies == {} && AllRelay(s.table) && s.kernel.refuse == NO_REFUSAL
    requires forall r :: r in s.kernel.routes ==> r.metric != OUR_METRIC
    ensures Ready(s)
  {
  }
}

/** What single events do, told in the terms of records, addresses and the kernel's tables. */
module Events {
  import opened Common
  import opened Addresses
  import opened KernelModel
  import opened Model
  import opened Services
  import opened LinkLocal
  import opened Mirror
  import opened Daemon
  import opened Healing
  import opened Outcomes
  import opened FinalPass
  import opened Configuring

  // ---------- cached address lists ----------

  /** An entry that names a netdev brings the address list read from it; no other list changes. */
  lemma ParseAddrs(s: State, e: Entry)
    ensures
      var T := Parse(s, e).table;
      && e.name in T
      && (e.json.ifname.Some? && e.link.Some? ==> T[e.name].addr6 == e.addrs)
      && (e.json.ifname.None? || e.link.None? ==>
            T[e.name].addr6 == if e.name in s.table then s.table[e.name].addr6 else [])
  {
    hide Detach;
  }

  lemma {:induction false} ParseAllAddrs(s: State, cfg: seq<Entry>, n: string)
    requires Distinct(EntryNames(cfg))
    ensures
      var T := ParseAll(s, cfg).table;
      && (n in s.table ==> n in T)
      && (n in s.table && n !in EntryNames(cfg) ==> T[n].addr6 == s.table[n].addr6)
      && forall k :: 0 <= k < |cfg| && cfg[k].name == n ==>
           n in T
           && T[n].addr6 == if cfg[k].json.ifname.Some? && cfg[k].link.Some? then cfg[k].addrs
                            else if n in s.table then s.table[n].addr6 else []
    decreases |cfg|
  {
    hide Parse, Distinct;
    if cfg != [] {
      var e, s1 := cfg[0], Parse(s, cfg[0]);
      NamesOf(cfg);
      ParseEffect(s, e);
      ParseAddrs(s, e);
      ParseAllAddrs(s1, cfg[1..], n);
      assert forall k :: 0 < k < |cfg| ==> cfg[k] == cfg[1..][k - 1];
      NamesIn(cfg);
      hide EntryNames;
    }
  }

  lemma NamesIn(cfg: seq<Entry>)
    requires cfg != [] && Distinct(EntryNames(cfg))
    ensures forall k :: 0 < k < |cfg| ==> cfg[k].name != cfg[0].name
  {
    var names := EntryNames(cfg);
    forall k | 0 < k < |cfg| ensures cfg[k].name != cfg[0].name { assert names[k] != names[0]; }
  }

  lemma VisitKeepsAddrs(s: State, r: Restart, n: string)
    requires r.name in s.table && n in RestartOne(s, r).table
    ensures n in s.table && RestartOne(s, r).table[n].addr6 == s.table[n].addr6
  {
    hide ReloadServices, CloseInterface;
    RestartKeepsRecords(s, r.name, r.faults);
    RestartOneOutcome(s, r);
    if n != r.name { OthersUntouched(s, r, n); }
  }

  lemma {:induction false} PassKeepsAddrs(s: State, order: seq<Restart>, n: string)
    requires n in RestartAll(s, order).table
    ensures n in s.table && RestartAll(s, order).table[n].addr6 == s.table[n].addr6
    decreases |order|
  {
    hide RestartOne;
    if order != [] && order[0].name in s.table {
      PassKeepsAddrs(RestartOne(s, order[0]), order[1..], n);
      VisitKeepsAddrs(s, order[0], n);
    }
  }

  lemma ConfigureAddrs(s: State, cfg: seq<Entry>, n: string)
    requires n in ParseAll(ResetAll(s), cfg).table
    ensures n in Configure(s, cfg).table
    ensures Configure(s, cfg).table[n].addr6 == ParseAll(ResetAll(s), cfg).table[n].addr6
  {
    hide ParseAll, ResetAll, SlavesOf;
  }

  lemma ResetAddrs(s: State, n: string)
    ensures n in ResetAll(s).table <==> n in s.table
    ensures n in s.table ==> ResetAll(s).table[n].addr6 == s.table[n].addr6
  {
  }

  /**
   * After a reload an interface whose usable entry names a netdev has the addresses read from that netdev, and one
   * whose usable entry names none has those it had.
   */
  lemma ReloadAddrs(s: State, cfg: seq<Entry>, order: seq<Restart>, k: nat)
    requires Distinct(EntryNames(cfg)) && Enabled(s, EvReload(cfg, order)) && k < |cfg|
    requires cfg[k].name in Reload(s, cfg, order).table && Accepts(ConfOf(s.table, cfg[k].name), cfg[k])
    ensures
      var T := Reload(s, cfg, order).table;
      && (cfg[k].json.ifname.Some? ==> T[cfg[k].name].addr6 == cfg[k].addrs)
      && (cfg[k].json.ifname.None? ==> cfg[k].name in s.table && T[cfg[k].name].addr6 == s.table[cfg[k].name].addr6)
  {
    var n := cfg[k].name;
    hide ParseAll, RestartAll, ResetAll, DisableIdleMasters, EntryNames, Distinct;
    PassKeepsAddrs(Configure(s, cfg), order, n);
    ParseAllAddrs(ResetAll(s), cfg, n);
    ConfigureAddrs(s, cfg, n);
    ResetAddrs(s, n);
  }

  // ---------- own addresses ----------

  /** The daemon mirrors this as an own address: of a relaying interface, and link-local only if it learns routes. */
  predicate OwnHost(i: Iface, a: Addr) {
    i.ndp == Relay && !a.IsLoopback() && !a.IsMulticast() && (LinkLocalBytes(a) ==> i.learnRoutes)
  }

  /**
   * An address event, exactly: nothing for IPv4; otherwise the interface has the list read anew, no other record
   * changes, and an address to be mirrored is mirrored when it comes and unmirrored when it goes.
   */
  lemma AddrEvent(s: State, n: string, addrs: seq<IPAddr>, addr: Addr, add: bool)
    requires n in s.table
    ensures
      var s2 := HandleAddr(s, n, addrs, addr, add);
      && (addr.V4? ==> s2 == s)
      && (addr.V6? ==>
            && s2.table.Keys == s.table.Keys && (forall m :: m in s.table && m != n ==> s2.table[m] == s.table[m])
            && s2.table[n].addr6 == addrs && s2.table[n].conf == s.table[n].conf
            && s2.mirrored == s.mirrored
            && s2.kernel == if OwnHost(s.table[n], addr) then MirrorAddrs(s.kernel, s.table, s.table[n], {addr}, add)
                            else s.kernel)
  {
    if addr.V6? {
      var i := Refresh(s.table[n], addrs);
      var T := s.table[n := i];
      SameMastersAs(s.table, T, s.table[n].ifindex);
      MirrorReads(s.kernel, s.table, T, s.table[n], i, {addr}, add);
    }
  }

  lemma SameMastersAs(T: Table, U: Table, ifindex: int)
    requires U.Keys == T.Keys && forall m :: m in T ==> U[m].conf == T[m].conf
    ensures Masters(U, ifindex) == Masters(T, ifindex)
    ensures Indexes(U, Masters(T, ifindex)) == Indexes(T, Masters(T, ifindex))
    ensures Ifnames(U, Masters(T, ifindex)) == Ifnames(T, Masters(T, ifindex))
  {
    var cs := Masters(T, ifindex);
    assert Masters(U, ifindex) == cs;
    forall c | c in cs ensures U[c].ifindex == T[c].ifindex && U[c].ifname == T[c].ifname { }
  }

  /** Mirroring depends on configuration only. */
  lemma MirrorReads(k: Kernel, T: Table, U: Table, i: Iface, j: Iface, addrs: set<Addr>, add: bool)
    requires j.conf == i.conf && Masters(U, i.ifindex) == Masters(T, i.ifindex)
    requires Indexes(U, Masters(T, i.ifindex)) == Indexes(T, Masters(T, i.ifindex))
    requires Ifnames(U, Masters(T, i.ifindex)) == Ifnames(T, Masters(T, i.ifindex))
    ensures MirrorAddrs(k, U, j, addrs, add) == MirrorAddrs(k, T, i, addrs, add)
  {
    hide Masters, Indexes, Ifnames;
  }

  /** When an interface leaves its netdev, its own addresses lose their entries and routes, refusals apart. */
  lemma OwnAddressesCleared(s: State, n: string, c: IPAddr, p: Proxy, r: Route)
    requires n in s.table && s.kernel.refuse == NO_REFUSAL && c in s.table[n].addr6 && OwnHost(s.table[n], c.addr)
    ensures p.addr == c.addr && AnsweredOn(s.table, s.table[n].ifindex, p.ifindex) ==> p !in Detach(s, n).kernel.proxies
    ensures r == Route(c.addr, s.table[n].ifindex, 1024) && s.table[n].learnRoutes && !LinkLocalBytes(c.addr) ==>
      r !in Detach(s, n).kernel.routes
  {
    DisableEffect(s, n);
    var i, s1 := s.table[n], DisableServices(s, n);
    OwnEligibleIff(i, c.addr);
    SameOwn(i, s1.table[n]);
    AnsweredKeeps(s.table, s1.table, n, p.ifindex);
    assert c.addr in OwnAddrs(i);
    hide DisableServices, MirrorAddrs, OwnAddrs, AnsweredOn, OwnHost;
    var k1 := MirrorAddrs(s1.kernel, s1.table, s1.table[n], OwnAddrs(i), false);
    MirrorExactly(s1.kernel, s1.table, s1.table[n], OwnAddrs(i), false, p, r, "");
    MirrorExactly(k1, s1.table, s1.table[n], AddrsOn(s.mirrored, i.ifindex), false, p, r, "");
  }

  lemma AnsweredKeeps(T: Table, U: Table, n: string, x: int)
    requires n in T && U.Keys == T.Keys && U[n].conf == T[n].conf && forall m :: m in T && m != n ==> U[m] == T[m]
    ensures AnsweredOn(U, T[n].ifindex, x) <==> AnsweredOn(T, T[n].ifindex, x)
  {
    assert forall m :: m in T ==> U[m].conf == T[m].conf;
  }

  lemma OwnEligibleIff(i: Iface, a: Addr)
    ensures OwnEligible(i, a) <==> OwnHost(i, a)
  {
    hide Addr.IsLoopback, Addr.IsMulticast;
  }

  // ---------- neighbour events ----------

  /**
   * What a neighbour event does to the kernel: a host that appears, and is not tracked, is mirrored; one that failed
   * is unmirrored if it is tracked, and in any case its neighbour entry is deleted. The neighbour table stays
   * otherwise, and so does everything for any other state, address or interface.
   */
  lemma NeighEvent(s: State, i: Iface, addr: Addr, nud: Nud, q: Key)
    ensures
      var s2 := HandleNeigh(s, i, addr, nud);
      var due := i.ndp == Relay && addr.V6? && !addr.IsLoopback() && !addr.IsMulticast() && !LinkLocalBytes(addr);
      var key := Key(addr, i.ifindex);
      var comes := due && nud in {Reachable, Stale, Delay, Probe, Permanent, NoArp} && key !in s.mirrored;
      var fails := due && nud == Failed;
      && s2.table == s.table
      && s2.mirrored == (if comes then s.mirrored + {key} else if fails then s.mirrored - {key} else s.mirrored)
      && (q in s2.kernel.neighs <==> q in s.kernel.neighs && !(fails && q == key && q !in s.kernel.refuse.del.neighs))
      && (q in s2.kernel.neighs ==> s2.kernel.neighs[q] == s.kernel.neighs[q])
      && s2.kernel == (if comes then MirrorAddrs(s.kernel, s.table, i, {addr}, true)
                       else if fails && key in s.mirrored then MirrorAddrs(s.kernel, s.table, i, {addr}, false)
                       else s.kernel).(neighs := s2.kernel.neighs)
  {
    MirrorKeepsNeighs(s.kernel, s.table, i, {addr}, true);
    MirrorKeepsNeighs(s.kernel, s.table, i, {addr}, false);
    assert KeysOf({addr}, i.ifindex) == {Key(addr, i.ifindex)};
    hide MirrorAddrs, Addr.IsLoopback, Addr.IsMulticast;
  }

  // ---------- healing ----------

  /**
   * What it means that everything is restored: each own address and each tracked host has its entry on every master
   * that answers for it, with that master's flag on, and its route if its interface learns routes; and the flag is
   * on wherever NDP sockets are up.
   */
  lemma HealedMeans(s: State)
    ensures Healed(s) <==>
              && (forall n, a :: n in s.table && WantedOn(s, n, a) ==>
                    && (forall x :: AnsweredOn(s.table, s.table[n].ifindex, x) ==> Proxy(a, x) in s.kernel.proxies)
                    && (forall f :: AnsweredFrom(s.table, s.table[n].ifindex, f) ==> f in s.kernel.proxyNdp)
                    && (s.table[n].learnRoutes && !LinkLocalBytes(a) ==>
                          Route(a, s.table[n].ifindex, 1024) in s.kernel.routes))
              && (forall n :: n in s.table && s.table[n].ndp == Relay && s.table[n].nd.Some? ==>
                    s.table[n].ifname in s.kernel.proxyNdp)
  {
    hide WantedOn, AnsweredOn, AnsweredFrom, OwnEligible, OwnAddrs, LinkLocalBytes;
    forall n, a | n in s.table
      ensures IsTarget(s, Target(a, n)) <==> WantedOn(s, n, a)
      ensures Restored(s, Target(a, n)) <==>
                && (forall x :: AnsweredOn(s.table, s.table[n].ifindex, x) ==> Proxy(a, x) in s.kernel.proxies)
                && (forall f :: AnsweredFrom(s.table, s.table[n].ifindex, f) ==> f in s.kernel.proxyNdp)
                && (s.table[n].learnRoutes && !LinkLocalBytes(a) ==>
                      Route(a, s.table[n].ifindex, 1024) in s.kernel.routes)
    {
      WantedIff(s, n, a);
      RestoredIff(s, n, a);
    }
    hide Restored, IsTarget;
    assert forall t: Target :: t == Target(t.addr, t.name);
    FlagsIff(s);
  }

  /** An own address the daemon mirrors, or a host it tracks, behind this interface. */
  ghost predicate WantedOn(s: State, n: string, a: Addr)
    requires n in s.table
  {
    var i := s.table[n];
    (OwnHost(i, a) && exists c :: c in i.addr6 && c.addr == a) || Key(a, i.ifindex) in s.mirrored
  }

  lemma WantedIff(s: State, n: string, a: Addr)
    requires n in s.table
    ensures IsTarget(s, Target(a, n)) <==> WantedOn(s, n, a)
  {
    OwnEligibleIff(s.table[n], a);
    hide OwnEligible, OwnHost;
  }

  lemma RestoredIff(s: State, n: string, a: Addr)
    requires n in s.table
    ensures Restored(s, Target(a, n)) <==>
              && (forall x :: AnsweredOn(s.table, s.table[n].ifindex, x) ==> Proxy(a, x) in s.kernel.proxies)
              && (forall f :: AnsweredFrom(s.table, s.table[n].ifindex, f) ==> f in s.kernel.proxyNdp)
              && (s.table[n].learnRoutes && !LinkLocalBytes(a) ==> Route(a, s.table[n].ifindex, 1024) in s.kernel.routes)
  {
    var T, x0 := s.table, s.table[n].ifindex;
    var cs := Masters(T, x0);
    if Restored(s, Target(a, n)) {
      forall x | AnsweredOn(T, x0, x) ensures Proxy(a, x) in s.kernel.proxies {
        var c :| c in T && T[c].master && T[c].ndp == Relay && T[c].ifindex == x;
        assert c in cs;
      }
      forall f | AnsweredFrom(T, x0, f) ensures f in s.kernel.proxyNdp {
        var c :| c in T && T[c].master && T[c].ndp == Relay && T[c].ifindex != x0 && T[c].ifname == f;
        assert c in cs;
      }
    } else if (forall x :: AnsweredOn(T, x0, x) ==> Proxy(a, x) in s.kernel.proxies)
           && (forall f :: AnsweredFrom(T, x0, f) ==> f in s.kernel.proxyNdp) {
      forall c | c in cs ensures Proxy(a, T[c].ifindex) in s.kernel.proxies && T[c].ifname in s.kernel.proxyNdp {
        assert AnsweredOn(T, x0, T[c].ifindex) && AnsweredFrom(T, x0, T[c].ifname);
      }
    }
  }

  lemma FlagsIff(s: State)
    ensures NdpIfnames(s.table) <= s.kernel.proxyNdp <==>
              forall n :: n in s.table && s.table[n].ndp == Relay && s.table[n].nd.Some? ==>
                s.table[n].ifname in s.kernel.proxyNdp
  {
    forall n | n in s.table && s.table[n].ndp == Relay && s.table[n].nd.Some?
      ensures s.table[n].ifname in NdpIfnames(s.table)
    {
    }
  }

  // ---------- solicitations ----------

  /** A router service that is taken down leaves no socket, and takes away the timer it has, if it has one. */
  lemma RouterTeardown(i: Iface, os: Os, fault: RouterFault)
    ensures
      var r := RouterSetup(i, os, false, fault);
      && r.i.router == None && r.i.rsTimer == None
      && r.os.timers == os.timers - (if i.rsTimer.Some? then multiset{Token(i.id, i.rsTimer.value)} else multiset{})
  {
  }

  /**
   * One firing of a solicitation timer: only the newest generation of a relaying master with a socket does anything.
   * It sends, and counts the attempt, if it has a link-local address and the send succeeds; and it arms its timer
   * again unless that was the third.
   */
  lemma Firing(i: Iface, os: Os, gen: nat, sendOk: bool)
    ensures
      var r := SolicitFire(i, os, gen, sendOk);
      var tok := multiset{Token(i.id, gen)};
      var live := i.rsTimerN == gen && i.router.Some? && i.master && i.ra == Relay;
      var sends := live && LinkLocalOf(i.cache).Some? && sendOk;
      var again := live && (!sends || i.raSent + 1 < 3);
      && (!live ==> r.i == i && r.os == os)
      && r.i.raSent == i.raSent + (if sends then 1 else 0) && r.os.sent == os.sent + (if sends then tok else multiset{})
      && r.os.timers == os.timers + (if again then tok else multiset{}) && (again ==> r.i.rsTimer == Some(gen))
      && r.i.conf == i.conf && r.i.addr6 == i.addr6 && r.i.router == i.router
  {
    hide LinkLocalOf;
  }
}

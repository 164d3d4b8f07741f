/** The final pass of a reload: which hosts it begins to track, and which proxy_ndp flags it leaves on. */
module FinalPass {
  import opened Common
  import opened Addresses
  import opened KernelModel
  import opened Model
  import opened Services
  import opened Mirror
  import opened Daemon
  import opened StaleIndex
  import opened Loops
  import opened Outcomes

  // ---------- what the pass sets out from ----------

  /** What matters of an interface: its netdev, whether it is kept, its role and whether it relays NDP. */
  datatype Role = Role(netdev: Netdev, kept: bool, master: bool, relays: bool)
  {
    /** The pass takes the NDP service of the interface down. */
    predicate Down() { !kept || !netdev.running || !relays }
  }

  /** What the outcome of the pass depends on. */
  datatype Outset = Outset(
    roles: map<string, Role>, tracked: set<Key>, flags: set<string>, neighs: map<Key, Nud>, refuse: Refusal)

  function RoleOf(i: Iface): Role {
    Role(NetdevOf(i.conf), i.inuse, i.master, i.ndp.Relay?)
  }

  function RolesIn(T: Table): map<string, Role> {
    map n | n in T :: RoleOf(T[n])
  }

  function OutsetOf(s: State): Outset {
    Outset(RolesIn(s.table), s.mirrored, s.kernel.proxyNdp, s.kernel.neighs, s.kernel.refuse)
  }

  /** The neighbour table resolves the host. */
  predicate Resolves(neighs: map<Key, Nud>, q: Key) {
    q in neighs && neighs[q] in {Reachable, Stale, Delay, Probe, Permanent, NoArp} && Mirrorable(q.addr)
  }

  /** Visiting this interface switches the flag of the netdev off. */
  predicate Clears(p: Outset, r: Restart, ifname: string) {
    && r.name in p.roles && p.roles[r.name].Down() && p.roles[r.name].netdev.ifname == ifname
    && ifname !in p.refuse.del.flags
  }

  /** At visit `m` switching on the flag reports success. */
  predicate Enables(p: Outset, order: seq<Restart>, m: nat, ifname: string)
    requires m <= |order|
  {
    ifname in p.refuse.add.flags ==> ifname in p.flags && forall l :: 0 <= l < m ==> !Clears(p, order[l], ifname)
  }

  /** Visit `m` brings NDP sockets up. */
  predicate ComesUp(p: Outset, order: seq<Restart>, m: nat) {
    && m < |order| && order[m].name in p.roles && !p.roles[order[m].name].Down()
    && order[m].faults.ndp.NNone? && Enables(p, order, m, p.roles[order[m].name].netdev.ifname)
  }

  /** Visit `m` brings NDP sockets up on the index and reads the neighbour table. */
  predicate SeedsOn(p: Outset, order: seq<Restart>, m: nat, ifindex: int) {
    ComesUp(p, order, m) && order[m].faults.neighsListed && p.roles[order[m].name].netdev.ifindex == ifindex
  }

  /** Visit `m` finds a host on this index that is not tracked yet. */
  ghost predicate FindsHost(p: Outset, order: seq<Restart>, m: nat, ifindex: int) {
    && SeedsOn(p, order, m, ifindex) && (forall l :: 0 <= l < m ==> !SeedsOn(p, order, l, ifindex))
    && exists a: Addr :: Resolves(p.neighs, Key(a, ifindex)) && Key(a, ifindex) !in p.tracked
  }

  /** At visit `m` some master on this netdev answers for hosts on the index. */
  ghost predicate Carries(p: Outset, order: seq<Restart>, m: nat, ifindex: int, ifname: string)
    requires m <= |order|
  {
    exists c :: c in p.roles && p.roles[c].master && p.roles[c].relays && p.roles[c].netdev.ifname == ifname
                && p.roles[c].netdev.ifindex != ifindex
                && (p.roles[c].kept || forall l :: 0 <= l < m ==> order[l].name != c)
  }

  /** The setup of an interface gets as far as switching its flag on. */
  predicate ReachesFlag(f: Faults) {
    f.ndp in {NDropFilter, NNsFilter, NCaptureBind, NMembership, NNone}
  }

  /** Visit `m` switches the flag of the netdev on: its own, or a master's for a host it finds. */
  ghost predicate Raises(p: Outset, order: seq<Restart>, m: nat, ifname: string) {
    && m < |order| && order[m].name in p.roles && ifname !in p.refuse.add.flags
    && var i := p.roles[order[m].name];
    && !i.Down() && ReachesFlag(order[m].faults)
    && (ifname == i.netdev.ifname
        || (FindsHost(p, order, m, i.netdev.ifindex) && Carries(p, order, m, i.netdev.ifindex, ifname)))
  }

  // ---------- one visit: tracked hosts ----------

  /** After a restart whose sockets come up, the resolved hosts of the interface are tracked besides those before. */
  lemma RestartSeeds(s: State, n: string, f: Faults, q: Key)
    requires n in s.table
    ensures
      var s2 := ReloadServices(s, n, f);
      n in s2.table
      && (q in s2.mirrored <==>
            q in s.mirrored
            || (s2.table[n].nd.Some? && f.neighsListed && q.ifindex == s.table[n].ifindex && Resolves(s.kernel.neighs, q)))
  {
    hide RouterSetup, DhcpSetup, MirrorAddrs, Mirrorable;
    assert q == Key(q.addr, q.ifindex);
    if s.table[n].running {
      var s1 := SetupRouter(s, n, !s.table[n].ra.Disabled?, f.router);
      var s2 := SetupDhcp(s1, n, !s1.table[n].dhcpv6.Disabled?, f.dhcp);
      NdpSeeds(s2, n, !s2.table[n].ndp.Disabled?, f.ndp, f.neighsListed, q);
    } else {
      DisableFollows(s, n);
    }
  }

  lemma NdpSeeds(s: State, n: string, enable: bool, fault: NdpFault, listed: bool, q: Key)
    requires n in s.table
    ensures
      var s2 := SetupNdp(s, n, enable, fault, listed);
      n in s2.table
      && (q in s2.mirrored <==>
            q in s.mirrored
            || (s2.table[n].nd.Some? && listed && q.ifindex == s.table[n].ifindex && Resolves(s.kernel.neighs, q)))
  {
    hide MirrorAddrs, Mirrorable;
    NdpSetupKernel(s.table[n], s.os, s.kernel, enable, fault);
    hide NdpSetup;
    assert q == Key(q.addr, q.ifindex);
  }

  lemma SetupNdpKeeps(s: State, n: string, enable: bool, fault: NdpFault, listed: bool)
    requires n in s.table
    ensures
      var k := SetupNdp(s, n, enable, fault, listed).kernel;
      k.neighs == s.kernel.neighs && k.refuse == s.kernel.refuse
  {
    hide NdpSetup, MirrorAddrs, Seedable;
    NdpSetupKernel(s.table[n], s.os, s.kernel, enable, fault);
    var r := NdpSetup(s.table[n], s.os, s.kernel, enable, fault);
    var s1 := s.(table := s.table[n := r.i], os := r.os, kernel := r.kernel);
    MirrorKeepsNeighs(s1.kernel, s1.table, r.i, Seedable(s1, r.i.ifindex), true);
  }

  lemma VisitKeepsNeighs(s: State, r: Restart)
    requires r.name in s.table
    ensures RestartOne(s, r).kernel.neighs == s.kernel.neighs && RestartOne(s, r).kernel.refuse == s.kernel.refuse
  {
    hide RouterSetup, DhcpSetup, SetupNdp, StopTimer;
    var n, up := r.name, s.table[r.name].inuse && s.table[r.name].running;
    if up {
      var s1 := SetupRouter(s, n, !s.table[n].ra.Disabled?, r.faults.router);
      var s2 := SetupDhcp(s1, n, !s1.table[n].dhcpv6.Disabled?, r.faults.dhcp);
      SetupNdpKeeps(s2, n, !s2.table[n].ndp.Disabled?, r.faults.ndp, r.faults.neighsListed);
    } else {
      SetupNdpKeeps(SetupDhcp(SetupRouter(s, n, false, RNone), n, false, DNone), n, false, NNone, true);
    }
  }

  lemma VisitTracks(s: State, order: seq<Restart>, q: Key)
    requires order != [] && order[0].name in s.table
    ensures q in RestartOne(s, order[0]).mirrored <==>
              q in s.mirrored || (SeedsOn(OutsetOf(s), order, 0, q.ifindex) && Resolves(s.kernel.neighs, q))
  {
    hide CloseInterface, ReloadServices, Resolves;
    var r := order[0];
    assert OutsetOf(s).roles[r.name] == RoleOf(s.table[r.name]);
    if s.table[r.name].inuse {
      RestartSeeds(s, r.name, r.faults, q);
      ServicesUpIff(s, r.name, r.faults);
    } else {
      ClosedDirectly(s, r.name);
    }
  }

  // ---------- one visit: flags ----------

  lemma SocketsKeepFlags(s: State, n: string, r: bool, rf: RouterFault, d: bool, df: DhcpFault)
    requires n in s.table
    ensures
      var s2 := SetupDhcp(SetupRouter(s, n, r, rf), n, d, df);
      && n in s2.table && SameConfs(s.table, s2.table) && s2.kernel == s.kernel && s2.mirrored == s.mirrored
  {
    hide RouterSetup, DhcpSetup;
    RouterKeepsConfs(s, n, r, rf);
    DhcpKeepsConfs(SetupRouter(s, n, r, rf), n, d, df);
  }

  /** Sockets do not matter for who is a master and on which netdev. */
  lemma SameConfsMasters(T: Table, U: Table, ifindex: int)
    requires SameConfs(T, U)
    ensures Masters(U, ifindex) == Masters(T, ifindex)
    ensures Ifnames(U, Masters(T, ifindex)) == Ifnames(T, Masters(T, ifindex))
  {
    assert Masters(U, ifindex) == Masters(T, ifindex);
    forall f ensures f in Ifnames(U, Masters(T, ifindex)) <==> f in Ifnames(T, Masters(T, ifindex)) {
      if c :| c in Masters(T, ifindex) && T[c].ifname == f { assert U[c].ifname == f; }
      if c :| c in Masters(T, ifindex) && U[c].ifname == f { assert T[c].ifname == f; }
    }
  }

  lemma SameSeedable(s: State, s2: State, ifindex: int)
    requires s2.kernel.neighs == s.kernel.neighs && s2.mirrored == s.mirrored
    ensures Seedable(s2, ifindex) == Seedable(s, ifindex)
  {
  }

  lemma SeedFlags(s: State, i: Iface, listed: bool, ifname: string)
    ensures ifname in Seed(s, i, listed).kernel.proxyNdp <==>
              || ifname in s.kernel.proxyNdp
              || (listed && Seedable(s, i.ifindex) != {} && ifname !in s.kernel.refuse.add.flags
                  && ifname in Ifnames(s.table, Masters(s.table, i.ifindex)))
  {
    hide Seedable, Ifnames, Masters;
  }

  /** Restarting the NDP service, seeding included, does this to a flag. */
  ghost predicate NdpFlag(s: State, i: Iface, enable: bool, fault: NdpFault, listed: bool, ifname: string) {
    var refuse := s.kernel.refuse;
    if !enable || i.ndp.Disabled? then ifname in s.kernel.proxyNdp && (ifname == i.ifname ==> ifname in refuse.del.flags)
    else
      || ifname in s.kernel.proxyNdp
      || (ifname !in refuse.add.flags && !fault.NPingSocket? && !fault.BeforeCapture()
          && (ifname == i.ifname
              || (fault.NNone? && FlagEnables(s.kernel, i.ifname) && listed && Seedable(s, i.ifindex) != {}
                  && ifname in Ifnames(s.table, Masters(s.table, i.ifindex)))))
  }

  lemma NdpFlags(s: State, n: string, enable: bool, fault: NdpFault, listed: bool, ifname: string)
    requires n in s.table
    ensures ifname in SetupNdp(s, n, enable, fault, listed).kernel.proxyNdp <==>
              NdpFlag(s, s.table[n], enable, fault, listed, ifname)
  {
    hide NdpSetup, Seedable, Ifnames, Masters;
    var i := s.table[n];
    var r := NdpSetup(i, s.os, s.kernel, enable, fault);
    var s1 := s.(table := s.table[n := r.i], os := r.os, kernel := r.kernel);
    NdpSetupKernel(i, s.os, s.kernel, enable, fault);
    if r.i.nd.Some? {
      SameSeedable(s, s1, i.ifindex);
      SameConfsMasters(s.table, s1.table, i.ifindex);
      SeedFlags(s1, r.i, listed, ifname);
    }
  }

  lemma ServicesFlags(s: State, n: string, f: Faults, ifname: string)
    requires n in s.table
    ensures ifname in ReloadServices(s, n, f).kernel.proxyNdp <==>
              NdpFlag(s, s.table[n], s.table[n].running, f.ndp, f.neighsListed, ifname)
  {
    hide RouterSetup, DhcpSetup, SetupNdp, Seedable, Ifnames, Masters;
    var up := s.table[n].running;
    var ra := up && !s.table[n].ra.Disabled?;
    var s1 := SetupRouter(s, n, ra, if up then f.router else RNone);
    var dh := up && !s1.table[n].dhcpv6.Disabled?;
    var s2 := SetupDhcp(s1, n, dh, if up then f.dhcp else DNone);
    SocketsKeepFlags(s, n, ra, if up then f.router else RNone, dh, if up then f.dhcp else DNone);
    SameConfsMasters(s.table, s2.table, s.table[n].ifindex);
    SameSeedable(s, s2, s.table[n].ifindex);
    if up {
      NdpFlags(s2, n, !s2.table[n].ndp.Disabled?, f.ndp, f.neighsListed, ifname);
    } else {
      NdpFlags(s2, n, false, NNone, true, ifname);
    }
  }

  lemma ClosingFlags(s: State, n: string, ifname: string)
    requires n in s.table
    ensures ifname in CloseInterface(s, n).kernel.proxyNdp <==>
              ifname in s.kernel.proxyNdp && (ifname == s.table[n].ifname ==> ifname in s.kernel.refuse.del.flags)
  {
    hide RouterSetup, DhcpSetup, StopTimer;
    ClosedDirectly(s, n);
    RouterKeepsConfs(s, n, false, RNone);
    DhcpKeepsConfs(SetupRouter(s, n, false, RNone), n, false, DNone);
  }

  lemma CarriesIff(s: State, order: seq<Restart>, ifindex: int, ifname: string)
    ensures Carries(OutsetOf(s), order, 0, ifindex, ifname) <==> ifname in Ifnames(s.table, Masters(s.table, ifindex))
  {
    var p := OutsetOf(s);
    if Carries(p, order, 0, ifindex, ifname) {
      var c :| c in p.roles && p.roles[c].master && p.roles[c].relays && p.roles[c].netdev.ifname == ifname
               && p.roles[c].netdev.ifindex != ifindex;
      assert c in Masters(s.table, ifindex) && s.table[c].ifname == ifname;
    }
    if c :| c in Masters(s.table, ifindex) && s.table[c].ifname == ifname {
      assert p.roles[c] == RoleOf(s.table[c]);
    }
  }

  lemma SeedableIff(s: State, ifindex: int)
    ensures Seedable(s, ifindex) != {} <==>
              exists a: Addr :: Resolves(s.kernel.neighs, Key(a, ifindex)) && Key(a, ifindex) !in s.mirrored
  {
    hide Mirrorable;
    if a: Addr :| Resolves(s.kernel.neighs, Key(a, ifindex)) && Key(a, ifindex) !in s.mirrored {
      assert a in Seedable(s, ifindex);
    }
    if a :| a in Seedable(s, ifindex) { assert Resolves(s.kernel.neighs, Key(a, ifindex)); }
  }

  /** One visit, exactly: it raises the flag, or it clears it, or it leaves the flag alone. */
  lemma VisitFlags(s: State, order: seq<Restart>, ifname: string)
    requires order != [] && order[0].name in s.table
    ensures ifname in RestartOne(s, order[0]).kernel.proxyNdp <==>
              Raises(OutsetOf(s), order, 0, ifname) || (ifname in s.kernel.proxyNdp && !Clears(OutsetOf(s), order[0], ifname))
  {
    hide CloseInterface, ReloadServices, Seedable, Ifnames, Masters, Resolves, Carries;
    var n, f, i := order[0].name, order[0].faults, s.table[order[0].name];
    assert OutsetOf(s).roles[n] == RoleOf(i);
    if !i.inuse {
      ClosingFlags(s, n, ifname);
    } else {
      ServicesFlags(s, n, f, ifname);
      SeedableIff(s, i.ifindex);
      CarriesIff(s, order, i.ifindex, ifname);
    }
  }

  // ---------- from one visit to the next ----------

  /** `q` is what the rest of the pass sets out from once the first interface of `order` has been visited. */
  ghost predicate Next(p: Outset, q: Outset, order: seq<Restart>)
    requires order != [] && order[0].name in p.roles
  {
    && q.roles == (if p.roles[order[0].name].kept then p.roles else p.roles - {order[0].name})
    && q.neighs == p.neighs && q.refuse == p.refuse
    && (forall k :: k in q.tracked <==> k in p.tracked || (SeedsOn(p, order, 0, k.ifindex) && Resolves(p.neighs, k)))
    && (forall f :: f in q.flags <==> Raises(p, order, 0, f) || (f in p.flags && !Clears(p, order[0], f)))
  }

  lemma SameConfsSameRoles(T: Table, U: Table)
    requires U.Keys <= T.Keys && forall m :: m in U ==> U[m].conf == T[m].conf
    ensures forall m :: m in U ==> RolesIn(U)[m] == RolesIn(T)[m]
    ensures RolesIn(U) == map m | m in U.Keys :: RolesIn(T)[m]
  {
  }

  lemma VisitRoles(s: State, r: Restart)
    requires r.name in s.table
    ensures r.name in OutsetOf(s).roles
    ensures
      var roles := OutsetOf(s).roles;
      OutsetOf(RestartOne(s, r)).roles == if roles[r.name].kept then roles else roles - {r.name}
  {
    hide RestartOne;
    var T, U := s.table, RestartOne(s, r).table;
    RestartOneOutcome(s, r);
    SameConfsSameRoles(T, U);
    assert RolesIn(T)[r.name].kept == T[r.name].inuse;
    hide RoleOf;
  }

  lemma VisitNext(s: State, order: seq<Restart>)
    requires order != [] && order[0].name in s.table
    ensures Next(OutsetOf(s), OutsetOf(RestartOne(s, order[0])), order)
  {
    hide RestartOne, RoleOf, SeedsOn, Raises, Clears, Resolves;
    var p, q := OutsetOf(s), OutsetOf(RestartOne(s, order[0]));
    VisitRoles(s, order[0]);
    VisitKeepsNeighs(s, order[0]);
    forall k ensures k in q.tracked <==> k in p.tracked || (SeedsOn(p, order, 0, k.ifindex) && Resolves(p.neighs, k)) {
      VisitTracks(s, order, k);
    }
    forall f ensures f in q.flags <==> Raises(p, order, 0, f) || (f in p.flags && !Clears(p, order[0], f)) {
      VisitFlags(s, order, f);
    }
  }

  /** Each interface visited once, and known. */
  ghost predicate Orderly(p: Outset, order: seq<Restart>) {
    && (forall j, k :: 0 <= j < k < |order| ==> order[j].name != order[k].name)
    && (forall k :: 0 <= k < |order| ==> order[k].name in p.roles)
  }

  lemma OrderlyRest(p: Outset, q: Outset, order: seq<Restart>)
    requires order != [] && Orderly(p, order) && Next(p, q, order)
    ensures Orderly(q, order[1..])
    ensures forall l :: 0 <= l < |order[1..]| ==> order[1..][l] == order[l + 1]
  {
    hide Raises, Clears, SeedsOn, Resolves;
  }

  lemma ClearsShift(p: Outset, q: Outset, order: seq<Restart>, l: nat, ifname: string)
    requires order != [] && Orderly(p, order) && Next(p, q, order) && l + 1 < |order|
    ensures Clears(q, order[1..][l], ifname) <==> Clears(p, order[l + 1], ifname)
  {
    assert order[l + 1].name != order[0].name;
    hide Raises, SeedsOn, Resolves;
  }

  lemma EnablesShift(p: Outset, q: Outset, order: seq<Restart>, m: nat, ifname: string)
    requires order != [] && Orderly(p, order) && Next(p, q, order) && m + 1 <= |order|
    ensures Enables(q, order[1..], m, ifname) <==> Enables(p, order, m + 1, ifname)
  {
    assert ifname in p.refuse.add.flags ==> !Raises(p, order, 0, ifname);
    hide Clears, Raises, SeedsOn, Resolves;
    var rest := order[1..];
    forall l | 0 <= l < m ensures Clears(q, rest[l], ifname) <==> Clears(p, order[l + 1], ifname) {
      ClearsShift(p, q, order, l, ifname);
    }
    if Enables(q, rest, m, ifname) && ifname in p.refuse.add.flags {
      forall l | 0 <= l < m + 1 ensures !Clears(p, order[l], ifname) {
        if l > 0 { assert !Clears(q, rest[l - 1], ifname); }
      }
    }
  }

  lemma SeedsShift(p: Outset, q: Outset, order: seq<Restart>, m: nat, ifindex: int)
    requires order != [] && Orderly(p, order) && Next(p, q, order)
    ensures ComesUp(q, order[1..], m) <==> ComesUp(p, order, m + 1)
    ensures SeedsOn(q, order[1..], m, ifindex) <==> SeedsOn(p, order, m + 1, ifindex)
  {
    if m + 1 < |order| {
      assert order[m + 1].name != order[0].name && order[1..][m] == order[m + 1];
      EnablesShift(p, q, order, m, p.roles[order[m + 1].name].netdev.ifname);
      hide Raises, Clears, Resolves, Enables;
    }
  }

  lemma FindsShift(p: Outset, q: Outset, order: seq<Restart>, m: nat, ifindex: int)
    requires order != [] && Orderly(p, order) && Next(p, q, order)
    ensures FindsHost(q, order[1..], m, ifindex) <==> FindsHost(p, order, m + 1, ifindex)
  {
    hide SeedsOn, Raises, Clears, Resolves;
    var rest := order[1..];
    forall l: nat ensures SeedsOn(q, rest, l, ifindex) <==> SeedsOn(p, order, l + 1, ifindex) {
      SeedsShift(p, q, order, l, ifindex);
    }
    if FindsHost(q, rest, m, ifindex) {
      var a: Addr :| Resolves(q.neighs, Key(a, ifindex)) && Key(a, ifindex) !in q.tracked;
      forall l | 0 <= l < m + 1 ensures !SeedsOn(p, order, l, ifindex) {
        if l > 0 { assert !SeedsOn(q, rest, l - 1, ifindex); }
      }
    }
    if FindsHost(p, order, m + 1, ifindex) {
      var a: Addr :| Resolves(p.neighs, Key(a, ifindex)) && Key(a, ifindex) !in p.tracked;
      assert Key(a, ifindex) !in q.tracked;
    }
  }

  lemma CarriesShift(p: Outset, q: Outset, order: seq<Restart>, m: nat, ifindex: int, ifname: string)
    requires order != [] && Orderly(p, order) && Next(p, q, order) && m + 1 <= |order|
    ensures Carries(q, order[1..], m, ifindex, ifname) <==> Carries(p, order, m + 1, ifindex, ifname)
  {
    hide SeedsOn, Raises, Clears, Resolves;
    var rest := order[1..];
    assert forall l :: 0 <= l < |rest| ==> rest[l] == order[l + 1];
    if Carries(q, rest, m, ifindex, ifname) {
      var c :| c in q.roles && q.roles[c].master && q.roles[c].relays && q.roles[c].netdev.ifname == ifname
               && q.roles[c].netdev.ifindex != ifindex
               && (q.roles[c].kept || forall l :: 0 <= l < m ==> rest[l].name != c);
      if !p.roles[c].kept {
        forall l | 0 <= l < m + 1 ensures order[l].name != c { if l > 0 { assert rest[l - 1].name != c; } }
      }
    }
    if Carries(p, order, m + 1, ifindex, ifname) {
      var c :| c in p.roles && p.roles[c].master && p.roles[c].relays && p.roles[c].netdev.ifname == ifname
               && p.roles[c].netdev.ifindex != ifindex
               && (p.roles[c].kept || forall l :: 0 <= l < m + 1 ==> order[l].name != c);
      assert c in q.roles;
    }
  }

  lemma RaisesShift(p: Outset, q: Outset, order: seq<Restart>, m: nat, ifname: string)
    requires order != [] && Orderly(p, order) && Next(p, q, order)
    ensures Raises(q, order[1..], m, ifname) <==> Raises(p, order, m + 1, ifname)
  {
    if m + 1 < |order| {
      assert order[m + 1].name != order[0].name && order[1..][m] == order[m + 1];
      var x := p.roles[order[m + 1].name].netdev.ifindex;
      FindsShift(p, q, order, m, x);
      CarriesShift(p, q, order, m, x, ifname);
      hide Clears, Resolves, SeedsOn, FindsHost, Carries;
    }
  }

  // ---------- the whole pass ----------

  /** What is tracked after the pass: what was, and what the table resolves on the index of a visit that seeds. */
  ghost predicate TrackedAfter(p: Outset, order: seq<Restart>, q: Key) {
    q in p.tracked || (Resolves(p.neighs, q) && exists m: nat :: SeedsOn(p, order, m, q.ifindex))
  }

  lemma TrackedCons(p: Outset, p1: Outset, order: seq<Restart>, q: Key)
    requires order != [] && Orderly(p, order) && Next(p, p1, order)
    ensures TrackedAfter(p1, order[1..], q) <==> TrackedAfter(p, order, q)
  {
    hide SeedsOn, Raises, Clears, Resolves;
    if m: nat :| SeedsOn(p1, order[1..], m, q.ifindex) { SeedsShift(p, p1, order, m, q.ifindex); }
    if m: nat :| SeedsOn(p, order, m, q.ifindex) {
      if m > 0 { SeedsShift(p, p1, order, m - 1, q.ifindex); }
    }
  }

  /** The hosts tracked after the final pass, exactly. */
  lemma {:induction false} PassTracks(s: State, order: seq<Restart>, q: Key)
    requires Orderly(OutsetOf(s), order)
    ensures q in RestartAll(s, order).mirrored <==> TrackedAfter(OutsetOf(s), order, q)
    decreases |order|
  {
    hide RestartOne, SeedsOn, Raises, Clears, Resolves, RoleOf;
    if order != [] {
      var s1 := RestartOne(s, order[0]);
      VisitNext(s, order);
      OrderlyRest(OutsetOf(s), OutsetOf(s1), order);
      TrackedCons(OutsetOf(s), OutsetOf(s1), order, q);
      hide OutsetOf, Next, TrackedAfter, Orderly;
      PassTracks(s1, order[1..], q);
    } else {
      assert !exists m: nat :: SeedsOn(OutsetOf(s), order, m, q.ifindex) by { NoVisitSeeds(OutsetOf(s), order, q.ifindex); }
    }
  }

  lemma NoVisitSeeds(p: Outset, order: seq<Restart>, ifindex: int)
    requires order == []
    ensures forall m: nat :: !SeedsOn(p, order, m, ifindex)
  {
  }

  /** Visit `m` switches the flag on, and no later one off. */
  ghost predicate RaisedLast(p: Outset, order: seq<Restart>, ifname: string, m: nat) {
    Raises(p, order, m, ifname) && forall l :: m < l < |order| ==> !Clears(p, order[l], ifname)
  }

  ghost predicate NeverCleared(p: Outset, order: seq<Restart>, ifname: string) {
    forall l :: 0 <= l < |order| ==> !Clears(p, order[l], ifname)
  }

  /** The flag is on after the pass: some visit raises it and no later one clears it, or it was on and none does. */
  ghost predicate FlagAfter(p: Outset, order: seq<Restart>, ifname: string) {
    (exists m: nat :: RaisedLast(p, order, ifname, m)) || (ifname in p.flags && NeverCleared(p, order, ifname))
  }

  lemma NeverClearedCons(p: Outset, q: Outset, order: seq<Restart>, ifname: string)
    requires order != [] && Orderly(p, order) && Next(p, q, order)
    ensures NeverCleared(p, order, ifname) <==> !Clears(p, order[0], ifname) && NeverCleared(q, order[1..], ifname)
    ensures RaisedLast(p, order, ifname, 0) <==> Raises(p, order, 0, ifname) && NeverCleared(q, order[1..], ifname)
  {
    hide Raises, Clears, SeedsOn, Resolves;
    var rest := order[1..];
    forall l: nat | l + 1 < |order| ensures Clears(q, rest[l], ifname) <==> Clears(p, order[l + 1], ifname) {
      ClearsShift(p, q, order, l, ifname);
    }
    if NeverCleared(q, rest, ifname) {
      forall l | 0 < l < |order| ensures !Clears(p, order[l], ifname) { assert !Clears(q, rest[l - 1], ifname); }
    }
  }

  lemma RaisedLastShift(p: Outset, q: Outset, order: seq<Restart>, ifname: string, m: nat)
    requires order != [] && Orderly(p, order) && Next(p, q, order)
    ensures RaisedLast(q, order[1..], ifname, m) <==> RaisedLast(p, order, ifname, m + 1)
  {
    hide Raises, Clears, SeedsOn, Resolves;
    var rest := order[1..];
    RaisesShift(p, q, order, m, ifname);
    forall l: nat | l + 1 < |order| ensures Clears(q, rest[l], ifname) <==> Clears(p, order[l + 1], ifname) {
      ClearsShift(p, q, order, l, ifname);
    }
    if RaisedLast(q, rest, ifname, m) {
      forall l | m + 1 < l < |order| ensures !Clears(p, order[l], ifname) { assert !Clears(q, rest[l - 1], ifname); }
    }
  }

  lemma FlagCons(p: Outset, q: Outset, order: seq<Restart>, ifname: string)
    requires order != [] && Orderly(p, order) && Next(p, q, order)
    ensures FlagAfter(q, order[1..], ifname) <==> FlagAfter(p, order, ifname)
  {
    assert ifname in q.flags <==> Raises(p, order, 0, ifname) || (ifname in p.flags && !Clears(p, order[0], ifname));
    hide Raises, Clears, RaisedLast, NeverCleared, Next, Orderly;
    NeverClearedCons(p, q, order, ifname);
    if m: nat :| RaisedLast(q, order[1..], ifname, m) { RaisedLastShift(p, q, order, ifname, m); }
    if m: nat :| RaisedLast(p, order, ifname, m) {
      if m > 0 { RaisedLastShift(p, q, order, ifname, m - 1); }
    }
  }

  /** The flags after the final pass, exactly, whatever fails and whatever the kernel refuses. */
  lemma {:induction false} PassFlags(s: State, order: seq<Restart>, ifname: string)
    requires Orderly(OutsetOf(s), order)
    ensures ifname in RestartAll(s, order).kernel.proxyNdp <==> FlagAfter(OutsetOf(s), order, ifname)
    decreases |order|
  {
    hide RestartOne, Raises, Clears, RoleOf;
    if order != [] {
      var s1 := RestartOne(s, order[0]);
      VisitNext(s, order);
      OrderlyRest(OutsetOf(s), OutsetOf(s1), order);
      FlagCons(OutsetOf(s), OutsetOf(s1), order, ifname);
      hide OutsetOf, Next, FlagAfter, Orderly;
      PassFlags(s1, order[1..], ifname);
    } else {
      NoVisitRaises(OutsetOf(s), order, ifname);
    }
  }

  lemma NoVisitRaises(p: Outset, order: seq<Restart>, ifname: string)
    requires order == []
    ensures forall m: nat :: !Raises(p, order, m, ifname)
  {
  }

  // ---------- sockets after the pass ----------

  lemma OthersUntouched(s: State, r: Restart, m: string)
    requires r.name in s.table && m in s.table && m != r.name
    ensures m in RestartOne(s, r).table && RestartOne(s, r).table[m] == s.table[m]
  {
    hide RouterSetup, DhcpSetup, NdpSetup, MirrorAddrs, Seedable, StopTimer;
  }

  /** An interface that is not visited any more keeps its record. */
  lemma {:induction false} LaterVisitsKeep(s: State, order: seq<Restart>, n: string)
    requires Orderly(OutsetOf(s), order) && n in s.table && forall k :: 0 <= k < |order| ==> order[k].name != n
    ensures n in RestartAll(s, order).table && RestartAll(s, order).table[n] == s.table[n]
    decreases |order|
  {
    hide RestartOne, Next, RoleOf;
    if order != [] {
      VisitNext(s, order);
      OrderlyRest(OutsetOf(s), OutsetOf(RestartOne(s, order[0])), order);
      OthersUntouched(s, order[0], n);
      LaterVisitsKeep(RestartOne(s, order[0]), order[1..], n);
    }
  }

  lemma VisitUp(s: State, order: seq<Restart>)
    requires order != [] && order[0].name in s.table
    ensures
      var T := RestartOne(s, order[0]).table;
      order[0].name in T ==> (T[order[0].name].nd.Some? <==> ComesUp(OutsetOf(s), order, 0))
  {
    hide CloseInterface, ReloadServices;
    var n := order[0].name;
    assert OutsetOf(s).roles[n] == RoleOf(s.table[n]);
    if s.table[n].inuse { ServicesUpIff(s, n, order[0].faults); } else { ClosedDirectly(s, n); }
  }

  /** An interface has its NDP sockets up after the pass exactly when its visit brings them up. */
  lemma {:induction false} PassUp(s: State, order: seq<Restart>, j: nat)
    requires Orderly(OutsetOf(s), order) && j < |order| && order[j].name in RestartAll(s, order).table
    ensures RestartAll(s, order).table[order[j].name].nd.Some? <==> ComesUp(OutsetOf(s), order, j)
    decreases |order|
  {
    hide RestartOne, ComesUp, RoleOf;
    var s1, rest, n := RestartOne(s, order[0]), order[1..], order[j].name;
    VisitNext(s, order);
    OrderlyRest(OutsetOf(s), OutsetOf(s1), order);
    if j == 0 {
      VisitUp(s, order);
      if n in s1.table { LaterVisitsKeep(s1, rest, n); } else { PassDropped(s1, rest, n); }
    } else {
      SeedsShift(OutsetOf(s), OutsetOf(s1), order, j - 1, 0);
      hide Next, Orderly;
      PassUp(s1, rest, j - 1);
    }
  }

  /** No interface is created. */
  lemma {:induction false} PassDropped(s: State, order: seq<Restart>, n: string)
    requires n !in s.table
    ensures n !in RestartAll(s, order).table
    decreases |order|
  {
    if order != [] && order[0].name in s.table {
      RestartOneOutcome(s, order[0]);
      hide RestartOne;
      PassDropped(RestartOne(s, order[0]), order[1..], n);
    }
  }

  /** The order of a reload visits each interface once. */
  lemma OrderlyReload(s: State, order: seq<Restart>)
    requires Distinct(RestartNames(order)) && Elements(RestartNames(order)) == s.table.Keys
    ensures Orderly(OutsetOf(s), order)
    ensures forall n :: n in s.table ==> exists j: nat :: j < |order| && order[j].name == n
  {
    hide RoleOf;
    var names := RestartNames(order);
    forall k | 0 <= k < |order| ensures order[k].name in s.table { assert names[k] in Elements(names); }
    forall j, k | 0 <= j < k < |order| ensures order[j].name != order[k].name { assert names[j] != names[k]; }
    forall n | n in s.table ensures exists j: nat :: j < |order| && order[j].name == n {
      assert n in Elements(names);
      var j :| 0 <= j < |names| && names[j] == n;
      assert order[j].name == n;
    }
  }
}

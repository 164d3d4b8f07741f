/** The configuration phase of a reload, besides settings: what interfaces that move to another netdev take along. */
module Configuring {
  import opened Common
  import opened Addresses
  import opened KernelModel
  import opened Model
  import opened Services
  import opened LinkLocal
  import opened Mirror
  import opened Daemon
  import opened StaleIndex
  import opened Outcomes
  import opened FinalPass

  // ---------- leaving a netdev ----------

  /** The two kernels hold the same entries and the same routes for an address. */
  ghost predicate SameFor(k1: Kernel, k2: Kernel, a: Addr) {
    && (forall p: Proxy :: p.addr == a ==> (p in k1.proxies <==> p in k2.proxies))
    && (forall r: Route :: r.addr == a ==> (r in k1.routes <==> r in k2.routes))
  }

  lemma SameForSelf(k: Kernel, a: Addr)
    ensures SameFor(k, k, a)
  {
  }

  lemma SameForTwice(k1: Kernel, k2: Kernel, k3: Kernel, a: Addr)
    requires SameFor(k1, k2, a) && SameFor(k2, k3, a)
    ensures SameFor(k1, k3, a)
  {
  }

  function HostRoute(k: Key): Route {
    Route(k.addr, k.ifindex, OUR_METRIC)
  }

  /** Unmirroring removes entries and routes of these addresses only, and nothing else. */
  lemma UnmirrorEffect(k: Kernel, T: Table, i: Iface, addrs: set<Addr>, a: Addr)
    ensures
      var k2 := MirrorAddrs(k, T, i, addrs, false);
      && k2.neighs == k.neighs && k2.refuse == k.refuse && k2.proxyNdp == k.proxyNdp
      && k2.routes <= k.routes && (a !in addrs ==> SameFor(k, k2, a))
      && (a in Routable(addrs) && i.learnRoutes && Route(a, i.ifindex, OUR_METRIC) !in k.refuse.del.routes ==>
            Route(a, i.ifindex, OUR_METRIC) !in k2.routes)
  {
  }

  /** The services of an interface go down before it moves: tracked hosts and mirror stay, its flag goes. */
  lemma DisableEffect(s: State, n: string)
    requires n in s.table
    ensures
      var s2 := DisableServices(s, n);
      && s2.kernel == ClearFlag(s.kernel, s.table[n].ifname) && s2.mirrored == s.mirrored
      && s2.table.Keys == s.table.Keys && SameConfig(s.table[n], s2.table[n])
      && forall m :: m in s.table && m != n ==> s2.table[m] == s.table[m]
  {
    hide RouterSetup, DhcpSetup, ClearFlag;
  }

  /** What leaving a netdev does to the kernel. */
  lemma DetachEffect(s: State, n: string, a: Addr)
    requires n in s.table
    ensures
      var i, k, k2 := s.table[n], s.kernel, Detach(s, n).kernel;
      && k2.neighs == k.neighs && k2.refuse == k.refuse && k2.proxyNdp == ClearFlag(k, i.ifname).proxyNdp
      && k2.routes <= k.routes
      && (a !in OwnAddrs(i) && Key(a, i.ifindex) !in s.mirrored ==> SameFor(k, k2, a))
      && (Key(a, i.ifindex) in s.mirrored && !a.IsLinkLocalUnicast() && i.learnRoutes ==>
            Route(a, i.ifindex, OUR_METRIC) !in k2.routes - k.refuse.del.routes)
    ensures forall m :: m in s.table && m != n ==> m in Detach(s, n).table && Detach(s, n).table[m] == s.table[m]
  {
    hide DisableServices, ClearMirrored, OwnAddrs, SameFor;
    var i, s1 := s.table[n], DisableServices(s, n);
    DisableEffect(s, n);
    SameOwn(i, s1.table[n]);
    ClearEffect(s1, s1.table[n], a);
    FlagSameFor(s.kernel, i.ifname, a);
    if a !in OwnAddrs(i) && Key(a, i.ifindex) !in s.mirrored {
      SameForTwice(s.kernel, s1.kernel, ClearMirrored(s1, s1.table[n]).kernel, a);
    }
  }

  lemma SameOwn(i: Iface, j: Iface)
    requires SameConfig(i, j)
    ensures OwnAddrs(j) == OwnAddrs(i)
  {
    assert forall a :: OwnEligible(j, a) <==> OwnEligible(i, a);
    hide OwnEligible;
  }

  lemma FlagSameFor(k: Kernel, ifname: string, a: Addr)
    ensures SameFor(k, ClearFlag(k, ifname), a)
  {
  }

  /** What clearing an interface does to the kernel. */
  lemma ClearEffect(s: State, i: Iface, a: Addr)
    ensures
      var k, k2 := s.kernel, ClearMirrored(s, i).kernel;
      && k2.neighs == k.neighs && k2.refuse == k.refuse && k2.proxyNdp == k.proxyNdp && k2.routes <= k.routes
      && (a !in OwnAddrs(i) && Key(a, i.ifindex) !in s.mirrored ==> SameFor(k, k2, a))
      && (Key(a, i.ifindex) in s.mirrored && !a.IsLinkLocalUnicast() && i.learnRoutes ==>
            Route(a, i.ifindex, OUR_METRIC) !in k2.routes - k.refuse.del.routes)
    ensures ClearMirrored(s, i).table == s.table
  {
    hide MirrorAddrs, OwnAddrs, SameFor;
    UnmirrorEffect(s.kernel, s.table, i, OwnAddrs(i), a);
    var k1 := MirrorAddrs(s.kernel, s.table, i, OwnAddrs(i), false);
    UnmirrorEffect(k1, s.table, i, AddrsOn(s.mirrored, i.ifindex), a);
    if a !in OwnAddrs(i) && Key(a, i.ifindex) !in s.mirrored {
      SameForTwice(s.kernel, k1, ClearMirrored(s, i).kernel, a);
    }
  }

  // ---------- one entry ----------

  /** The entry puts the interface on another netdev than the one it is on. */
  predicate Moves(i: Iface, e: Entry) {
    && e.json.ifname.Some? && e.link.Some? && i.ifindex != 0
    && (i.ifname != e.json.ifname.value || i.ifindex != e.link.value.index)
  }

  predicate MovesIn(T: Table, e: Entry) {
    e.name in T && Moves(T[e.name], e)
  }

  /** An entry touches tracked hosts and the kernel only by moving its interface, and no other record. */
  lemma ParseEffect(s: State, e: Entry)
    ensures
      var s2 := Parse(s, e);
      && s2.mirrored == (if MovesIn(s.table, e) then Detach(s, e.name).mirrored else s.mirrored)
      && s2.kernel == (if MovesIn(s.table, e) then Detach(s, e.name).kernel else s.kernel)
      && s2.table.Keys == s.table.Keys + {e.name}
      && forall n :: n in s.table && n != e.name ==> s2.table[n] == s.table[n]
  {
    hide Detach, Refreshed, DisableServices;
    if e.name in s.table {
      DetachEffect(s, e.name, UNSPECIFIED);
      DetachClears(s, e.name);
    }
  }

  // ---------- all entries ----------

  /** Entry `j` moves an interface. */
  predicate MovedBy(T: Table, cfg: seq<Entry>, j: nat) {
    j < |cfg| && MovesIn(T, cfg[j])
  }

  lemma MovedShift(s: State, cfg: seq<Entry>, j: nat)
    requires cfg != [] && Distinct(EntryNames(cfg))
    ensures
      var U := Parse(s, cfg[0]).table;
      && (MovedBy(U, cfg[1..], j) <==> MovedBy(s.table, cfg, j + 1))
      && (MovedBy(U, cfg[1..], j) ==> cfg[1..][j] == cfg[j + 1] && U[cfg[j + 1].name] == s.table[cfg[j + 1].name])
  {
    ParseEffect(s, cfg[0]);
    hide Parse, Moves;
    if j + 1 < |cfg| {
      var names := EntryNames(cfg);
      assert names[0] != names[j + 1];
    }
  }

  /** An interface leaves the netdev with this index. */
  ghost predicate MovedOff(T: Table, cfg: seq<Entry>, x: int) {
    exists j: nat :: MovedBy(T, cfg, j) && T[cfg[j].name].ifindex == x
  }

  /** An interface leaves the netdev with this name, or the netdev has another index. */
  ghost predicate MovedFrom(T: Table, cfg: seq<Entry>, ifname: string) {
    exists j: nat :: MovedBy(T, cfg, j) && T[cfg[j].name].ifname == ifname
  }

  /** No interface that moves has the address as its own or tracks it. */
  ghost predicate Spared(T: Table, tracked: set<Key>, cfg: seq<Entry>, a: Addr) {
    forall j: nat :: MovedBy(T, cfg, j) ==>
      a !in OwnAddrs(T[cfg[j].name]) && Key(a, T[cfg[j].name].ifindex) !in tracked
  }

  lemma MovedOffCons(s: State, cfg: seq<Entry>, x: int)
    requires cfg != [] && Distinct(EntryNames(cfg))
    ensures
      var T, U, e := s.table, Parse(s, cfg[0]).table, cfg[0];
      MovedOff(T, cfg, x) <==> (MovesIn(T, e) && T[e.name].ifindex == x) || MovedOff(U, cfg[1..], x)
  {
    var U := Parse(s, cfg[0]).table;
    hide Parse, Moves, EntryNames, Distinct;
    assert MovesIn(s.table, cfg[0]) ==> MovedBy(s.table, cfg, 0);
    if j: nat :| MovedBy(U, cfg[1..], j) && U[cfg[1..][j].name].ifindex == x {
      MovedShift(s, cfg, j);
      assert MovedBy(s.table, cfg, j + 1);
    }
    if j: nat :| MovedBy(s.table, cfg, j) && s.table[cfg[j].name].ifindex == x {
      if j > 0 { MovedShift(s, cfg, j - 1); assert MovedBy(U, cfg[1..], j - 1); }
    }
  }

  lemma MovedFromCons(s: State, cfg: seq<Entry>, ifname: string)
    requires cfg != [] && Distinct(EntryNames(cfg))
    ensures
      var T, U, e := s.table, Parse(s, cfg[0]).table, cfg[0];
      MovedFrom(T, cfg, ifname) <==> (MovesIn(T, e) && T[e.name].ifname == ifname) || MovedFrom(U, cfg[1..], ifname)
  {
    var U := Parse(s, cfg[0]).table;
    hide Parse, Moves, EntryNames, Distinct;
    assert MovesIn(s.table, cfg[0]) ==> MovedBy(s.table, cfg, 0);
    if j: nat :| MovedBy(U, cfg[1..], j) && U[cfg[1..][j].name].ifname == ifname {
      MovedShift(s, cfg, j);
      assert MovedBy(s.table, cfg, j + 1);
    }
    if j: nat :| MovedBy(s.table, cfg, j) && s.table[cfg[j].name].ifname == ifname {
      if j > 0 { MovedShift(s, cfg, j - 1); assert MovedBy(U, cfg[1..], j - 1); }
    }
  }

  lemma SparedCons(s: State, cfg: seq<Entry>, tracked: set<Key>, a: Addr)
    requires cfg != [] && Distinct(EntryNames(cfg)) && Spared(s.table, tracked, cfg, a)
    ensures Spared(Parse(s, cfg[0]).table, tracked, cfg[1..], a)
  {
    var U := Parse(s, cfg[0]).table;
    hide Parse, MovesIn;
    forall j: nat | MovedBy(U, cfg[1..], j)
      ensures a !in OwnAddrs(U[cfg[1..][j].name]) && Key(a, U[cfg[1..][j].name].ifindex) !in tracked
    {
      MovedShift(s, cfg, j);
      assert MovedBy(s.table, cfg, j + 1);
    }
  }

  /** Exactly the hosts of the interfaces that move are forgotten. */
  lemma {:induction false} ParseAllTracks(s: State, cfg: seq<Entry>, k: Key)
    requires Distinct(EntryNames(cfg))
    ensures k in ParseAll(s, cfg).mirrored <==> k in s.mirrored && !MovedOff(s.table, cfg, k.ifindex)
    decreases |cfg|
  {
    if cfg != [] {
      NamesOf(cfg);
      MovedOffCons(s, cfg, k.ifindex);
      ParseEffect(s, cfg[0]);
      if cfg[0].name in s.table { DetachClears(s, cfg[0].name); }
      hide Parse, Detach, MovedOff, Moves, EntryNames, Distinct;
      ParseAllTracks(Parse(s, cfg[0]), cfg[1..], k);
    }
  }

  /** The neighbour table stays; a flag goes, if the kernel lets it, when an interface leaves its netdev. */
  lemma {:induction false} ParseAllFlags(s: State, cfg: seq<Entry>, ifname: string)
    requires Distinct(EntryNames(cfg))
    ensures
      var k := ParseAll(s, cfg).kernel;
      && k.neighs == s.kernel.neighs && k.refuse == s.kernel.refuse
      && (ifname in k.proxyNdp <==>
            ifname in s.kernel.proxyNdp && (ifname in k.refuse.del.flags || !MovedFrom(s.table, cfg, ifname)))
    decreases |cfg|
  {
    if cfg != [] {
      NamesOf(cfg);
      MovedFromCons(s, cfg, ifname);
      ParseEffect(s, cfg[0]);
      if cfg[0].name in s.table { DetachEffect(s, cfg[0].name, UNSPECIFIED); }
      hide Parse, Detach, MovedFrom, Moves, EntryNames, Distinct;
      ParseAllFlags(Parse(s, cfg[0]), cfg[1..], ifname);
    }
  }

  /** Addresses that no moving interface has or tracks keep their entries and routes. */
  lemma {:induction false} ParseAllSpares(s: State, cfg: seq<Entry>, tracked: set<Key>, a: Addr)
    requires Distinct(EntryNames(cfg)) && s.mirrored <= tracked && Spared(s.table, tracked, cfg, a)
    ensures SameFor(s.kernel, ParseAll(s, cfg).kernel, a)
    decreases |cfg|
  {
    if cfg == [] {
      SameForSelf(s.kernel, a);
    } else {
      NamesOf(cfg);
      var s1 := Parse(s, cfg[0]);
      SparedCons(s, cfg, tracked, a);
      ParseEffect(s, cfg[0]);
      if MovesIn(s.table, cfg[0]) {
        assert MovedBy(s.table, cfg, 0);
        DetachEffect(s, cfg[0].name, a);
        DetachClears(s, cfg[0].name);
      } else {
        SameForSelf(s.kernel, a);
      }
      hide Parse, Detach, SameFor, Spared, Moves, EntryNames, Distinct;
      assert s1.mirrored <= tracked;
      ParseAllSpares(s1, cfg[1..], tracked, a);
      SameForTwice(s.kernel, s1.kernel, ParseAll(s1, cfg[1..]).kernel, a);
    }
  }

  /** Every interface about to be parsed learns routes, as the first loop of a reload leaves it. */
  ghost predicate AllLearn(T: Table, cfg: seq<Entry>) {
    forall j :: 0 <= j < |cfg| && cfg[j].name in T ==> T[cfg[j].name].learnRoutes
  }

  /** The route of a host whose interface moves goes with it. */
  lemma {:induction false} ParseAllForgets(s: State, cfg: seq<Entry>, k: Key)
    requires Distinct(EntryNames(cfg)) && AllLearn(s.table, cfg) && HostRoute(k) !in s.kernel.refuse.del.routes
    requires k in s.mirrored && !k.addr.IsLinkLocalUnicast()
    ensures MovedOff(s.table, cfg, k.ifindex) ==> HostRoute(k) !in ParseAll(s, cfg).kernel.routes
    decreases |cfg|
  {
    if cfg != [] {
      NamesOf(cfg);
      var s1, e := Parse(s, cfg[0]), cfg[0];
      MovedOffCons(s, cfg, k.ifindex);
      ParseEffect(s, e);
      if e.name in s.table {
        assert s.table[cfg[0].name].learnRoutes;
        DetachEffect(s, e.name, k.addr);
        DetachClears(s, e.name);
      }
      LearnCons(s, cfg);
      hide Parse, Detach, MovedOff, Moves, EntryNames, Distinct, AllLearn;
      assert k == Key(k.addr, k.ifindex);
      if k in s1.mirrored {
        ParseAllForgets(s1, cfg[1..], k);
      } else {
        ParseAllShrinks(s1, cfg[1..]);
      }
    }
  }

  lemma LearnCons(s: State, cfg: seq<Entry>)
    requires cfg != [] && Distinct(EntryNames(cfg)) && AllLearn(s.table, cfg)
    ensures AllLearn(Parse(s, cfg[0]).table, cfg[1..])
  {
    ParseEffect(s, cfg[0]);
    hide Parse;
    var names := EntryNames(cfg);
    forall j | 0 <= j < |cfg[1..]| ensures cfg[1..][j] == cfg[j + 1] && cfg[j + 1].name != cfg[0].name {
      assert names[j + 1] != names[0];
    }
  }

  lemma {:induction false} ParseAllShrinks(s: State, cfg: seq<Entry>)
    ensures ParseAll(s, cfg).kernel.routes <= s.kernel.routes
    decreases |cfg|
  {
    if cfg != [] {
      ParseEffect(s, cfg[0]);
      if cfg[0].name in s.table { DetachEffect(s, cfg[0].name, UNSPECIFIED); }
      hide Parse, Detach;
      ParseAllShrinks(Parse(s, cfg[0]), cfg[1..]);
    }
  }

  // ---------- the whole phase ----------

  /** The own addresses of an interface as the first loop of a reload leaves it. */
  function OwnAtReset(i: Iface): set<Addr> {
    OwnAddrs(Defaults(i))
  }

  /** No interface that the configuration moves has the address as its own or tracks it. */
  ghost predicate SparedBy(s: State, cfg: seq<Entry>, a: Addr) {
    forall j: nat :: MovedBy(s.table, cfg, j) ==>
      a !in OwnAtReset(s.table[cfg[j].name]) && Key(a, s.table[cfg[j].name].ifindex) !in s.mirrored
  }

  lemma ResetMoves(s: State, cfg: seq<Entry>, j: nat)
    ensures MovedBy(ResetAll(s).table, cfg, j) <==> MovedBy(s.table, cfg, j)
    ensures MovedBy(s.table, cfg, j) ==>
      var i, r := s.table[cfg[j].name], ResetAll(s).table[cfg[j].name];
      r.ifindex == i.ifindex && r.ifname == i.ifname && r.learnRoutes && OwnAddrs(r) == OwnAtReset(i)
  {
    hide OwnEligible;
    if MovedBy(s.table, cfg, j) {
      var i, r := s.table[cfg[j].name], ResetAll(s).table[cfg[j].name];
      assert forall a :: OwnEligible(r, a) <==> OwnEligible(Defaults(i), a) by { SameEligible(r, Defaults(i)); }
      assert OwnAddrs(r) == OwnAddrs(Defaults(i));
    }
  }

  lemma SameEligible(i: Iface, j: Iface)
    requires i.ndp == j.ndp && i.learnRoutes == j.learnRoutes
    ensures forall a :: OwnEligible(i, a) <==> OwnEligible(j, a)
  {
  }

  lemma ResetMoved(s: State, cfg: seq<Entry>, x: int, ifname: string, a: Addr)
    ensures MovedOff(ResetAll(s).table, cfg, x) <==> MovedOff(s.table, cfg, x)
    ensures MovedFrom(ResetAll(s).table, cfg, ifname) <==> MovedFrom(s.table, cfg, ifname)
    ensures Spared(ResetAll(s).table, s.mirrored, cfg, a) <==> SparedBy(s, cfg, a)
  {
    hide Moves, ResetAll, OwnAtReset, Defaults;
    var T := ResetAll(s).table;
    forall j: nat
      ensures MovedBy(T, cfg, j) <==> MovedBy(s.table, cfg, j)
      ensures MovedBy(s.table, cfg, j) ==>
        var i, r := s.table[cfg[j].name], T[cfg[j].name];
        r.ifindex == i.ifindex && r.ifname == i.ifname && OwnAddrs(r) == OwnAtReset(i)
    {
      ResetMoves(s, cfg, j);
    }
  }

  lemma IdleKeepsMirror(s: State)
    ensures DisableIdleMasters(s).kernel == s.kernel && DisableIdleMasters(s).mirrored == s.mirrored
  {
    hide SlavesOf;
  }

  /** The configuration phase forgets exactly the hosts of the interfaces it moves. */
  lemma ConfigureTracks(s: State, cfg: seq<Entry>, k: Key)
    requires Distinct(EntryNames(cfg))
    ensures k in Configure(s, cfg).mirrored <==> k in s.mirrored && !MovedOff(s.table, cfg, k.ifindex)
  {
    ParseAllTracks(ResetAll(s), cfg, k);
    IdleKeepsMirror(ParseAll(ResetAll(s), cfg));
    ResetMoved(s, cfg, k.ifindex, "", UNSPECIFIED);
    hide ParseAll, MovedOff, EntryNames, Distinct;
  }

  /** It leaves the neighbour table alone, and a flag unless an interface leaves the netdev. */
  lemma ConfigureFlags(s: State, cfg: seq<Entry>, ifname: string)
    requires Distinct(EntryNames(cfg))
    ensures
      var k := Configure(s, cfg).kernel;
      && k.neighs == s.kernel.neighs && k.refuse == s.kernel.refuse
      && (ifname in k.proxyNdp <==>
            ifname in s.kernel.proxyNdp && (ifname in k.refuse.del.flags || !MovedFrom(s.table, cfg, ifname)))
  {
    ParseAllFlags(ResetAll(s), cfg, ifname);
    IdleKeepsMirror(ParseAll(ResetAll(s), cfg));
    ResetMoved(s, cfg, 0, ifname, UNSPECIFIED);
    hide ParseAll, MovedFrom, EntryNames, Distinct;
  }

  /** The entries and routes of an address that no moving interface has or tracks stay as they were. */
  lemma ConfigureSpares(s: State, cfg: seq<Entry>, a: Addr)
    requires Distinct(EntryNames(cfg)) && SparedBy(s, cfg, a)
    ensures SameFor(s.kernel, Configure(s, cfg).kernel, a)
  {
    ResetMoved(s, cfg, 0, "", a);
    IdleKeepsMirror(ParseAll(ResetAll(s), cfg));
    hide Spared, SparedBy, EntryNames, Distinct, SameFor;
    ParseAllSpares(ResetAll(s), cfg, s.mirrored, a);
    hide ParseAll;
  }

  /** The route of a host whose interface moves is gone, unless the kernel refuses to remove it. */
  lemma ConfigureForgets(s: State, cfg: seq<Entry>, k: Key)
    requires Distinct(EntryNames(cfg)) && k in s.mirrored && MovedOff(s.table, cfg, k.ifindex)
    requires !k.addr.IsLinkLocalUnicast() && HostRoute(k) !in s.kernel.refuse.del.routes
    ensures k !in Configure(s, cfg).mirrored && HostRoute(k) !in Configure(s, cfg).kernel.routes
  {
    ConfigureTracks(s, cfg, k);
    assert AllLearn(ResetAll(s).table, cfg);
    ResetMoved(s, cfg, k.ifindex, "", UNSPECIFIED);
    IdleKeepsMirror(ParseAll(ResetAll(s), cfg));
    hide MovedOff, EntryNames, Distinct, AllLearn;
    ParseAllForgets(ResetAll(s), cfg, k);
    hide ParseAll;
  }

  // ---------- what the final pass sets out from ----------

  /** What becomes of a name: read off the old state and the entries. */
  ghost function EndRole(s: State, cfg: seq<Entry>, n: string): Role {
    Role(EndNetdev(s, cfg, n), Claimed(s, cfg, n), EndsMaster(s, cfg, n), !EndsMaster(s, cfg, n) || SlaveLeft(s, cfg))
  }

  ghost function EndOutset(s: State, cfg: seq<Entry>): Outset {
    Outset(map n | n in s.table.Keys + Elements(EntryNames(cfg)) :: EndRole(s, cfg, n),
           (set k | k in s.mirrored && !MovedOff(s.table, cfg, k.ifindex)),
           (set f | f in s.kernel.proxyNdp && (f in s.kernel.refuse.del.flags || !MovedFrom(s.table, cfg, f))),
           s.kernel.neighs, s.kernel.refuse)
  }

  lemma ConfigureRole(s: State, cfg: seq<Entry>, n: string)
    requires Distinct(EntryNames(cfg)) && n in Configure(s, cfg).table
    ensures RoleOf(Configure(s, cfg).table[n]) == EndRole(s, cfg, n)
  {
    hide Configure, EntryNames, EndsMaster, SlaveLeft, Claimed, Accepts, EndNetdev;
    ConfigureOutcome(s, cfg, n);
  }

  /** The final pass sets out from what old state and entries say. */
  lemma ConfigureOutset(s: State, cfg: seq<Entry>)
    requires Distinct(EntryNames(cfg))
    ensures OutsetOf(Configure(s, cfg)) == EndOutset(s, cfg)
  {
    hide Configure, EntryNames, EndRole, RoleOf, MovedOff, MovedFrom;
    var s1, p := Configure(s, cfg), EndOutset(s, cfg);
    ConfigureKeys(s, cfg);
    forall n | n in s1.table ensures RoleOf(s1.table[n]) == EndRole(s, cfg, n) { ConfigureRole(s, cfg, n); }
    assert RolesIn(s1.table) == p.roles;
    forall k ensures k in s1.mirrored <==> k in p.tracked { ConfigureTracks(s, cfg, k); }
    forall f ensures f in s1.kernel.proxyNdp <==> f in p.flags { ConfigureFlags(s, cfg, f); }
    ConfigureFlags(s, cfg, "");
  }

  /** The hosts tracked after a reload, exactly. */
  lemma ReloadTracks(s: State, cfg: seq<Entry>, order: seq<Restart>, q: Key)
    requires Distinct(EntryNames(cfg)) && Enabled(s, EvReload(cfg, order))
    ensures q in Reload(s, cfg, order).mirrored <==> TrackedAfter(EndOutset(s, cfg), order, q)
  {
    hide Configure, RestartAll, TrackedAfter, EntryNames, EndOutset;
    ConfigureOutset(s, cfg);
    OrderlyReload(Configure(s, cfg), order);
    PassTracks(Configure(s, cfg), order, q);
  }
}

/** Mirroring downstream hosts into the kernel (netlink.go). */
module Mirror {
  import opened Common
  import opened Addresses
  import opened KernelModel
  import opened Model

  /** The interfaces that carry proxy entries for hosts behind the interface with this index. */
  function Masters(T: Table, ifindex: int): (r: set<string>)
    ensures forall c :: c in r <==> c in T && T[c].ifindex != ifindex && T[c].master && T[c].ndp.Relay?
  {
    set c | c in T && T[c].ifindex != ifindex && T[c].master && T[c].ndp.Relay?
  }

  function Indexes(T: Table, cs: set<string>): (r: set<int>)
    requires cs <= T.Keys
    ensures forall x :: x in r <==> exists c :: c in cs && T[c].ifindex == x
  {
    set c | c in cs :: T[c].ifindex
  }

  function Ifnames(T: Table, cs: set<string>): (r: set<string>)
    requires cs <= T.Keys
    ensures forall f :: f in r <==> exists c :: c in cs && T[c].ifname == f
  {
    set c | c in cs :: T[c].ifname
  }

  function Routable(addrs: set<Addr>): (r: set<Addr>)
    ensures forall a :: a in r <==> a in addrs && !a.IsLinkLocalUnicast()
  {
    set a | a in addrs && !a.IsLinkLocalUnicast()
  }

  /** ndpMirrorAddr for a set of addresses behind one interface: entries on the masters `cs`. */
  function MirrorProxies(k: Kernel, T: Table, cs: set<string>, addrs: set<Addr>, add: bool): Kernel
    requires cs <= T.Keys
  {
    if addrs == {} then k
    else if add then AddProxies(SetFlags(k, Ifnames(T, cs)), Pairs(addrs, Indexes(T, cs)))
    else DelProxies(k, Pairs(addrs, Indexes(T, cs)))
  }

  function MirrorRoutes(k: Kernel, i: Iface, addrs: set<Addr>, add: bool): Kernel {
    if !i.learnRoutes then k
    else if add then ReplaceRoutes(k, Routable(addrs), i.ifindex, OUR_METRIC)
    else DelRoutes(k, Routable(addrs), i.ifindex, OUR_METRIC)
  }

  function MirrorAddrs(k: Kernel, T: Table, i: Iface, addrs: set<Addr>, add: bool): Kernel {
    MirrorRoutes(MirrorProxies(k, T, Masters(T, i.ifindex), addrs, add), i, addrs, add)
  }

  /** One more address after a set of them: what each loop over addresses relies on. */
  lemma MirrorOneMore(k: Kernel, T: Table, i: Iface, addrs: set<Addr>, a: Addr, add: bool)
    ensures MirrorAddrs(MirrorAddrs(k, T, i, addrs, add), T, i, {a}, add) == MirrorAddrs(k, T, i, addrs + {a}, add)
  {
    var k1 := MirrorAddrs(MirrorAddrs(k, T, i, addrs, add), T, i, {a}, add);
    var k2 := MirrorAddrs(k, T, i, addrs + {a}, add);
    assert k1.proxies == k2.proxies;
    assert k1.routes == k2.routes;
    assert k1.proxyNdp == k2.proxyNdp;
  }

  lemma MirrorNothing(k: Kernel, T: Table, i: Iface, add: bool)
    ensures MirrorAddrs(k, T, i, {}, add) == k
  {
    assert Routable({}) == {};
    assert MirrorAddrs(k, T, i, {}, add).routes == k.routes;
  }

  /** Mirroring leaves the neighbour cache alone. */
  lemma MirrorKeepsNeighs(k: Kernel, T: Table, i: Iface, addrs: set<Addr>, add: bool)
    ensures MirrorAddrs(k, T, i, addrs, add).neighs == k.neighs && MirrorAddrs(k, T, i, addrs, add).refuse == k.refuse
  {
  }

  /** Some master on this index, other than the interface itself, relays NDP. */
  ghost predicate AnsweredOn(T: Table, ifindex: int, x: int) {
    x != ifindex && exists c :: c in T && T[c].master && T[c].ndp == Relay && T[c].ifindex == x
  }

  ghost predicate AnsweredFrom(T: Table, ifindex: int, ifname: string) {
    exists c :: c in T && T[c].master && T[c].ndp == Relay && T[c].ifindex != ifindex && T[c].ifname == ifname
  }

  /**
   * Mirroring, exactly, whatever the kernel refuses: an entry per address and master, with the master's flag; and,
   * on an interface that learns routes, a /128 of metric 1024 per address that is not link-local, in the place of
   * any other of that metric. Unmirroring takes away these entries and routes, and leaves the flags.
   */
  lemma MirrorExactly(k: Kernel, T: Table, i: Iface, addrs: set<Addr>, add: bool, p: Proxy, r: Route, f: string)
    ensures
      var k2 := MirrorAddrs(k, T, i, addrs, add);
      var asked := p.addr in addrs && AnsweredOn(T, i.ifindex, p.ifindex);
      var put := Route(r.addr, i.ifindex, 1024);
      var routed := i.learnRoutes && r.addr in addrs && !LinkLocalBytes(r.addr) && r.metric == 1024;
      && k2.neighs == k.neighs && k2.refuse == k.refuse
      && (add ==> (p in k2.proxies <==> p in k.proxies || (asked && p !in k.refuse.add.proxies)))
      && (!add ==> (p in k2.proxies <==> p in k.proxies && !(asked && p !in k.refuse.del.proxies)))
      && (add ==> (r in k2.routes <==> if routed && put !in k.refuse.add.routes then r == put else r in k.routes))
      && (!add ==> (r in k2.routes <==> r in k.routes && !(routed && r == put && r !in k.refuse.del.routes)))
      && (f in k2.proxyNdp <==>
            f in k.proxyNdp || (add && addrs != {} && AnsweredFrom(T, i.ifindex, f) && f !in k.refuse.add.flags))
  {
    var cs := Masters(T, i.ifindex);
    assert AnsweredOn(T, i.ifindex, p.ifindex) <==> p.ifindex in Indexes(T, cs) by {
      if AnsweredOn(T, i.ifindex, p.ifindex) {
        var c :| c in T && T[c].master && T[c].ndp == Relay && T[c].ifindex == p.ifindex;
        assert c in cs;
      }
    }
    assert AnsweredFrom(T, i.ifindex, f) <==> f in Ifnames(T, cs) by {
      if AnsweredFrom(T, i.ifindex, f) {
        var c :| c in T && T[c].master && T[c].ndp == Relay && T[c].ifindex != i.ifindex && T[c].ifname == f;
        assert c in cs;
      }
    }
    hide Masters, AnsweredOn, AnsweredFrom;
  }

  function Track(s: State, i: Iface, addrs: set<Addr>): State {
    s.(mirrored := s.mirrored + KeysOf(addrs, i.ifindex),
       kernel := MirrorAddrs(s.kernel, s.table, i, addrs, true))
  }

  function Untrack(s: State, i: Iface, addrs: set<Addr>): State {
    s.(mirrored := s.mirrored - KeysOf(addrs, i.ifindex),
       kernel := MirrorAddrs(s.kernel, s.table, i, addrs, false))
  }

  function HandleNeigh(s: State, i: Iface, addr: Addr, nud: Nud): State {
    var key := Key(addr, i.ifindex);
    if !i.ndp.Relay? || addr.V4? || !Mirrorable(addr) then s
    else if nud.Resolved() && key !in s.mirrored then Track(s, i, {addr})
    else if nud.Failed? then
      var s1 := if key in s.mirrored then Untrack(s, i, {addr}) else s;
      s1.(kernel := DelNeighs(s1.kernel, {key}))
    else s
  }

  /** Hosts the neighbour table resolves on this interface that are not tracked yet. */
  function Seedable(s: State, ifindex: int): (r: set<Addr>)
    ensures forall a :: a in r <==>
      Key(a, ifindex) in s.kernel.neighs && s.kernel.neighs[Key(a, ifindex)].Resolved() && Mirrorable(a)
      && Key(a, ifindex) !in s.mirrored
  {
    set key | key in s.kernel.neighs && key.ifindex == ifindex && s.kernel.neighs[key].Resolved()
              && Mirrorable(key.addr) && key !in s.mirrored :: key.addr
  }

  function Seed(s: State, i: Iface, listed: bool): State {
    if !listed then s else Track(s, i, Seedable(s, i.ifindex))
  }

  function FailedOn(k: Kernel, ifindex: int): (r: set<Addr>)
    ensures forall a :: a in r <==>
      Key(a, ifindex) in k.neighs && k.neighs[Key(a, ifindex)].Failed? && Mirrorable(a)
  {
    set key | key in k.neighs && key.ifindex == ifindex && k.neighs[key].Failed? && Mirrorable(key.addr) :: key.addr
  }

  function LiveOn(k: Kernel, ifindex: int): (r: set<Addr>)
    ensures forall a :: a in r <==>
      Key(a, ifindex) in k.neighs && !k.neighs[Key(a, ifindex)].Failed? && Mirrorable(a)
  {
    set key | key in k.neighs && key.ifindex == ifindex && !k.neighs[key].Failed? && Mirrorable(key.addr) :: key.addr
  }

  function StaleOn(k: Kernel, ifindex: int): (r: set<Addr>)
    ensures forall a :: a in r <==>
      Key(a, ifindex) in k.neighs && k.neighs[Key(a, ifindex)].Stale? && Mirrorable(a)
  {
    set key | key in k.neighs && key.ifindex == ifindex && k.neighs[key].Stale? && Mirrorable(key.addr) :: key.addr
  }

  function TrackedOf(s: State, addrs: set<Addr>, ifindex: int): (r: set<Addr>)
    ensures forall a :: a in r <==> a in addrs && Key(a, ifindex) in s.mirrored
  {
    set a | a in addrs && Key(a, ifindex) in s.mirrored
  }

  /** First half of the sweep: reap failed neighbours, probe stale ones. */
  function Reap(s: State, i: Iface): State {
    var failed := FailedOn(s.kernel, i.ifindex);
    var s1 := Untrack(s, i, TrackedOf(s, failed, i.ifindex));
    s1.(kernel := ProbeNeighs(DelNeighs(s1.kernel, KeysOf(failed, i.ifindex)),
                              KeysOf(StaleOn(s.kernel, i.ifindex), i.ifindex)))
  }

  /** Destinations of owned routes on this interface without a live neighbour. */
  function Orphans(k: Kernel, ifindex: int, live: set<Addr>): (r: set<Addr>)
    ensures forall a :: a in r <==> Route(a, ifindex, OUR_METRIC) in k.routes && a !in live
  {
    set q | q in k.routes && q.ifindex == ifindex && q.metric == OUR_METRIC && q.addr !in live :: q.addr
  }

  function Sweep(s: State, i: Iface, neighsListed: bool, routesListed: bool): State {
    if !neighsListed then s
    else
      var s1 := Reap(s, i);
      if !routesListed then s1
      else Untrack(s1, i, Orphans(s1.kernel, i.ifindex, LiveOn(s.kernel, i.ifindex)))
  }

  /** One interface visited by the periodic sweep, and which of its kernel listings succeed. */
  datatype Visit = Visit(name: string, neighsListed: bool, routesListed: bool)

  function VisitOne(s: State, i: Iface, v: Visit): State {
    if i.ndp.Relay? then Sweep(s, i, v.neighsListed, v.routesListed) else s
  }

  function SweepAll(s: State, visits: seq<Visit>): State
    decreases |visits|
  {
    if visits == [] || visits[0].name !in s.table then s
    else
      var i := s.table[visits[0].name];
      SweepAll(VisitOne(s, i, visits[0]), visits[1..])
  }

  /** Own addresses the daemon mirrors for an interface. */
  predicate OwnEligible(i: Iface, a: Addr) {
    i.ndp.Relay? && !a.IsLoopback() && !a.IsMulticast() && (!a.IsLinkLocalUnicast() || i.learnRoutes)
  }

  function OwnAddrs(i: Iface): (r: set<Addr>)
    ensures forall a :: a in r <==> OwnEligible(i, a) && exists c :: c in i.addr6 && c.addr == a
  {
    set c | c in i.addr6 && OwnEligible(i, c.addr) :: c.addr
  }

  function AddrsOn(keys: set<Key>, ifindex: int): (r: set<Addr>)
    ensures forall a :: a in r <==> Key(a, ifindex) in keys
  {
    set k | k in keys && k.ifindex == ifindex :: k.addr
  }

  function ClearMirrored(s: State, i: Iface): State {
    var s1 := s.(kernel := MirrorAddrs(s.kernel, s.table, i, OwnAddrs(i), false));
    Untrack(s1, i, AddrsOn(s1.mirrored, i.ifindex))
  }

  /** An address and the interface it is to be mirrored for. */
  datatype Target = Target(addr: Addr, name: string)

  function AddTargets(k: Kernel, T: Table, todo: seq<Target>): Kernel
    decreases |todo|
  {
    if todo == [] || todo[0].name !in T then k
    else AddTargets(MirrorAddrs(k, T, T[todo[0].name], {todo[0].addr}, true), T, todo[1..])
  }

  predicate Known(T: Table, todo: seq<Target>) {
    forall t :: t in todo ==> t.name in T
  }

  function NdpIfnames(T: Table): set<string> {
    set n | n in T && T[n].ndp.Relay? && T[n].nd.Some? :: T[n].ifname
  }

  /** reconcileKernelState, the targets being re-asserted in the order of `todo`. */
  function ReconcileKernel(s: State, todo: seq<Target>): Kernel {
    AddTargets(SetFlags(s.kernel, NdpIfnames(s.table)), s.table, todo)
  }
}

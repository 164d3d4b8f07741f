/** What the daemon's loops have done part-way, and what one more turn adds. */
module Loops {
  import opened Common
  import opened Addresses
  import opened KernelModel
  import opened Model
  import opened Services
  import opened LinkLocal
  import opened Mirror
  import opened Daemon

  /** One more interface of the loop in ndpMirrorAddr. */
  lemma MirrorOneMaster(k: Kernel, T: Table, cs: set<string>, c: string, a: Addr, add: bool)
    requires cs <= T.Keys && c in T
    ensures
      var k1 := MirrorProxies(k, T, cs, {a}, add);
      MirrorProxies(k, T, cs + {c}, {a}, add)
      == if add then AddProxies(SetFlags(k1, {T[c].ifname}), Pairs({a}, {T[c].ifindex}))
         else DelProxies(k1, Pairs({a}, {T[c].ifindex}))
  {
    var k1 := MirrorProxies(k, T, cs, {a}, add);
    var k2 := MirrorProxies(k, T, cs + {c}, {a}, add);
    var k3 := if add then AddProxies(SetFlags(k1, {T[c].ifname}), Pairs({a}, {T[c].ifindex}))
              else DelProxies(k1, Pairs({a}, {T[c].ifindex}));
    assert k2.proxies == k3.proxies;
    assert k2.proxyNdp == k3.proxyNdp;
  }

  lemma MirrorNoMaster(k: Kernel, T: Table, a: Addr, add: bool)
    ensures MirrorProxies(k, T, {}, {a}, add) == k
  {
    assert MirrorProxies(k, T, {}, {a}, add).proxies == k.proxies;
    assert MirrorProxies(k, T, {}, {a}, add).proxyNdp == k.proxyNdp;
  }

  lemma MirrorOneRoute(k: Kernel, i: Iface, a: Addr, add: bool)
    ensures MirrorRoutes(k, i, {a}, add)
            == if !i.learnRoutes || a.IsLinkLocalUnicast() then k
               else if add then ReplaceRoutes(k, {a}, i.ifindex, OUR_METRIC)
               else DelRoutes(k, {a}, i.ifindex, OUR_METRIC)
  {
    if a.IsLinkLocalUnicast() {
      assert Routable({a}) == {};
      assert MirrorRoutes(k, i, {a}, add).routes == k.routes;
    } else {
      assert Routable({a}) == {a};
    }
  }

  /** The loop of ndpMirrorAddr, when all interfaces but those in `todo` have been looked at. */
  function MirroredSoFar(k: Kernel, T: Table, ifindex: int, todo: set<string>, a: Addr, add: bool): Kernel {
    MirrorProxies(k, T, Masters(T, ifindex) - todo, {a}, add)
  }

  lemma MirrorStep(k: Kernel, T: Table, ifindex: int, todo: set<string>, n: string, a: Addr, add: bool)
    requires n in T && n in todo
    ensures
      var k1 := MirroredSoFar(k, T, ifindex, todo, a, add);
      MirroredSoFar(k, T, ifindex, todo - {n}, a, add)
      == if T[n].ifindex == ifindex || !T[n].master || !T[n].ndp.Relay? then k1
         else if add then AddProxies(SetFlags(k1, {T[n].ifname}), Pairs({a}, {T[n].ifindex}))
         else DelProxies(k1, Pairs({a}, {T[n].ifindex}))
  {
    hide MirrorProxies, AddProxies, DelProxies, SetFlags;
    var done := Masters(T, ifindex) - todo;
    if n in Masters(T, ifindex) {
      assert Masters(T, ifindex) - (todo - {n}) == done + {n};
      MirrorOneMaster(k, T, done, n, a, add);
    } else {
      assert Masters(T, ifindex) - (todo - {n}) == done;
    }
  }

  lemma MirrorEnds(k: Kernel, T: Table, ifindex: int, a: Addr, add: bool)
    ensures MirroredSoFar(k, T, ifindex, T.Keys, a, add) == k
    ensures MirroredSoFar(k, T, ifindex, {}, a, add) == MirrorProxies(k, T, Masters(T, ifindex), {a}, add)
  {
    assert Masters(T, ifindex) - T.Keys == {};
    MirrorNoMaster(k, T, a, add);
    assert Masters(T, ifindex) - {} == Masters(T, ifindex);
  }

  /** One more address after a set of them, for tracking and untracking. */
  lemma TrackOneMore(s: State, i: Iface, addrs: set<Addr>, a: Addr)
    ensures
      var s1 := Track(s, i, addrs);
      Track(s, i, addrs + {a})
      == s1.(mirrored := s1.mirrored + {Key(a, i.ifindex)}, kernel := MirrorAddrs(s1.kernel, s1.table, i, {a}, true))
  {
    hide MirrorAddrs;
    MirrorOneMore(s.kernel, s.table, i, addrs, a, true);
    assert KeysOf(addrs + {a}, i.ifindex) == KeysOf(addrs, i.ifindex) + {Key(a, i.ifindex)};
    assert Track(s, i, addrs + {a}).mirrored == Track(s, i, addrs).mirrored + {Key(a, i.ifindex)};
  }

  lemma UntrackOneMore(s: State, i: Iface, addrs: set<Addr>, a: Addr)
    ensures
      var s1 := Untrack(s, i, addrs);
      Untrack(s, i, addrs + {a})
      == s1.(mirrored := s1.mirrored - {Key(a, i.ifindex)}, kernel := MirrorAddrs(s1.kernel, s1.table, i, {a}, false))
  {
    hide MirrorAddrs;
    MirrorOneMore(s.kernel, s.table, i, addrs, a, false);
    assert KeysOf(addrs + {a}, i.ifindex) == KeysOf(addrs, i.ifindex) + {Key(a, i.ifindex)};
    assert Untrack(s, i, addrs + {a}).mirrored == Untrack(s, i, addrs).mirrored - {Key(a, i.ifindex)};
  }

  lemma TrackNothing(s: State, i: Iface)
    ensures Track(s, i, {}) == s && Untrack(s, i, {}) == s
  {
    hide MirrorAddrs;
    MirrorNothing(s.kernel, s.table, i, true);
    MirrorNothing(s.kernel, s.table, i, false);
    assert s.mirrored + KeysOf({}, i.ifindex) == s.mirrored && s.mirrored - KeysOf({}, i.ifindex) == s.mirrored;
  }

  /** The listing of the neighbours on one interface. */
  function NeighList(k: Kernel, ifindex: int): (r: set<Key>)
    ensures forall q :: q in r <==> q in k.neighs && q.ifindex == ifindex
  {
    set q | q in k.neighs && q.ifindex == ifindex
  }

  /** The addresses of `addrs` whose key has been looked at. */
  function Seen(addrs: set<Addr>, ifindex: int, todo: set<Key>): (r: set<Addr>)
    ensures forall a :: a in r <==> a in addrs && Key(a, ifindex) !in todo
  {
    set a | a in addrs && Key(a, ifindex) !in todo
  }

  lemma SeenStep(addrs: set<Addr>, ifindex: int, todo: set<Key>, q: Key)
    requires q in todo && q.ifindex == ifindex
    ensures Seen(addrs, ifindex, todo - {q})
            == if q.addr in addrs then Seen(addrs, ifindex, todo) + {q.addr} else Seen(addrs, ifindex, todo)
  {
  }

  lemma SeenAll(addrs: set<Addr>, ifindex: int, todo: set<Key>)
    requires forall a :: a in addrs ==> Key(a, ifindex) in todo
    ensures Seen(addrs, ifindex, todo) == {} && Seen(addrs, ifindex, {}) == addrs
  {
  }

  // ---------- seeding ----------

  function SeededSoFar(s: State, i: Iface, todo: set<Key>): State {
    Track(s, i, Seen(Seedable(s, i.ifindex), i.ifindex, todo))
  }

  lemma SeedStep(s: State, i: Iface, todo: set<Key>, q: Key)
    requires q in todo && todo <= NeighList(s.kernel, i.ifindex)
    ensures
      var s1 := SeededSoFar(s, i, todo);
      SeededSoFar(s, i, todo - {q})
      == if !s.kernel.neighs[q].Resolved() || !Mirrorable(q.addr) || q in s1.mirrored then s1
         else s1.(mirrored := s1.mirrored + {q}, kernel := MirrorAddrs(s1.kernel, s1.table, i, {q.addr}, true))
  {
    hide MirrorAddrs, Mirrorable;
    var addrs := Seedable(s, i.ifindex);
    SeenStep(addrs, i.ifindex, todo, q);
    TrackOneMore(s, i, Seen(addrs, i.ifindex, todo), q.addr);
    assert q == Key(q.addr, i.ifindex);
  }

  lemma SeedEnds(s: State, i: Iface)
    ensures SeededSoFar(s, i, NeighList(s.kernel, i.ifindex)) == s
    ensures SeededSoFar(s, i, {}) == Seed(s, i, true)
  {
    SeenAll(Seedable(s, i.ifindex), i.ifindex, NeighList(s.kernel, i.ifindex));
    TrackNothing(s, i);
  }

  // ---------- the sweep ----------

  /** Reaping and probing, for the neighbours that have been looked at. */
  function ReapedSoFar(s: State, i: Iface, todo: set<Key>): State {
    var failed := Seen(FailedOn(s.kernel, i.ifindex), i.ifindex, todo);
    var s1 := Untrack(s, i, TrackedOf(s, failed, i.ifindex));
    s1.(kernel := ProbeNeighs(DelNeighs(s1.kernel, KeysOf(failed, i.ifindex)),
                              KeysOf(Seen(StaleOn(s.kernel, i.ifindex), i.ifindex, todo), i.ifindex)))
  }

  /** Mirroring does not depend on the neighbour cache. */
  lemma MirrorCommutesNeighs(k: Kernel, T: Table, i: Iface, addrs: set<Addr>, add: bool, m: map<Key, Nud>)
    ensures MirrorAddrs(k.(neighs := m), T, i, addrs, add) == MirrorAddrs(k, T, i, addrs, add).(neighs := m)
  {
  }

  /** What the sweep does about one listed neighbour. */
  function ReapOne(s: State, i: Iface, q: Key, nud: Nud): State {
    if !Mirrorable(q.addr) then s
    else if nud.Failed? then
      var s1 := if q in s.mirrored
                then s.(mirrored := s.mirrored - {q}, kernel := MirrorAddrs(s.kernel, s.table, i, {q.addr}, false))
                else s;
      s1.(kernel := DelNeighs(s1.kernel, {q}))
    else if nud.Stale? then s.(kernel := ProbeNeighs(s.kernel, {q}))
    else s
  }

  /** The neighbour cache after the reaping part-way. */
  function NeighsSoFar(k: Kernel, failed: set<Key>, stale: set<Key>): map<Key, Nud> {
    ProbeNeighs(DelNeighs(k, failed), stale).neighs
  }

  lemma NeighsStep(k: Kernel, failed: set<Key>, stale: set<Key>, q: Key)
    ensures q !in stale ==>
      NeighsSoFar(k, failed + {q}, stale) == DelNeighs(ProbeNeighs(DelNeighs(k, failed), stale), {q}).neighs
    ensures NeighsSoFar(k, failed, stale + {q}) == ProbeNeighs(ProbeNeighs(DelNeighs(k, failed), stale), {q}).neighs
  {
  }

  lemma ReapStep(s: State, i: Iface, todo: set<Key>, q: Key)
    requires q in todo && todo <= NeighList(s.kernel, i.ifindex)
    ensures ReapedSoFar(s, i, todo - {q}) == ReapOne(ReapedSoFar(s, i, todo), i, q, s.kernel.neighs[q])
  {
    hide MirrorAddrs, Mirrorable;
    var x := i.ifindex;
    var failed := Seen(FailedOn(s.kernel, x), x, todo);
    var stale := Seen(StaleOn(s.kernel, x), x, todo);
    var tracked := TrackedOf(s, failed, x);
    SeenStep(FailedOn(s.kernel, x), x, todo, q);
    SeenStep(StaleOn(s.kernel, x), x, todo, q);
    assert q == Key(q.addr, x);
    var s1 := Untrack(s, i, tracked);
    MirrorKeepsNeighs(s.kernel, s.table, i, tracked, false);
    NeighsStep(s1.kernel, KeysOf(failed, x), KeysOf(stale, x), q);
    if Mirrorable(q.addr) && s.kernel.neighs[q].Failed? {
      assert KeysOf(failed + {q.addr}, x) == KeysOf(failed, x) + {q};
      var failed2 := failed + {q.addr};
      var tracked2 := TrackedOf(s, failed2, x);
      var m := NeighsSoFar(s1.kernel, KeysOf(failed, x), KeysOf(stale, x));
      if q in s.mirrored {
        assert tracked2 == tracked + {q.addr};
        UntrackOneMore(s, i, tracked, q.addr);
        MirrorCommutesNeighs(s1.kernel, s.table, i, {q.addr}, false, m);
        MirrorKeepsNeighs(s1.kernel, s.table, i, {q.addr}, false);
      } else {
        assert tracked2 == tracked;
      }
    } else if Mirrorable(q.addr) && s.kernel.neighs[q].Stale? {
      assert KeysOf(stale + {q.addr}, x) == KeysOf(stale, x) + {q};
    }
  }

  lemma ReapEnds(s: State, i: Iface)
    ensures ReapedSoFar(s, i, NeighList(s.kernel, i.ifindex)) == s
    ensures ReapedSoFar(s, i, {}) == Reap(s, i)
  {
    hide Untrack, Mirrorable, DelNeighs, ProbeNeighs;
    var listed := NeighList(s.kernel, i.ifindex);
    SeenAll(FailedOn(s.kernel, i.ifindex), i.ifindex, listed);
    SeenAll(StaleOn(s.kernel, i.ifindex), i.ifindex, listed);
    assert TrackedOf(s, {}, i.ifindex) == {};
    assert KeysOf({}, i.ifindex) == {};
    TrackNothing(s, i);
    NothingReaped(s.kernel);
  }

  lemma NothingReaped(k: Kernel)
    ensures ProbeNeighs(DelNeighs(k, {}), {}) == k
  {
    assert ProbeNeighs(DelNeighs(k, {}), {}).neighs == k.neighs;
  }

  /** Destinations of `addrs` whose owned route has been looked at. */
  function OrphansSeen(addrs: set<Addr>, ifindex: int, todo: set<Route>): (r: set<Addr>)
    ensures forall a :: a in r <==> a in addrs && Route(a, ifindex, OUR_METRIC) !in todo
  {
    set a | a in addrs && Route(a, ifindex, OUR_METRIC) !in todo
  }

  function OrphansSoFar(s: State, i: Iface, live: set<Addr>, todo: set<Route>): State {
    Untrack(s, i, OrphansSeen(Orphans(s.kernel, i.ifindex, live), i.ifindex, todo))
  }

  lemma OrphanStep(s: State, i: Iface, live: set<Addr>, todo: set<Route>, r: Route)
    requires r in todo && todo <= s.kernel.routes
    ensures
      var s1 := OrphansSoFar(s, i, live, todo);
      OrphansSoFar(s, i, live, todo - {r})
      == if r.ifindex != i.ifindex || r.metric != OUR_METRIC || r.addr in live then s1
         else s1.(mirrored := s1.mirrored - {Key(r.addr, i.ifindex)},
                  kernel := MirrorAddrs(s1.kernel, s1.table, i, {r.addr}, false))
  {
    hide MirrorAddrs;
    var addrs := Orphans(s.kernel, i.ifindex, live);
    var seen := OrphansSeen(addrs, i.ifindex, todo);
    if r.ifindex != i.ifindex || r.metric != OUR_METRIC || r.addr in live {
      assert OrphansSeen(addrs, i.ifindex, todo - {r}) == seen;
    } else {
      assert r == Route(r.addr, i.ifindex, OUR_METRIC);
      assert OrphansSeen(addrs, i.ifindex, todo - {r}) == seen + {r.addr};
      UntrackOneMore(s, i, seen, r.addr);
    }
  }

  lemma OrphanEnds(s: State, i: Iface, live: set<Addr>)
    ensures OrphansSoFar(s, i, live, s.kernel.routes) == s
    ensures OrphansSoFar(s, i, live, {}) == Untrack(s, i, Orphans(s.kernel, i.ifindex, live))
  {
    assert OrphansSeen(Orphans(s.kernel, i.ifindex, live), i.ifindex, s.kernel.routes) == {};
    assert OrphansSeen(Orphans(s.kernel, i.ifindex, live), i.ifindex, {}) == Orphans(s.kernel, i.ifindex, live);
    TrackNothing(s, i);
  }

  // ---------- the whole sweep ----------

  lemma {:induction false} OneMoreVisit(s: State, visits: seq<Visit>, v: Visit)
    requires v.name in s.table && forall u :: u in visits ==> u.name in s.table
    ensures SweepAll(s, visits).table == s.table
    ensures SweepAll(s, visits + [v]) == VisitOne(SweepAll(s, visits), s.table[v.name], v)
    decreases |visits|
  {
    hide Sweep;
    if visits == [] {
      assert visits + [v] == [v];
    } else {
      assert visits[0] in visits && (visits + [v])[1..] == visits[1..] + [v];
      var s1 := VisitOne(s, s.table[visits[0].name], visits[0]);
      SweepKeepsTable(s, s.table[visits[0].name], visits[0]);
      hide VisitOne;
      OneMoreVisit(s1, visits[1..], v);
    }
  }

  lemma SweepKeepsTable(s: State, i: Iface, v: Visit)
    ensures VisitOne(s, i, v).table == s.table
  {
  }

  /** The visited interfaces are those outside `todo`, each once. */
  ghost predicate SweptSoFar(s: State, todo: set<string>, now: State, visits: seq<Visit>) {
    && now == SweepAll(s, visits) && Distinct(VisitNames(visits)) && Elements(VisitNames(visits)) == s.table.Keys - todo
  }

  lemma SweepBegins(s: State)
    ensures SweptSoFar(s, s.table.Keys, s, [])
  {
    assert VisitNames([]) == [];
  }

  lemma SweepStep(s: State, todo: set<string>, now: State, visits: seq<Visit>, v: Visit)
    requires SweptSoFar(s, todo, now, visits) && v.name in todo && todo <= s.table.Keys
    ensures SweptSoFar(s, todo - {v.name}, VisitOne(now, s.table[v.name], v), visits + [v])
  {
    hide VisitOne, SweepAll;
    var names, names2 := VisitNames(visits), VisitNames(visits + [v]);
    assert names2 == names + [v.name];
    assert v.name !in Elements(names);
    assert Elements(names2) == Elements(names) + {v.name};
    forall u | u in visits ensures u.name in s.table {
      var k :| 0 <= k < |visits| && visits[k] == u;
      assert names[k] == u.name && names[k] in Elements(names);
    }
    OneMoreVisit(s, visits, v);
  }

  lemma SweepCompletes(s: State, now: State, visits: seq<Visit>)
    requires SweptSoFar(s, {}, now, visits)
    ensures Enabled(s, EvSweep(visits)) && now == SweepAll(s, visits)
  {
  }

  // ---------- clearing ----------

  /** The eligible ones of the first `k` cached addresses. */
  function OwnSoFar(i: Iface, k: nat): (r: set<Addr>)
    requires k <= |i.addr6|
    ensures forall a :: a in r <==> OwnEligible(i, a) && exists j :: 0 <= j < k && i.addr6[j].addr == a
  {
    set j | 0 <= j < k && OwnEligible(i, i.addr6[j].addr) :: i.addr6[j].addr
  }

  lemma OwnGrows(i: Iface, n: nat)
    requires n < |i.addr6|
    ensures OwnSoFar(i, n + 1)
            == if OwnEligible(i, i.addr6[n].addr) then OwnSoFar(i, n) + {i.addr6[n].addr} else OwnSoFar(i, n)
  {
  }

  lemma OwnStep(k: Kernel, T: Table, i: Iface, n: nat, add: bool)
    requires n < |i.addr6|
    ensures
      var a := i.addr6[n].addr;
      var k1 := MirrorAddrs(k, T, i, OwnSoFar(i, n), add);
      MirrorAddrs(k, T, i, OwnSoFar(i, n + 1), add)
      == if OwnEligible(i, a) then MirrorAddrs(k1, T, i, {a}, add) else k1
  {
    hide MirrorAddrs, OwnEligible;
    OwnGrows(i, n);
    MirrorOneMore(k, T, i, OwnSoFar(i, n), i.addr6[n].addr, add);
  }

  lemma OwnAll(i: Iface)
    ensures OwnSoFar(i, 0) == {} && OwnSoFar(i, |i.addr6|) == OwnAddrs(i)
  {
    hide OwnEligible;
    forall a | a in OwnAddrs(i) ensures a in OwnSoFar(i, |i.addr6|) {
      var c :| c in i.addr6 && c.addr == a;
    }
  }

  function UntrackedSoFar(s: State, i: Iface, todo: set<Key>): State {
    Untrack(s, i, Seen(AddrsOn(s.mirrored, i.ifindex), i.ifindex, todo))
  }

  lemma UntrackStep(s: State, i: Iface, todo: set<Key>, q: Key)
    requires q in todo && todo <= s.mirrored
    ensures
      var s1 := UntrackedSoFar(s, i, todo);
      UntrackedSoFar(s, i, todo - {q})
      == if q.ifindex != i.ifindex then s1
         else s1.(mirrored := s1.mirrored - {q}, kernel := MirrorAddrs(s1.kernel, s1.table, i, {q.addr}, false))
  {
    hide MirrorAddrs;
    var addrs := AddrsOn(s.mirrored, i.ifindex);
    if q.ifindex != i.ifindex {
      assert Seen(addrs, i.ifindex, todo - {q}) == Seen(addrs, i.ifindex, todo);
    } else {
      assert q == Key(q.addr, i.ifindex);
      SeenStep(addrs, i.ifindex, todo, q);
      UntrackOneMore(s, i, Seen(addrs, i.ifindex, todo), q.addr);
    }
  }

  lemma UntrackEnds(s: State, i: Iface)
    ensures UntrackedSoFar(s, i, s.mirrored) == s
    ensures UntrackedSoFar(s, i, {}) == Untrack(s, i, AddrsOn(s.mirrored, i.ifindex))
  {
    SeenAll(AddrsOn(s.mirrored, i.ifindex), i.ifindex, s.mirrored);
    TrackNothing(s, i);
  }

  // ---------- reconciling ----------

  lemma {:induction false} OneMoreTarget(k: Kernel, T: Table, order: seq<Target>, t: Target)
    requires Known(T, order) && t.name in T
    ensures AddTargets(k, T, order + [t]) == MirrorAddrs(AddTargets(k, T, order), T, T[t.name], {t.addr}, true)
    decreases |order|
  {
    hide MirrorAddrs;
    if order == [] {
      assert order + [t] == [t];
    } else {
      assert order[0] in order;
      assert (order + [t])[1..] == order[1..] + [t];
      OneMoreTarget(MirrorAddrs(k, T, T[order[0].name], {order[0].addr}, true), T, order[1..], t);
    }
  }

  function FlagsSoFar(k: Kernel, T: Table, todo: set<string>): Kernel {
    SetFlags(k, set n | n in T && n !in todo && T[n].ndp.Relay? && T[n].nd.Some? :: T[n].ifname)
  }

  lemma FlagStep(k: Kernel, T: Table, todo: set<string>, n: string)
    requires n in T && n in todo
    ensures
      var k1 := FlagsSoFar(k, T, todo);
      FlagsSoFar(k, T, todo - {n}) == if !T[n].ndp.Relay? || T[n].nd.None? then k1 else SetFlags(k1, {T[n].ifname})
  {
    var k1 := FlagsSoFar(k, T, todo);
    assert FlagsSoFar(k, T, todo - {n}).proxyNdp
        == if !T[n].ndp.Relay? || T[n].nd.None? then k1.proxyNdp else SetFlags(k1, {T[n].ifname}).proxyNdp;
  }

  lemma FlagEnds(k: Kernel, T: Table)
    ensures FlagsSoFar(k, T, T.Keys) == k
    ensures FlagsSoFar(k, T, {}) == SetFlags(k, NdpIfnames(T))
  {
    assert FlagsSoFar(k, T, T.Keys).proxyNdp == k.proxyNdp;
    assert FlagsSoFar(k, T, {}).proxyNdp == SetFlags(k, NdpIfnames(T)).proxyNdp;
  }

  /** A tracked host has been re-asserted for some interface with its index, or no interface has it. */
  ghost predicate Covered(T: Table, q: Key, order: seq<Target>) {
    forall n :: n in T && T[n].ifindex == q.ifindex ==>
      exists m :: m in T && T[m].ifindex == q.ifindex && Target(q.addr, m) in order
  }

  /** The own addresses of the interfaces outside `todo` have been re-asserted. */
  ghost predicate OwnCovered(T: Table, todo: set<string>, order: seq<Target>) {
    forall n, a :: n in T && n !in todo && a in OwnAddrs(T[n]) ==> Target(a, n) in order
  }

  /** `k` results from re-asserting the targets of `order`, and these are targets indeed. */
  ghost predicate Reasserted(s: State, start: Kernel, k: Kernel, order: seq<Target>) {
    && Known(s.table, order) && k == AddTargets(start, s.table, order)
    && forall t :: t in order ==> IsTarget(s, t)
  }

  lemma ReassertOne(s: State, start: Kernel, k: Kernel, order: seq<Target>, t: Target)
    requires Reasserted(s, start, k, order) && IsTarget(s, t)
    ensures Reasserted(s, start, MirrorAddrs(k, s.table, s.table[t.name], {t.addr}, true), order + [t])
  {
    hide MirrorAddrs, OwnAddrs;
    OneMoreTarget(start, s.table, order, t);
  }

  lemma OwnBegins(s: State, start: Kernel)
    ensures Reasserted(s, start, start, []) && OwnCovered(s.table, s.table.Keys, [])
  {
  }

  /** The eligible ones of the first `k` addresses of interface `n` are in `order`. */
  ghost predicate OwnPrefix(i: Iface, n: string, k: nat, order: seq<Target>)
    requires k <= |i.addr6|
  {
    forall a :: a in OwnSoFar(i, k) ==> Target(a, n) in order
  }

  lemma OwnPrefixNone(i: Iface, n: string, order: seq<Target>)
    ensures OwnPrefix(i, n, 0, order) && (!i.ndp.Relay? ==> OwnPrefix(i, n, |i.addr6|, order))
  {
  }

  lemma OwnPrefixStep(i: Iface, n: string, k: nat, order: seq<Target>)
    requires k < |i.addr6| && OwnPrefix(i, n, k, order)
    ensures OwnPrefix(i, n, k + 1, if OwnEligible(i, i.addr6[k].addr) then order + [Target(i.addr6[k].addr, n)] else order)
    ensures OwnEligible(i, i.addr6[k].addr) ==> i.addr6[k].addr in OwnAddrs(i)
  {
    hide OwnEligible;
    OwnGrows(i, k);
  }

  /** One more interface's own addresses have been re-asserted. */
  lemma OwnCoveredStep(T: Table, todo: set<string>, n: string, before: seq<Target>, order: seq<Target>)
    requires OwnCovered(T, todo, before) && n in T && before <= order
    requires OwnPrefix(T[n], n, |T[n].addr6|, order)
    ensures OwnCovered(T, todo - {n}, order)
  {
    hide OwnAddrs, OwnSoFar;
    assert OwnSoFar(T[n], |T[n].addr6|) == OwnAddrs(T[n]) by { OwnAll(T[n]); }
    assert forall t :: t in before ==> t in order;
  }

  ghost predicate AllCovered(T: Table, keys: set<Key>, order: seq<Target>) {
    forall q :: q in keys ==> Covered(T, q, order)
  }

  lemma CoveredStays(T: Table, q: Key, order: seq<Target>, t: Target)
    requires Covered(T, q, order)
    ensures Covered(T, q, order + [t])
  {
    forall n | n in T && T[n].ifindex == q.ifindex
      ensures exists m :: m in T && T[m].ifindex == q.ifindex && Target(q.addr, m) in order + [t]
    {
      var m :| m in T && T[m].ifindex == q.ifindex && Target(q.addr, m) in order;
      assert Target(q.addr, m) in order + [t];
    }
  }

  lemma CoveredNone(T: Table, tracked: set<Key>, order: seq<Target>)
    ensures AllCovered(T, tracked - tracked, order)
  {
  }

  /** One more tracked host: re-asserted for interface `r`, or skipped as no interface has its index. */
  lemma CoveredStep(T: Table, tracked: set<Key>, todo: set<Key>, q: Key, r: Option<string>, order: seq<Target>)
    requires AllCovered(T, tracked - todo, order) && Found(T, q.ifindex, r)
    ensures AllCovered(T, tracked - (todo - {q}), if r.None? then order else order + [Target(q.addr, r.value)])
  {
    if r.Some? {
      var t := Target(q.addr, r.value);
      assert t in order + [t];
      forall p | p in tracked - (todo - {q}) ensures Covered(T, p, order + [t]) {
        if p in tracked - todo { CoveredStays(T, p, order, t); }
      }
    }
  }

  lemma OrderComplete(s: State, start: Kernel, k: Kernel, own: seq<Target>, order: seq<Target>)
    requires OwnCovered(s.table, {}, own) && own <= order
    requires Reasserted(s, start, k, order) && AllCovered(s.table, s.mirrored, order)
    ensures ReconcileOrder(s, order) && k == AddTargets(start, s.table, order)
  {
    hide OwnAddrs, IsTarget;
    assert forall t :: t in own ==> t in order;
    forall q, n | q in s.mirrored && n in s.table && s.table[n].ifindex == q.ifindex
      ensures exists m :: m in s.table && s.table[m].ifindex == q.ifindex && Target(q.addr, m) in order
    {
      assert Covered(s.table, q, order);
    }
  }

  // ---------- closing an interface ----------

  datatype Leftover = Leftover(os: Os, kernel: Kernel)

  /** What giving up every service and the timer of a record leaves behind. */
  function Closed(i: Iface, os: Os, k: Kernel): Leftover {
    var r1 := RouterSetup(i, os, false, RNone);
    var r2 := DhcpSetup(r1.i, r1.os, false, DNone);
    var r3 := NdpSetup(r2.i, r2.os, k, false, NNone);
    Leftover(StopTimer(r3.i, r3.os).os, r3.kernel)
  }

  /** It does not matter that the record leaves the table first. */
  lemma ClosedDirectly(s: State, n: string)
    requires n in s.table
    ensures
      var c := Closed(s.table[n], s.os, s.kernel);
      CloseInterface(s, n) == s.(table := s.table - {n}, os := c.os, kernel := c.kernel)
  {
    hide RouterSetup, DhcpSetup, NdpSetup, StopTimer;
    var s1 := SetupRouter(s, n, false, RNone);
    var s2 := SetupDhcp(s1, n, false, DNone);
    var s3 := SetupNdp(s2, n, false, NNone, true);
    assert s3.table - {n} == s.table - {n};
  }

  // ---------- reloading ----------

  /** The table when the interfaces outside `todo` have been reset. */
  function ResetSoFar(T: Table, todo: set<string>): Table {
    map n | n in T :: if n in todo then T[n] else Unused(Defaults(T[n]))
  }

  lemma ResetStep(T: Table, todo: set<string>, n: string)
    requires n in T && n in todo
    ensures ResetSoFar(T, todo - {n}) == ResetSoFar(T, todo)[n := Unused(Defaults(ResetSoFar(T, todo)[n]))]
  {
  }

  lemma ResetEnds(s: State)
    ensures ResetSoFar(s.table, s.table.Keys) == s.table && s.(table := ResetSoFar(s.table, {})) == ResetAll(s)
  {
    assert ResetSoFar(s.table, {}) == ResetAll(s).table;
  }

  /** The table when the interfaces outside `todo` have dropped their idle services. */
  function IdleSoFar(T: Table, any: Slaves, todo: set<string>): Table {
    map n | n in T :: if n in todo then T[n] else IdleMaster(T[n], any)
  }

  lemma IdleStep(T: Table, any: Slaves, todo: set<string>, n: string)
    requires n in T && n in todo
    ensures IdleSoFar(T, any, todo - {n}) == IdleSoFar(T, any, todo)[n := IdleMaster(IdleSoFar(T, any, todo)[n], any)]
  {
  }

  lemma IdleEnds(s: State)
    ensures IdleSoFar(s.table, SlavesOf(s.table), s.table.Keys) == s.table
    ensures s.(table := IdleSoFar(s.table, SlavesOf(s.table), {})) == DisableIdleMasters(s)
  {
    hide SlavesOf;
    assert IdleSoFar(s.table, SlavesOf(s.table), {}) == DisableIdleMasters(s).table;
  }

  function Without(T: Table, todo: set<string>): Table {
    map n | n in T && n !in todo :: T[n]
  }

  lemma SlavesStep(T: Table, todo: set<string>, n: string)
    requires n in T && n in todo
    ensures
      var any := SlavesOf(Without(T, todo));
      SlavesOf(Without(T, todo - {n}))
      == if T[n].master then any
         else Slaves(any.ra || T[n].ra.Relay?, any.dhcpv6 || T[n].dhcpv6.Relay?, any.ndp || T[n].ndp.Relay?)
  {
    var T1 := Without(T, todo);
    var T2 := Without(T, todo - {n});
    assert T2 == T1[n := T[n]] && n !in T1 && n in T2 && T2[n] == T[n];
    assert SlavesOf(T1).ra ==> SlavesOf(T2).ra by {
      if m :| m in T1 && !T1[m].master && T1[m].ra.Relay? { assert m in T2 && T2[m] == T1[m]; }
    }
    assert SlavesOf(T1).dhcpv6 ==> SlavesOf(T2).dhcpv6 by {
      if m :| m in T1 && !T1[m].master && T1[m].dhcpv6.Relay? { assert m in T2 && T2[m] == T1[m]; }
    }
    assert SlavesOf(T1).ndp ==> SlavesOf(T2).ndp by {
      if m :| m in T1 && !T1[m].master && T1[m].ndp.Relay? { assert m in T2 && T2[m] == T1[m]; }
    }
  }

  lemma SlavesEnds(T: Table)
    ensures Without(T, {}) == T && SlavesOf(Without(T, T.Keys)) == Slaves(false, false, false)
  {
  }

  // ---------- parsing one entry ----------

  /** Parsing an entry begins with finding or creating its interface. */
  lemma ParseCreates(s: State, e: Entry)
    ensures Parse(s, e) == Parse(FindOrCreate(s, e.name), e)
  {
    hide Detach, Attach, Refresh, Options;
  }

  const NO_FAULTS: Faults := Faults(RNone, DNone, NNone, true)

  /** A list of interfaces with the faults their setups meet. */
  function Plan(list: seq<string>, faults: map<string, Faults>): (order: seq<Restart>)
    ensures |order| == |list| && RestartNames(order) == list
    ensures forall k :: 0 <= k < |list| ==>
      order[k] == Restart(list[k], if list[k] in faults then faults[list[k]] else NO_FAULTS)
  {
    seq(|list|, k requires 0 <= k < |list| =>
      Restart(list[k], if list[k] in faults then faults[list[k]] else NO_FAULTS))
  }

  lemma RestartStep(s: State, order: seq<Restart>, k: nat)
    requires k < |order| && order[k].name in s.table
    ensures RestartAll(s, order[k..]) == RestartAll(RestartOne(s, order[k]), order[k + 1..])
  {
    hide RestartOne;
    assert order[k..][1..] == order[k + 1..];
  }

  lemma RestartNothing(s: State, order: seq<Restart>)
    requires order == []
    ensures RestartAll(s, order) == s
  {
  }

  // ---------- link events ----------

  /** The record of an interface whose link changed its state but not its index. */
  function Toggled(i: Iface, running: bool, addrs: seq<IPAddr>): Iface {
    if i.running != running && running then Refresh(WithRunning(i, running), addrs) else WithRunning(i, running)
  }

  lemma LinkCases(s: State, n: string, u: LinkEvent, addrs: seq<IPAddr>, f: Faults)
    requires n in s.table
    ensures
      var i := s.table[n];
      HandleLink(s, n, u, addrs, f)
      == match u
         case DelLink(index) =>
           if i.ifindex != index then s
           else
             var s1 := Detach(s, n);
             s1.(table := s1.table[n := Gone(s1.table[n])])
         case NewLink(index, running) =>
           if i.ifindex == index then
             var s1 := s.(table := s.table[n := Toggled(i, running, addrs)]);
             if i.running == running then s1 else ReloadServices(s1, n, f)
           else
             var s1 := Detach(s, n);
             var s2 := s1.(table := s1.table[n := Refresh(Attach(s1.table[n], s1.table[n].ifname, Link(index, running)), addrs)]);
             ReloadServices(s2, n, f)
  {
    hide Detach, Attach, Refresh, ReloadServices;
  }
}

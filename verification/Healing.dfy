/** What a reconcile restores, when it can restore everything, and what it leaves alone. */
module Healing {
  import opened Common
  import opened Addresses
  import opened KernelModel
  import opened Model
  import opened Mirror
  import opened Daemon
  import opened Agreement

  /** The route a target asks for, if its interface learns routes and the address is routable. */
  function RouteFor(T: Table, t: Target): Option<Route>
    requires t.name in T
  {
    if T[t.name].learnRoutes && !t.addr.IsLinkLocalUnicast()
    then Some(Route(t.addr, T[t.name].ifindex, OUR_METRIC)) else None
  }

  ghost predicate AskedProxy(T: Table, todo: seq<Target>, p: Proxy) {
    exists t :: t in todo && t.name in T && t.addr == p.addr && p.ifindex in Carriers(T, T[t.name].ifindex)
  }

  ghost predicate AskedFlag(T: Table, todo: seq<Target>, f: string) {
    exists t, c :: t in todo && t.name in T && c in Masters(T, T[t.name].ifindex) && T[c].ifname == f
  }

  /** The last route to this address that the list asks for and the kernel accepts. */
  function LastAsked(T: Table, todo: seq<Target>, refused: set<Route>, a: Addr): Option<Route>
    requires Known(T, todo)
    decreases |todo|
  {
    if todo == [] then None
    else
      var later := LastAsked(T, todo[1..], refused, a);
      var own := RouteFor(T, todo[0]);
      if later.Some? then later
      else if own.Some? && own.value !in refused && own.value.addr == a then own
      else None
  }

  lemma {:induction false} LastAskedIff(T: Table, todo: seq<Target>, refused: set<Route>, a: Addr)
    requires Known(T, todo)
    ensures
      var last := LastAsked(T, todo, refused, a);
      && (last.None? <==> forall t :: t in todo && t.addr == a && RouteFor(T, t).Some? ==> RouteFor(T, t).value in refused)
      && (last.Some? ==> last.value !in refused && exists t :: t in todo && t.addr == a && RouteFor(T, t) == last)
    decreases |todo|
  {
    if todo != [] {
      assert forall u :: u in todo <==> u == todo[0] || u in todo[1..];
      LastAskedIff(T, todo[1..], refused, a);
    }
  }

  lemma {:induction false} AddTargetsProxies(k: Kernel, T: Table, todo: seq<Target>, p: Proxy)
    requires Known(T, todo)
    ensures p in AddTargets(k, T, todo).proxies <==>
              p in k.proxies || (p !in k.refuse.add.proxies && AskedProxy(T, todo, p))
    decreases |todo|
  {
    if todo != [] {
      var t := todo[0];
      var k1 := MirrorAddrs(k, T, T[t.name], {t.addr}, true);
      AddTargetsProxies(k1, T, todo[1..], p);
      assert forall u :: u in todo <==> u == t || u in todo[1..];
      assert AskedProxy(T, todo, p) <==>
               (t.addr == p.addr && p.ifindex in Carriers(T, T[t.name].ifindex)) || AskedProxy(T, todo[1..], p);
    }
  }

  lemma {:induction false} AddTargetsFlags(k: Kernel, T: Table, todo: seq<Target>, f: string)
    requires Known(T, todo)
    ensures f in AddTargets(k, T, todo).proxyNdp <==>
              f in k.proxyNdp || (f !in k.refuse.add.flags && AskedFlag(T, todo, f))
    decreases |todo|
  {
    if todo != [] {
      var t := todo[0];
      var k1 := MirrorAddrs(k, T, T[t.name], {t.addr}, true);
      AddTargetsFlags(k1, T, todo[1..], f);
      assert forall u :: u in todo <==> u == t || u in todo[1..];
      if AskedFlag(T, todo, f) && !AskedFlag(T, todo[1..], f) {
        var u, c :| u in todo && u.name in T && c in Masters(T, T[u.name].ifindex) && T[c].ifname == f;
        assert u == t;
      } else if AskedFlag(T, todo[1..], f) {
        var u, c :| u in todo[1..] && u.name in T && c in Masters(T, T[u.name].ifindex) && T[c].ifname == f;
        assert u in todo;
      }
      if f in Ifnames(T, Masters(T, T[t.name].ifindex)) {
        var c :| c in Masters(T, T[t.name].ifindex) && T[c].ifname == f;
        assert t in todo;
      }
    }
  }

  /** Routes after the list, exactly: of the owned routes to an address only the one asked for last is left, if any is. */
  lemma {:induction false} AddTargetsRoutes(k: Kernel, T: Table, todo: seq<Target>, r: Route)
    requires Known(T, todo)
    ensures
      var last := LastAsked(T, todo, k.refuse.add.routes, r.addr);
      r in AddTargets(k, T, todo).routes <==>
        if last.Some? && r.metric == OUR_METRIC then r == last.value else r in k.routes
    decreases |todo|
  {
    if todo != [] {
      var t := todo[0];
      var k1 := MirrorAddrs(k, T, T[t.name], {t.addr}, true);
      LastAskedIff(T, todo[1..], k.refuse.add.routes, r.addr);
      AddTargetsRoutes(k1, T, todo[1..], r);
      OneTargetRoutes(k, T, t, r);
      hide MirrorAddrs, RouteFor;
      assert k1.refuse == k.refuse by { MirrorKeepsNeighs(k, T, T[t.name], {t.addr}, true); }
    }
  }

  lemma OneTargetRoutes(k: Kernel, T: Table, t: Target, r: Route)
    requires t.name in T
    ensures
      var put := RouteFor(T, t);
      r in MirrorAddrs(k, T, T[t.name], {t.addr}, true).routes <==>
        || (put == Some(r) && r !in k.refuse.add.routes)
        || (r in k.routes && !(put.Some? && put.value !in k.refuse.add.routes && put.value.addr == r.addr && r.metric == OUR_METRIC))
  {
  }

  // ---------- the whole reconcile ----------

  /** Live interfaces have distinct indexes, and tracked hosts sit behind live ones. */
  ghost predicate UniqueIndexes(s: State) {
    && (forall m, n :: m in s.table && n in s.table && s.table[m].ifindex == s.table[n].ifindex != 0 ==> m == n)
    && (forall k :: k in s.mirrored ==> k.ifindex != 0)
  }

  /** Each target has its proxy entry, with proxy_ndp on, on every carrier, and its route if it asks for one. */
  ghost predicate Restored(s: State, t: Target)
    requires t.name in s.table
  {
    && (forall c :: c in Masters(s.table, s.table[t.name].ifindex) ==>
          Proxy(t.addr, s.table[c].ifindex) in s.kernel.proxies && s.table[c].ifname in s.kernel.proxyNdp)
    && (RouteFor(s.table, t).Some? ==> RouteFor(s.table, t).value in s.kernel.routes)
  }

  ghost predicate Healed(s: State) {
    && (forall t :: IsTarget(s, t) ==> Restored(s, t))
    && NdpIfnames(s.table) <= s.kernel.proxyNdp
  }

  /** No two targets ask for routes to one address behind different interfaces. */
  ghost predicate NoCompetition(s: State) {
    forall t, u | IsTarget(s, t) && IsTarget(s, u) && t.addr == u.addr ::
      RouteFor(s.table, t).Some? && RouteFor(s.table, u).Some? ==> RouteFor(s.table, t) == RouteFor(s.table, u)
  }

  lemma OrderCovers(s: State, todo: seq<Target>)
    requires ReconcileOrder(s, todo) && UniqueIndexes(s)
    ensures forall t :: t in todo <==> IsTarget(s, t)
  {
    forall t | IsTarget(s, t) ensures t in todo {
      if t.addr !in OwnAddrs(s.table[t.name]) {
        var k := Key(t.addr, s.table[t.name].ifindex);
        var m :| m in s.table && s.table[m].ifindex == k.ifindex && Target(k.addr, m) in todo;
        assert m == t.name && t == Target(k.addr, m);
      } else {
        assert t == Target(t.addr, t.name);
      }
    }
  }

  /** Proxy entries and proxy_ndp flags are restored whether or not routes compete. */
  lemma ProxiesHeal(s: State, todo: seq<Target>, t: Target, c: string)
    requires ReconcileOrder(s, todo) && UniqueIndexes(s) && s.kernel.refuse == NO_REFUSAL
    requires IsTarget(s, t) && c in Masters(s.table, s.table[t.name].ifindex)
    ensures Proxy(t.addr, s.table[c].ifindex) in ReconcileKernel(s, todo).proxies
    ensures s.table[c].ifname in ReconcileKernel(s, todo).proxyNdp
  {
    var k0 := SetFlags(s.kernel, NdpIfnames(s.table));
    OrderCovers(s, todo);
    AddTargetsProxies(k0, s.table, todo, Proxy(t.addr, s.table[c].ifindex));
    AddTargetsFlags(k0, s.table, todo, s.table[c].ifname);
  }

  lemma RouteHeals(s: State, todo: seq<Target>, t: Target)
    requires ReconcileOrder(s, todo) && UniqueIndexes(s) && s.kernel.refuse == NO_REFUSAL
    requires NoCompetition(s) && IsTarget(s, t) && RouteFor(s.table, t).Some?
    ensures RouteFor(s.table, t).value in ReconcileKernel(s, todo).routes
  {
    OrderCovers(s, todo);
    hide ReconcileOrder, UniqueIndexes, IsTarget;
    LastAskedIff(s.table, todo, {}, t.addr);
    AddTargetsRoutes(SetFlags(s.kernel, NdpIfnames(s.table)), s.table, todo, RouteFor(s.table, t).value);
  }

  lemma FlagsHeal(s: State, todo: seq<Target>)
    requires ReconcileOrder(s, todo) && s.kernel.refuse == NO_REFUSAL
    ensures NdpIfnames(s.table) <= ReconcileKernel(s, todo).proxyNdp
  {
    forall f | f in NdpIfnames(s.table) ensures f in ReconcileKernel(s, todo).proxyNdp {
      AddTargetsFlags(SetFlags(s.kernel, NdpIfnames(s.table)), s.table, todo, f);
    }
  }

  lemma CompetitorLoses(s: State, todo: seq<Target>, t: Target, u: Target)
    requires ReconcileOrder(s, todo) && UniqueIndexes(s) && s.kernel.refuse == NO_REFUSAL
    requires IsTarget(s, t) && IsTarget(s, u) && t.addr == u.addr
    requires RouteFor(s.table, t).Some? && RouteFor(s.table, u).Some? && RouteFor(s.table, t) != RouteFor(s.table, u)
    ensures !(RouteFor(s.table, t).value in ReconcileKernel(s, todo).routes
              && RouteFor(s.table, u).value in ReconcileKernel(s, todo).routes)
  {
    OrderCovers(s, todo);
    hide ReconcileOrder, UniqueIndexes, IsTarget;
    var k0 := SetFlags(s.kernel, NdpIfnames(s.table));
    LastAskedIff(s.table, todo, {}, t.addr);
    AddTargetsRoutes(k0, s.table, todo, RouteFor(s.table, t).value);
    AddTargetsRoutes(k0, s.table, todo, RouteFor(s.table, u).value);
  }

  /**
   * Self-healing: whatever state the kernel was left in, a reconcile whose changes are accepted restores
   * everything exactly when no two targets compete for the route to one address.
   */
  lemma ReconcileHealsIff(s: State, todo: seq<Target>)
    requires ReconcileOrder(s, todo) && UniqueIndexes(s) && s.kernel.refuse == NO_REFUSAL
    ensures Healed(s.(kernel := ReconcileKernel(s, todo))) <==> NoCompetition(s)
  {
    var s2 := s.(kernel := ReconcileKernel(s, todo));
    assert forall t :: IsTarget(s2, t) == IsTarget(s, t);
    if NoCompetition(s) {
      FlagsHeal(s, todo);
      forall t | IsTarget(s2, t) ensures Restored(s2, t) {
        hide NoCompetition, ReconcileOrder, UniqueIndexes, ReconcileKernel, IsTarget;
        forall c | c in Masters(s.table, s.table[t.name].ifindex)
          ensures Proxy(t.addr, s.table[c].ifindex) in s2.kernel.proxies && s.table[c].ifname in s2.kernel.proxyNdp
        { ProxiesHeal(s, todo, t, c); }
        if RouteFor(s.table, t).Some? { RouteHeals(s, todo, t); }
      }
    } else {
      hide ReconcileOrder, UniqueIndexes, ReconcileKernel;
      var t, u :| IsTarget(s, t) && IsTarget(s, u) && t.addr == u.addr
                  && RouteFor(s.table, t).Some? && RouteFor(s.table, u).Some?
                  && RouteFor(s.table, t) != RouteFor(s.table, u);
      CompetitorLoses(s, todo, t, u);
      assert IsTarget(s2, t) && IsTarget(s2, u);
      assert !(Restored(s2, t) && Restored(s2, u));
    }
  }

  /**
   * A reconcile, of any list and whatever the kernel refuses, only adds proxy entries and flags. It keeps the
   * routes exactly when, for each owned route there is, no accepted target asks for a route to its address or
   * the last one that does asks for this very route.
   */
  lemma ReconcileOnlyAdds(s: State, todo: seq<Target>)
    requires Known(s.table, todo)
    ensures
      var k := ReconcileKernel(s, todo);
      && s.kernel.proxies <= k.proxies && s.kernel.proxyNdp <= k.proxyNdp && k.neighs == s.kernel.neighs
      && (s.kernel.routes <= k.routes <==>
            forall r :: r in s.kernel.routes && r.metric == OUR_METRIC ==>
              LastAsked(s.table, todo, s.kernel.refuse.add.routes, r.addr) in {None, Some(r)})
  {
    var k0 := SetFlags(s.kernel, NdpIfnames(s.table));
    var k := ReconcileKernel(s, todo);
    forall p | p in s.kernel.proxies ensures p in k.proxies { AddTargetsProxies(k0, s.table, todo, p); }
    forall f | f in s.kernel.proxyNdp ensures f in k.proxyNdp { AddTargetsFlags(k0, s.table, todo, f); }
    forall r | r in s.kernel.routes
      ensures r in k.routes <==>
                (r.metric == OUR_METRIC ==> LastAsked(s.table, todo, s.kernel.refuse.add.routes, r.addr) in {None, Some(r)})
    { AddTargetsRoutes(k0, s.table, todo, r); }
    AddTargetsNeighs(k0, s.table, todo);
  }

  lemma {:induction false} AddTargetsNeighs(k: Kernel, T: Table, todo: seq<Target>)
    ensures AddTargets(k, T, todo).neighs == k.neighs && AddTargets(k, T, todo).refuse == k.refuse
    decreases |todo|
  {
    if todo != [] && todo[0].name in T {
      AddTargetsNeighs(MirrorAddrs(k, T, T[todo[0].name], {todo[0].addr}, true), T, todo[1..]);
    }
  }

  /** Two listings of the same targets ask for the same things. */
  lemma SameTargetsAskSame(T: Table, todo: seq<Target>, todo2: seq<Target>)
    requires forall t :: t in todo <==> t in todo2
    ensures forall p :: AskedProxy(T, todo, p) <==> AskedProxy(T, todo2, p)
    ensures forall f :: AskedFlag(T, todo, f) <==> AskedFlag(T, todo2, f)
  {
    forall f ensures AskedFlag(T, todo, f) <==> AskedFlag(T, todo2, f) {
      if AskedFlag(T, todo, f) {
        var t, c :| t in todo && t.name in T && c in Masters(T, T[t.name].ifindex) && T[c].ifname == f;
        assert t in todo2;
      }
      if AskedFlag(T, todo2, f) {
        var t, c :| t in todo2 && t.name in T && c in Masters(T, T[t.name].ifindex) && T[c].ifname == f;
        assert t in todo;
      }
    }
  }

  /** The two lists leave the same route to every address. */
  ghost predicate SameLast(T: Table, todo: seq<Target>, todo2: seq<Target>, refused: set<Route>)
    requires Known(T, todo) && Known(T, todo2)
  {
    forall a :: LastAsked(T, todo, refused, a) == LastAsked(T, todo2, refused, a)
  }

  /** `k2` results from a second reconcile, over the same targets in another order. */
  ghost predicate SecondList(k: Kernel, T: Table, todo: seq<Target>, todo2: seq<Target>, k1: Kernel, k2: Kernel) {
    && Known(T, todo) && (forall t :: t in todo <==> t in todo2)
    && k1 == AddTargets(k, T, todo) && k2 == AddTargets(SetFlags(k1, NdpIfnames(T)), T, todo2)
    && NdpIfnames(T) - k.refuse.add.flags <= k.proxyNdp
  }

  lemma SecondListProxies(k: Kernel, T: Table, todo: seq<Target>, todo2: seq<Target>, k1: Kernel, k2: Kernel, p: Proxy)
    requires SecondList(k, T, todo, todo2, k1, k2)
    ensures p in k2.proxies <==> p in k1.proxies
  {
    hide AskedProxy, AddTargets;
    AddTargetsNeighs(k, T, todo);
    SameTargetsAskSame(T, todo, todo2);
    AddTargetsProxies(k, T, todo, p);
    AddTargetsProxies(SetFlags(k1, NdpIfnames(T)), T, todo2, p);
  }

  lemma SecondListFlags(k: Kernel, T: Table, todo: seq<Target>, todo2: seq<Target>, k1: Kernel, k2: Kernel, f: string)
    requires SecondList(k, T, todo, todo2, k1, k2)
    ensures f in k2.proxyNdp <==> f in k1.proxyNdp
  {
    hide AskedFlag, AddTargets;
    AddTargetsNeighs(k, T, todo);
    SameTargetsAskSame(T, todo, todo2);
    AddTargetsFlags(k, T, todo, f);
    AddTargetsFlags(SetFlags(k1, NdpIfnames(T)), T, todo2, f);
  }

  /** The route left to an address changes exactly when the lists differ in the last route they ask for. */
  lemma SecondListRoutes(k: Kernel, T: Table, todo: seq<Target>, todo2: seq<Target>, k1: Kernel, k2: Kernel, a: Addr)
    requires SecondList(k, T, todo, todo2, k1, k2)
    ensures (forall r: Route :: r.addr == a ==> (r in k2.routes <==> r in k1.routes)) <==>
              LastAsked(T, todo, k.refuse.add.routes, a) == LastAsked(T, todo2, k.refuse.add.routes, a)
  {
    var last, last2 := LastAsked(T, todo, k.refuse.add.routes, a), LastAsked(T, todo2, k.refuse.add.routes, a);
    AddTargetsNeighs(k, T, todo);
    LastAskedIff(T, todo, k.refuse.add.routes, a);
    LastAskedIff(T, todo2, k.refuse.add.routes, a);
    hide AddTargets, LastAsked;
    forall r: Route | r.addr == a
      ensures r in k1.routes <==> if last.Some? && r.metric == OUR_METRIC then r == last.value else r in k.routes
      ensures r in k2.routes <==> if last2.Some? && r.metric == OUR_METRIC then r == last2.value else r in k1.routes
    {
      AddTargetsRoutes(k, T, todo, r);
      AddTargetsRoutes(SetFlags(k1, NdpIfnames(T)), T, todo2, r);
    }
    if last.Some? && last2.Some? && last != last2 {
      assert last2.value.addr == a && last2.value in k2.routes && last2.value !in k1.routes;
    }
  }

  lemma SecondListIdle(k: Kernel, T: Table, todo: seq<Target>, todo2: seq<Target>, k1: Kernel, k2: Kernel)
    requires SecondList(k, T, todo, todo2, k1, k2)
    ensures k2 == k1 <==> SameLast(T, todo, todo2, k.refuse.add.routes)
  {
    AddTargetsNeighs(SetFlags(k1, NdpIfnames(T)), T, todo2);
    assert k2.neighs == k1.neighs && k2.refuse == k1.refuse;
    assert Known(T, todo2);
    hide SecondList, AddTargets, LastAsked;
    forall p ensures p in k2.proxies <==> p in k1.proxies { SecondListProxies(k, T, todo, todo2, k1, k2, p); }
    forall f ensures f in k2.proxyNdp <==> f in k1.proxyNdp { SecondListFlags(k, T, todo, todo2, k1, k2, f); }
    forall a ensures (forall r: Route :: r.addr == a ==> (r in k2.routes <==> r in k1.routes)) <==>
                       LastAsked(T, todo, k.refuse.add.routes, a) == LastAsked(T, todo2, k.refuse.add.routes, a)
    { SecondListRoutes(k, T, todo, todo2, k1, k2, a); }
    assert k2.proxies == k1.proxies && k2.proxyNdp == k1.proxyNdp;
    if SameLast(T, todo, todo2, k.refuse.add.routes) {
      forall r ensures r in k2.routes <==> r in k1.routes {
        assert LastAsked(T, todo, k.refuse.add.routes, r.addr) == LastAsked(T, todo2, k.refuse.add.routes, r.addr);
      }
      assert k2.routes == k1.routes;
    }
  }

  /** Without competition every order asks last for the same route. */
  lemma NoCompetitionSameLast(s: State, todo: seq<Target>, todo2: seq<Target>, refused: set<Route>)
    requires UniqueIndexes(s) && ReconcileOrder(s, todo) && ReconcileOrder(s, todo2) && NoCompetition(s)
    ensures SameLast(s.table, todo, todo2, refused)
  {
    OrderCovers(s, todo);
    OrderCovers(s, todo2);
    hide LastAsked, RouteFor, UniqueIndexes, ReconcileOrder, IsTarget;
    forall a ensures LastAsked(s.table, todo, refused, a) == LastAsked(s.table, todo2, refused, a) {
      LastAskedIff(s.table, todo, refused, a);
      LastAskedIff(s.table, todo2, refused, a);
    }
  }

  /**
   * A second reconcile, with the same refusals, changes nothing exactly when its order ends with the same
   * route for every address; so it does in the same order, and in any order when no targets compete.
   */
  lemma SecondReconcileIdle(s: State, todo: seq<Target>, todo2: seq<Target>)
    requires UniqueIndexes(s) && ReconcileOrder(s, todo) && ReconcileOrder(s, todo2)
    ensures
      var s1 := s.(kernel := ReconcileKernel(s, todo));
      ReconcileKernel(s1, todo2) == s1.kernel <==> SameLast(s.table, todo, todo2, s.kernel.refuse.add.routes)
    ensures NoCompetition(s) || todo2 == todo ==> SameLast(s.table, todo, todo2, s.kernel.refuse.add.routes)
  {
    OrderCovers(s, todo);
    OrderCovers(s, todo2);
    if NoCompetition(s) { NoCompetitionSameLast(s, todo, todo2, s.kernel.refuse.add.routes); }
    hide ReconcileOrder, UniqueIndexes, NoCompetition, IsTarget, SameLast, AddTargets;
    SecondListIdle(SetFlags(s.kernel, NdpIfnames(s.table)), s.table, todo, todo2, ReconcileKernel(s, todo),
                   ReconcileKernel(s.(kernel := ReconcileKernel(s, todo)), todo2));
    if todo2 == todo { SameLastSelf(s.table, todo, s.kernel.refuse.add.routes); }
  }

  lemma SameLastSelf(T: Table, todo: seq<Target>, refused: set<Route>)
    requires Known(T, todo)
    ensures SameLast(T, todo, todo, refused)
  {
  }

  // ---------- the failing family ----------

  /** No interface has an address of its own. */
  ghost predicate NoOwnAddrs(T: Table) {
    forall n :: n in T ==> OwnAddrs(T[n]) == {}
  }

  /** One host tracked behind two interfaces that learn routes, and nothing else; the route leads to the second. */
  ghost predicate SeenTwice(s: State, lan1: string, lan2: string, a: Addr) {
    && lan1 in s.table && lan2 in s.table && 0 !in {s.table[lan1].ifindex, s.table[lan2].ifindex}
    && s.table[lan1].ifindex != s.table[lan2].ifindex && s.table[lan1].learnRoutes && s.table[lan2].learnRoutes
    && s.mirrored == {Key(a, s.table[lan1].ifindex), Key(a, s.table[lan2].ifindex)} && !a.IsLinkLocalUnicast()
    && Route(a, s.table[lan2].ifindex, OUR_METRIC) in s.kernel.routes
    && UniqueIndexes(s) && NoOwnAddrs(s.table) && s.kernel.refuse == NO_REFUSAL
  }

  lemma SeenTwiceNeverHeals(s: State, lan1: string, lan2: string, a: Addr, todo: seq<Target>)
    requires SeenTwice(s, lan1, lan2, a) && ReconcileOrder(s, todo)
    ensures !Healed(s.(kernel := ReconcileKernel(s, todo)))
  {
    hide ReconcileOrder, ReconcileKernel, Healed;
    var t, u := Target(a, lan1), Target(a, lan2);
    assert IsTarget(s, t) && IsTarget(s, u) && RouteFor(s.table, t) != RouteFor(s.table, u);
    ReconcileHealsIff(s, todo);
  }

  lemma SeenTwiceLosesRoute(s: State, lan1: string, lan2: string, a: Addr)
    requires SeenTwice(s, lan1, lan2, a)
    ensures
      var back := [Target(a, lan2), Target(a, lan1)];
      ReconcileOrder(s, back)
      && Route(a, s.table[lan2].ifindex, OUR_METRIC) in s.kernel.routes - ReconcileKernel(s, back).routes
  {
    var back := [Target(a, lan2), Target(a, lan1)];
    assert ReconcileOrder(s, back) by {
      assert Target(a, lan1) in back && Target(a, lan2) in back;
    }
    var rest := back[1..];
    assert rest == [Target(a, lan1)] && rest[1..] == [] && LastAsked(s.table, [], {}, a) == None;
    assert LastAsked(s.table, rest, {}, a) == RouteFor(s.table, Target(a, lan1));
    assert LastAsked(s.table, back, {}, a) == RouteFor(s.table, Target(a, lan1));
    hide ReconcileOrder, ReconcileKernel;
    LastTaken(s, back, Route(a, s.table[lan2].ifindex, OUR_METRIC));
  }

  /** A host that is resolved for the first time on an interface that relays and learns routes. */
  lemma FirstSeen(s: State, i: Iface, a: Addr)
    requires i.ndp.Relay? && i.learnRoutes && a.V6? && Mirrorable(a) && s.kernel.refuse == NO_REFUSAL
    requires Key(a, i.ifindex) !in s.mirrored
    ensures
      var s2 := HandleNeigh(s, i, a, Reachable);
      && s2.table == s.table && s2.mirrored == s.mirrored + {Key(a, i.ifindex)}
      && s2.kernel.refuse == NO_REFUSAL && Route(a, i.ifindex, OUR_METRIC) in s2.kernel.routes
  {
    hide Addr.IsLoopback, Addr.IsMulticast;
    assert KeysOf({a}, i.ifindex) == {Key(a, i.ifindex)};
    assert a in Routable({a});
  }

  /**
   * Two targets at work against each other: once a host has shown up behind two slaves, no reconcile restores
   * everything, whatever its order, and one that ends with the first slave takes the second slave's route away.
   */
  lemma SharedAddressNeverHeals(s: State, lan1: string, lan2: string, a: Addr, todo: seq<Target>)
    requires s.mirrored == {} && AllRelay(s.table) && s.kernel.refuse == NO_REFUSAL
    requires UniqueIndexes(s) && NoOwnAddrs(s.table) && a.V6? && Mirrorable(a)
    requires lan1 in s.table && lan2 in s.table
    requires s.table[lan1].ifindex != s.table[lan2].ifindex && 0 !in {s.table[lan1].ifindex, s.table[lan2].ifindex}
    ensures
      var s2 := HandleNeigh(HandleNeigh(s, s.table[lan1], a, Reachable), s.table[lan2], a, Reachable);
      var back := [Target(a, lan2), Target(a, lan1)];
      && (ReconcileOrder(s2, todo) ==> !Healed(s2.(kernel := ReconcileKernel(s2, todo))))
      && ReconcileOrder(s2, back)
      && Route(a, s.table[lan2].ifindex, OUR_METRIC) in s2.kernel.routes - ReconcileKernel(s2, back).routes
  {
    hide OwnAddrs, HandleNeigh;
    var s1 := HandleNeigh(s, s.table[lan1], a, Reachable);
    var s2 := HandleNeigh(s1, s.table[lan2], a, Reachable);
    FirstSeen(s, s.table[lan1], a);
    FirstSeen(s1, s.table[lan2], a);
    assert SeenTwice(s2, lan1, lan2, a);
    hide SeenTwice, ReconcileOrder, ReconcileKernel, Healed;
    if ReconcileOrder(s2, todo) { SeenTwiceNeverHeals(s2, lan1, lan2, a, todo); }
    SeenTwiceLosesRoute(s2, lan1, lan2, a);
  }

  /** An owned route is gone after a reconcile that asks for another one to its address last. */
  lemma LastTaken(s: State, todo: seq<Target>, r: Route)
    requires Known(s.table, todo) && r.metric == OUR_METRIC
    requires LastAsked(s.table, todo, s.kernel.refuse.add.routes, r.addr) !in {None, Some(r)}
    ensures r !in ReconcileKernel(s, todo).routes
  {
    AddTargetsRoutes(SetFlags(s.kernel, NdpIfnames(s.table)), s.table, todo, r);
  }
}

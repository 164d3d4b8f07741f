/** What every engine step keeps: sockets fit their interface, handles and tokens have one owner, caches agree. */
module Lifecycle {
  import opened Common
  import opened Addresses
  import opened KernelModel
  import opened Model
  import opened Services
  import opened LinkLocal
  import opened Mirror
  import opened Daemon
  import opened Ownership

  /** A socket is held only by a running interface that relays the service, and fits its index and role. */
  predicate SocketsFit(i: Iface) {
    && (i.router.Some? ==> i.running && i.ra.Relay? && i.router.value.ifindex == i.ifindex
                           && i.router.value.allNodes == i.master)
    && (i.dhcp.Some? ==> i.running && i.dhcpv6.Relay? && i.dhcp.value.ifindex == i.ifindex)
    && (i.nd.Some? ==> i.running && i.ndp.Relay? && i.nd.value.ifindex == i.ifindex)
  }

  ghost predicate Owned(s: State) {
    HandlesOwned(s.table, s.os) && TokensOwned(s.table, s.os)
  }

  ghost predicate Settled(s: State, n: string)
    requires n in s.table
  {
    SocketsFit(s.table[n]) && SolicitOk(s.table[n], s.os)
  }

  /** At most one reconcile is pending, and the flag tells whether one is. */
  predicate WakeOk(s: State) {
    s.wakeTimers + s.wakeQueued == if s.scheduled then 1 else 0
  }

  ghost predicate CachesAgree(s: State) {
    forall n :: n in s.table ==> CacheAgrees(s.table[n].cache)
  }

  ghost predicate Inv(s: State) {
    Owned(s) && CachesAgree(s) && WakeOk(s) && forall n :: n in s.table ==> Settled(s, n)
  }

  /** What the configuration phase of a reload keeps; sockets may not fit until the final pass. */
  ghost predicate Steady(s: State) {
    Owned(s) && CachesAgree(s) && WakeOk(s)
  }

  // ---------- one interface at a time ----------

  /** Only the sockets and tokens of interface `n` changed, besides mirrored hosts and the kernel. */
  ghost predicate Redone(s: State, n: string, s2: State) {
    && n in s.table && n in s2.table && s2.table == s.table[n := s2.table[n]]
    && Exchanged(s.table[n], s.os, s2.table[n], s2.os)
    && s2.scheduled == s.scheduled && s2.wakeTimers == s.wakeTimers && s2.wakeQueued == s.wakeQueued
  }

  lemma RedoneTwice(s: State, n: string, s2: State, s3: State)
    requires Redone(s, n, s2) && Redone(s2, n, s3)
    ensures Redone(s, n, s3)
  {
    ExchangeTwice(s.table[n], s.os, s2.table[n], s2.os, s3.table[n], s3.os);
  }

  lemma RedoneKeeps(s: State, n: string, s2: State)
    requires Owned(s) && Redone(s, n, s2)
    ensures Owned(s2)
    ensures CachesAgree(s) ==> CachesAgree(s2)
    ensures forall m :: m in s.table && m != n && Settled(s, m) ==> Settled(s2, m)
  {
    SwapKeepsOwned(s.table, s.os, n, s2.table[n], s2.os);
    TurnKeepsOwned(s.table, s.os, n, s2.table[n], s2.os);
    forall m | m in s.table && m != n && Settled(s, m)
      ensures Settled(s2, m)
    {
      var tok := Token(s.table[m].id, s.table[m].rsTimerN);
      assert s2.os.sent[tok] == s.os.sent[tok] && Pending(s2.os, tok) == Pending(s.os, tok);
    }
  }

  lemma SetupRouterRedone(s: State, n: string, enable: bool, fault: RouterFault)
    requires Owned(s) && n in s.table
    ensures Redone(s, n, SetupRouter(s, n, enable, fault))
  {
    RouterSetupSwaps(s.table[n], s.os, enable, fault);
    RouterSetupTurns(s.table[n], s.os, enable, fault);
  }

  lemma SetupDhcpRedone(s: State, n: string, enable: bool, fault: DhcpFault)
    requires Owned(s) && n in s.table
    ensures Redone(s, n, SetupDhcp(s, n, enable, fault))
  {
    DhcpSetupSwaps(s.table[n], s.os, enable, fault);
  }

  lemma SetupNdpRedone(s: State, n: string, enable: bool, fault: NdpFault, listed: bool)
    requires Owned(s) && n in s.table
    ensures Redone(s, n, SetupNdp(s, n, enable, fault, listed))
  {
    NdpSetupSwaps(s.table[n], s.os, s.kernel, enable, fault);
  }

  /** Three setups in a row, whatever each is asked to do. */
  lemma SetupsRedone(s: State, n: string, r: bool, rf: RouterFault, d: bool, df: DhcpFault,
                     p: bool, pf: NdpFault, listed: bool)
    requires Owned(s) && n in s.table
    ensures
      var s1 := SetupRouter(s, n, r, rf);
      var s2 := SetupDhcp(s1, n, d, df);
      Redone(s, n, SetupNdp(s2, n, p, pf, listed))
  {
    var s1 := SetupRouter(s, n, r, rf);
    var s2 := SetupDhcp(s1, n, d, df);
    SetupRouterRedone(s, n, r, rf);
    RedoneKeeps(s, n, s1);
    SetupDhcpRedone(s1, n, d, df);
    RedoneKeeps(s1, n, s2);
    SetupNdpRedone(s2, n, p, pf, listed);
    RedoneTwice(s, n, s1, s2);
    RedoneTwice(s, n, s2, SetupNdp(s2, n, p, pf, listed));
  }

  lemma DisableServicesRedone(s: State, n: string)
    requires Owned(s) && n in s.table
    ensures Redone(s, n, DisableServices(s, n))
    ensures Held(DisableServices(s, n).table[n]) == {}
    ensures Settled(DisableServices(s, n), n)
  {
    SetupsRedone(s, n, false, RNone, false, DNone, false, NNone, true);
  }

  /** Each setup leaves the other two services' sockets and their fit alone. */
  lemma SetupsFit(s: State, n: string, f: Faults)
    requires Owned(s) && n in s.table && s.table[n].running
    ensures SocketsFit(ReloadServices(s, n, f).table[n])
  {
    var i := s.table[n];
    var r := RouterSetup(i, s.os, !i.ra.Disabled?, f.router);
    var d := DhcpSetup(r.i, r.os, !i.dhcpv6.Disabled?, f.dhcp);
    var p := NdpSetup(d.i, d.os, s.kernel, !i.ndp.Disabled?, f.ndp);
    assert ReloadServices(s, n, f).table[n] == p.i;
    assert p.i.router == r.i.router && p.i.dhcp == d.i.dhcp;
  }

  lemma SetupsSolicit(s: State, n: string, f: Faults)
    requires Owned(s) && n in s.table && s.table[n].running
    ensures SolicitOk(ReloadServices(s, n, f).table[n], ReloadServices(s, n, f).os)
  {
    var i := s.table[n];
    var r := RouterSetup(i, s.os, !i.ra.Disabled?, f.router);
    var d := DhcpSetup(r.i, r.os, !i.dhcpv6.Disabled?, f.dhcp);
    var p := NdpSetup(d.i, d.os, s.kernel, !i.ndp.Disabled?, f.ndp);
    assert ReloadServices(s, n, f).table[n] == p.i && ReloadServices(s, n, f).os == p.os;
    RouterSetupSolicits(i, s.os, !i.ra.Disabled?, f.router);
    assert p.i.router == r.i.router && SameSolicits(p.i, r.i);
  }

  /** Whatever state the interface was in, restarting its services settles it. */
  lemma ReloadServicesRedone(s: State, n: string, f: Faults)
    requires Owned(s) && n in s.table
    ensures Redone(s, n, ReloadServices(s, n, f))
    ensures Settled(ReloadServices(s, n, f), n)
  {
    if s.table[n].running {
      var s1 := SetupRouter(s, n, !s.table[n].ra.Disabled?, f.router);
      var s2 := SetupDhcp(s1, n, !s1.table[n].dhcpv6.Disabled?, f.dhcp);
      SetupsRedone(s, n, !s.table[n].ra.Disabled?, f.router, !s1.table[n].dhcpv6.Disabled?, f.dhcp,
                   !s2.table[n].ndp.Disabled?, f.ndp, f.neighsListed);
      SetupsFit(s, n, f);
      SetupsSolicit(s, n, f);
    } else {
      DisableServicesRedone(s, n);
    }
  }

  // ---------- configuration changes ----------

  /** Same sockets, same solicitation bookkeeping, same identity; configuration and cache are free. */
  predicate SameSockets(i: Iface, j: Iface) {
    j.id == i.id && j.router == i.router && j.dhcp == i.dhcp && j.nd == i.nd && SameSolicits(i, j)
  }

  ghost predicate SameSocketsAll(T: Table, U: Table) {
    T.Keys == U.Keys && forall n :: n in T ==> SameSockets(T[n], U[n])
  }

  lemma ReconfigureKeepsHandles(T: Table, U: Table, os: Os)
    requires HandlesOwned(T, os) && SameSocketsAll(T, U)
    ensures HandlesOwned(U, os)
  {
    forall n | n in U ensures Held(U[n]) == Held(T[n]) && Separate(U[n]) {
      assert SameSockets(T[n], U[n]);
    }
    forall h | h in os.open ensures exists n :: n in U && h in Held(U[n]) {
      var n :| n in T && h in Held(T[n]);
      assert h in Held(U[n]);
    }
  }

  lemma ReconfigureKeepsTokens(T: Table, U: Table, os: Os)
    requires TokensOwned(T, os) && SameSocketsAll(T, U)
    ensures TokensOwned(U, os)
  {
    forall n | n in U ensures U[n].id == T[n].id && Tokens(U[n], os) {
      assert SameSockets(T[n], U[n]) && Tokens(T[n], os);
    }
  }

  lemma ReconfigureKeeps(s: State, s2: State)
    requires Owned(s) && s2.os == s.os && SameSocketsAll(s.table, s2.table)
    ensures Owned(s2)
  {
    ReconfigureKeepsHandles(s.table, s2.table, s.os);
    ReconfigureKeepsTokens(s.table, s2.table, s.os);
  }

  /** Interface `n` gets a new configuration or cache. */
  ghost predicate Replaced(s: State, n: string, j: Iface, s2: State) {
    && n in s.table && SameSockets(s.table[n], j) && s2.table == s.table[n := j] && s2.os == s.os
    && s2.scheduled == s.scheduled && s2.wakeTimers == s.wakeTimers && s2.wakeQueued == s.wakeQueued
  }

  lemma ReplaceKeepsOwned(s: State, n: string, j: Iface, s2: State)
    requires Owned(s) && Replaced(s, n, j, s2)
    ensures Owned(s2)
  {
    forall m | m in s.table ensures SameSockets(s.table[m], s2.table[m]) { }
    ReconfigureKeeps(s, s2);
  }

  lemma ReplaceKeepsSettled(s: State, n: string, j: Iface, s2: State)
    requires Replaced(s, n, j, s2)
    ensures forall m :: m in s.table && m != n && Settled(s, m) ==> Settled(s2, m)
    ensures Held(j) == {} || (Settled(s, n) && j.conf == s.table[n].conf) ==> Settled(s2, n)
  {
    forall m | m in s.table && m != n && Settled(s, m) ensures Settled(s2, m) {
      assert s2.table[m] == s.table[m];
    }
  }

  lemma ReplaceKeepsSteady(s: State, n: string, j: Iface, s2: State)
    requires Steady(s) && Replaced(s, n, j, s2) && CacheAgrees(j.cache)
    ensures Steady(s2)
  {
    ReplaceKeepsOwned(s, n, j, s2);
  }

  lemma RedoneKeepsSteady(s: State, n: string, s2: State)
    requires Steady(s) && Redone(s, n, s2)
    ensures Steady(s2)
    ensures forall m :: m in s.table && m != n && Settled(s, m) ==> Settled(s2, m)
  {
    RedoneKeeps(s, n, s2);
  }

  lemma DetachRedone(s: State, n: string)
    requires Owned(s) && n in s.table
    ensures Redone(s, n, Detach(s, n)) && Held(Detach(s, n).table[n]) == {}
  {
    DisableServicesRedone(s, n);
  }

  ghost predicate OthersSettled(s: State, n: string) {
    forall m :: m in s.table && m != n ==> Settled(s, m)
  }

  lemma RestartSettles(s: State, n: string, f: Faults)
    requires Steady(s) && n in s.table && OthersSettled(s, n)
    ensures Inv(ReloadServices(s, n, f))
  {
    ReloadServicesRedone(s, n, f);
    RedoneKeepsSteady(s, n, ReloadServices(s, n, f));
  }

  lemma RunningChangeKeeps(s: State, n: string, index: int, running: bool, addrs: seq<IPAddr>, f: Faults)
    requires Inv(s) && n in s.table && s.table[n].ifindex == index
    ensures Inv(HandleLink(s, n, NewLink(index, running), addrs, f))
  {
    hide Owned, Exchanged, ReloadServices;
    var i := WithRunning(s.table[n], running);
    if s.table[n].running == running {
      var s2 := s.(table := s.table[n := i]);
      assert i.conf == s.table[n].conf;
      ReplaceKeepsSteady(s, n, i, s2);
      ReplaceKeepsSettled(s, n, i, s2);
    } else {
      var i1 := if running then Refresh(i, addrs) else i;
      var s1 := s.(table := s.table[n := i1]);
      ReplaceKeepsSteady(s, n, i1, s1);
      ReplaceKeepsSettled(s, n, i1, s1);
      RestartSettles(s1, n, f);
    }
  }

  /** An interface that lost its sockets gets a new configuration: everything is settled. */
  lemma DetachedKeeps(s: State, n: string, s1: State, j: Iface, s2: State)
    requires Steady(s) && OthersSettled(s, n) && Redone(s, n, s1) && Held(s1.table[n]) == {}
    requires Replaced(s1, n, j, s2) && CacheAgrees(j.cache)
    ensures Inv(s2)
  {
    RedoneKeepsSteady(s, n, s1);
    ReplaceKeepsSteady(s1, n, j, s2);
    ReplaceKeepsSettled(s1, n, j, s2);
  }

  lemma DelLinkKeeps(s: State, n: string, index: int, addrs: seq<IPAddr>, f: Faults)
    requires Inv(s) && n in s.table
    ensures Inv(HandleLink(s, n, DelLink(index), addrs, f))
  {
    hide Owned, Settled, Exchanged, Detach;
    if s.table[n].ifindex == index {
      var s1 := Detach(s, n);
      DetachRedone(s, n);
      DetachedKeeps(s, n, s1, Gone(s1.table[n]), s1.(table := s1.table[n := Gone(s1.table[n])]));
    }
  }

  lemma NewIndexKeeps(s: State, n: string, index: int, running: bool, addrs: seq<IPAddr>, f: Faults)
    requires Inv(s) && n in s.table && s.table[n].ifindex != index
    ensures Inv(HandleLink(s, n, NewLink(index, running), addrs, f))
  {
    hide Owned, Settled, Exchanged, Detach, ReloadServices;
    var s1 := Detach(s, n);
    DetachRedone(s, n);
    var i1 := Refresh(Attach(s1.table[n], s1.table[n].ifname, Link(index, running)), addrs);
    var s2 := s1.(table := s1.table[n := i1]);
    DetachedKeeps(s, n, s1, i1, s2);
    RestartSettles(s2, n, f);
  }

  // ---------- reload ----------

  lemma CreateKeepsHandles(T: Table, os: Os, n: string, i: Iface, id: nat)
    requires HandlesOwned(T, os) && n !in T && Held(i) == {} && Separate(i)
    ensures HandlesOwned(T[n := i], os.(nextId := id))
  {
    var U := T[n := i];
    forall h | h in os.open ensures exists m :: m in U && h in Held(U[m]) {
      var m :| m in T && h in Held(T[m]);
      assert h in Held(U[m]);
    }
  }

  /** A new interface gets an identity that no token refers to. */
  lemma CreateKeepsTokens(T: Table, os: Os, n: string, i: Iface)
    requires TokensOwned(T, os) && n !in T && i.id == os.nextId
    ensures TokensOwned(T[n := i], os.(nextId := os.nextId + 1))
  {
    var os2 := os.(nextId := os.nextId + 1);
    forall m | m in T ensures Tokens(T[m], os2) {
      assert Tokens(T[m], os);
    }
    assert Tokens(i, os2);
  }

  lemma CreateKeeps(s: State, n: string)
    requires Steady(s) && n !in s.table
    ensures Steady(FindOrCreate(s, n))
  {
    var i := Defaults(FreshIface(n, s.os.nextId));
    assert Held(i) == {};
    CreateKeepsHandles(s.table, s.os, n, i, s.os.nextId + 1);
    CreateKeepsTokens(s.table, s.os, n, i);
  }

  lemma MovedKeeps(s: State, n: string, newIfname: string, link: Link, addrs: seq<IPAddr>)
    requires Steady(s) && n in s.table
    ensures Steady(Moved(s, n, newIfname, link, addrs))
  {
    hide Detach, Owned, CachesAgree;
    var i := s.table[n];
    var s2 := if i.ifindex != 0 && (i.ifname != newIfname || i.ifindex != link.index) then Detach(s, n) else s;
    assert Owned(s);
    DetachRedone(s, n);
    RedoneKeepsSteady(s, n, Detach(s, n));
    ReplaceKeepsSteady(s2, n, Refresh(Attach(s2.table[n], newIfname, link), addrs), Moved(s, n, newIfname, link, addrs));
  }

  /** Parsing touches nothing but the entry's own sockets, which go when the netdev changes. */
  lemma ParseKeeps(s: State, e: Entry)
    requires Steady(s)
    ensures Steady(Parse(s, e))
  {
    hide Steady, Moved;
    var n := e.name;
    var s1 := FindOrCreate(s, n);
    if n !in s.table { CreateKeeps(s, n); }
    if !Rejected(s1.table[n], e) { AcceptedKeeps(s1, e); }
  }

  lemma AcceptedKeeps(s: State, e: Entry)
    requires Steady(s) && e.name in s.table && (e.json.ifname.Some? ==> e.link.Some?)
    ensures Steady(Accepted(s, e))
  {
    hide Moved, Owned, WakeOk;
    var n := e.name;
    var s2 := if e.json.ifname.None? then s else Moved(s, n, e.json.ifname.value, e.link.value, e.addrs);
    if e.json.ifname.Some? { MovedKeeps(s, n, e.json.ifname.value, e.link.value, e.addrs); }
    assert CacheAgrees(s2.table[n].cache);
    ReplaceKeepsSteady(s2, n, Options(s2.table[n], e.json), Accepted(s, e));
  }

  lemma {:induction false} ParseAllKeeps(s: State, cfg: seq<Entry>)
    requires Steady(s)
    ensures Steady(ParseAll(s, cfg))
    decreases |cfg|
  {
    if cfg != [] {
      ParseKeeps(s, cfg[0]);
      ParseAllKeeps(Parse(s, cfg[0]), cfg[1..]);
    }
  }

  lemma ResetKeeps(s: State)
    requires Steady(s)
    ensures Steady(ResetAll(s))
  {
    forall n | n in s.table ensures SameSockets(s.table[n], ResetAll(s).table[n]) { }
    ReconfigureKeeps(s, ResetAll(s));
  }

  lemma IdleKeeps(s: State)
    requires Steady(s)
    ensures Steady(DisableIdleMasters(s))
  {
    forall n | n in s.table ensures SameSockets(s.table[n], DisableIdleMasters(s).table[n]) { }
    ReconfigureKeeps(s, DisableIdleMasters(s));
  }

  lemma ConfigureKeeps(s: State, cfg: seq<Entry>)
    requires Steady(s)
    ensures Steady(Configure(s, cfg))
  {
    ResetKeeps(s);
    ParseAllKeeps(ResetAll(s), cfg);
    IdleKeeps(ParseAll(ResetAll(s), cfg));
  }

  lemma StopTimerRedone(s: State, n: string, t: Svc)
    requires Owned(s) && n in s.table && t == StopTimer(s.table[n], s.os)
    ensures Redone(s, n, s.(table := s.table[n := t.i], os := t.os)) && Held(t.i) == Held(s.table[n])
  {
    StopTimerSwaps(s.table[n], s.os);
    StopTimerTurns(s.table[n], s.os);
  }

  lemma DisabledThenForgotten(s: State, n: string, s1: State, s2: State)
    requires Steady(s) && Redone(s, n, s1) && Redone(s1, n, s2) && Held(s2.table[n]) == {}
    ensures
      var s3 := s2.(table := s2.table - {n});
      Steady(s3) && s3.table.Keys == s.table.Keys - {n}
      && forall m :: m in s.table && m != n && Settled(s, m) ==> Settled(s3, m)
  {
    hide Owned, Settled, Exchanged, CachesAgree;
    RedoneKeepsSteady(s, n, s1);
    RedoneKeepsSteady(s1, n, s2);
    ForgetKeeps(s2, n);
  }

  lemma CloseInterfaceKeeps(s: State, n: string)
    requires Steady(s) && n in s.table
    ensures Steady(CloseInterface(s, n))
    ensures CloseInterface(s, n).table.Keys == s.table.Keys - {n}
    ensures forall m :: m in s.table && m != n && Settled(s, m) ==> Settled(CloseInterface(s, n), m)
  {
    hide Owned, Settled, Exchanged, CachesAgree, DisableServices;
    var s1 := DisableServices(s, n);
    DisableServicesRedone(s, n);
    var t := StopTimer(s1.table[n], s1.os);
    var s2 := s1.(table := s1.table[n := t.i], os := t.os);
    RedoneKeepsSteady(s, n, s1);
    StopTimerRedone(s1, n, t);
    DisabledThenForgotten(s, n, s1, s2);
    assert CloseInterface(s, n) == s2.(table := s2.table - {n}) by {
      assert s1.table - {n} == s2.table - {n};
    }
  }

  lemma ForgetKeeps(s: State, n: string)
    requires Steady(s) && n in s.table && Held(s.table[n]) == {}
    ensures Steady(s.(table := s.table - {n}))
    ensures forall m :: m in s.table && m != n && Settled(s, m) ==> Settled(s.(table := s.table - {n}), m)
  {
    ForgettingKeepsHandles(s.table, s.os, n);
  }

  /** The final pass settles or forgets the interface it visits and leaves the others as they are. */
  lemma RestartOneKeeps(s: State, r: Restart)
    requires Steady(s) && r.name in s.table
    ensures Steady(RestartOne(s, r))
    ensures s.table.Keys - {r.name} <= RestartOne(s, r).table.Keys <= s.table.Keys
    ensures r.name in RestartOne(s, r).table ==> Settled(RestartOne(s, r), r.name)
    ensures forall m :: m in s.table && m != r.name && Settled(s, m) ==> Settled(RestartOne(s, r), m)
  {
    if s.table[r.name].inuse {
      ReloadServicesRedone(s, r.name, r.faults);
      RedoneKeepsSteady(s, r.name, RestartOne(s, r));
    } else {
      CloseInterfaceKeeps(s, r.name);
    }
  }

  /** Every interface not yet visited by the final pass may be unsettled, no other. */
  ghost predicate Unvisited(s: State, names: seq<string>) {
    && Distinct(names)
    && (forall k :: 0 <= k < |names| ==> names[k] in s.table)
    && (forall n :: n in s.table && n !in names ==> Settled(s, n))
  }

  lemma VisitSettles(s: State, s2: State, names: seq<string>)
    requires Unvisited(s, names) && names != []
    requires s.table.Keys - {names[0]} <= s2.table.Keys <= s.table.Keys
    requires names[0] in s2.table ==> Settled(s2, names[0])
    requires forall m :: m in s.table && m != names[0] && Settled(s, m) ==> Settled(s2, m)
    ensures Unvisited(s2, names[1..])
  {
    forall k | 0 <= k < |names[1..]| ensures names[1..][k] in s2.table {
      assert names[1..][k] == names[k + 1] && names[k + 1] != names[0];
    }
    forall n | n in s2.table && n !in names[1..] ensures Settled(s2, n) {
      if n != names[0] {
        assert forall k :: 0 < k < |names| ==> names[k] == names[1..][k - 1];
        assert n !in names;
      }
    }
  }

  lemma {:induction false} RestartAllSettles(s: State, order: seq<Restart>)
    requires Steady(s) && Unvisited(s, RestartNames(order))
    ensures Inv(RestartAll(s, order))
    decreases |order|
  {
    var names := RestartNames(order);
    if order != [] {
      assert names[0] == order[0].name && names[1..] == RestartNames(order[1..]);
      RestartOneKeeps(s, order[0]);
      VisitSettles(s, RestartOne(s, order[0]), names);
      RestartAllSettles(RestartOne(s, order[0]), order[1..]);
    }
  }

  lemma ReloadKeeps(s: State, cfg: seq<Entry>, order: seq<Restart>)
    requires Inv(s) && Enabled(s, EvReload(cfg, order))
    ensures Inv(Reload(s, cfg, order))
  {
    var names := RestartNames(order);
    ConfigureKeeps(s, cfg);
    assert forall k :: 0 <= k < |names| ==> names[k] in Elements(names);
    RestartAllSettles(Configure(s, cfg), order);
  }

  // ---------- solicitation timers ----------

  /** Two runtimes that differ at most in what they say about one token. */
  ghost predicate OnlyToken(tok: Token, os: Os, os2: Os) {
    && os2.next == os.next && os2.issued == os.issued && os2.open == os.open && os2.closed == os.closed
    && os2.nextId == os.nextId
    && forall t: Token :: t != tok ==>
         os2.timers[t] == os.timers[t] && os2.queued[t] == os.queued[t] && os2.sent[t] == os.sent[t]
  }

  /** The token of interface `n` is used or re-armed: nothing else is disturbed. */
  lemma TokenKeepsTokens(T: Table, os: Os, n: string, j: Iface, os2: Os, tok: Token)
    requires TokensOwned(T, os) && n in T && tok.id == T[n].id && tok.gen <= T[n].rsTimerN
    requires OnlyToken(tok, os, os2) && j.id == T[n].id && j.rsTimerN == T[n].rsTimerN
    requires os2.timers[tok] + os2.queued[tok] <= 1 && os2.sent[tok] <= 3
    ensures TokensOwned(T[n := j], os2)
  {
    hide Held, Separate;
    var U := T[n := j];
    forall t: Token
      ensures os2.timers[t] + os2.queued[t] <= 1 && os2.sent[t] <= 3
              && (Pending(os2, t) || t in os2.sent ==> t.id < os2.nextId)
    {
      if t != tok { assert Pending(os2, t) == Pending(os, t) && (t in os2.sent <==> t in os.sent); }
    }
    hide HandlesOwned;
    forall m | m in U ensures Tokens(U[m], os2) {
      assert Tokens(T[m], os);
      forall t: Token | t.id == U[m].id && t != tok
        ensures Pending(os2, t) || t in os2.sent ==> t.gen <= U[m].rsTimerN
      {
        assert Pending(os2, t) == Pending(os, t) && (t in os2.sent <==> t in os.sent);
      }
    }
  }

  lemma TokenKeepsHandles(T: Table, os: Os, n: string, j: Iface, os2: Os, tok: Token)
    requires HandlesOwned(T, os) && n in T && OnlyToken(tok, os, os2)
    requires j.router == T[n].router && j.dhcp == T[n].dhcp && j.nd == T[n].nd
    ensures HandlesOwned(T[n := j], os2)
  {
    UntouchedSwaps(T[n], os, j, os2);
    SwapKeepsOwned(T, os, n, j, os2);
  }

  /** What a closure may do to its interface. */
  ghost predicate FiredIface(i: Iface, j: Iface) {
    && j.conf == i.conf && j.router == i.router && j.dhcp == i.dhcp && j.nd == i.nd && j.rsTimerN == i.rsTimerN
    && (j.cache == i.cache || j.cache == Searched(i.cache))
  }

  /** A closure without successor yet: its token is out of the runtime. */
  ghost predicate Popped(tok: Token, os: Os, os1: Os) {
    tok in os.queued && os1 == os.(queued := os.queued - multiset{tok})
  }

  lemma SolicitEffect(i: Iface, os: Os, os1: Os, gen: nat, sendOk: bool)
    requires Tokens(i, os) && SolicitOk(i, os) && Current(i, gen) && Popped(Token(i.id, gen), os, os1)
    ensures OnlyToken(Token(i.id, gen), os, Solicit(i, os1, gen, sendOk).os)
    ensures FiredIface(i, Solicit(i, os1, gen, sendOk).i)
    ensures SolicitOk(Solicit(i, os1, gen, sendOk).i, Solicit(i, os1, gen, sendOk).os)
    ensures var os2 := Solicit(i, os1, gen, sendOk).os;
            os2.timers[Token(i.id, gen)] + os2.queued[Token(i.id, gen)] <= 1 && os2.sent[Token(i.id, gen)] <= 3
  {
    hide FirstLinkLocal, Searched;
    var tok := Token(i.id, gen);
    assert os.timers[tok] + os.queued[tok] <= 1 && Pending(os, tok);
    assert os.sent[tok] == i.raSent < 3;
  }

  /** One closure of interface `i` runs: at most one more send, never a second pending token. */
  lemma FireEffect(i: Iface, os: Os, os1: Os, gen: nat, sendOk: bool, r: Svc)
    requires Tokens(i, os) && SolicitOk(i, os) && Popped(Token(i.id, gen), os, os1)
    requires r == SolicitFire(i, os1, gen, sendOk)
    ensures OnlyToken(Token(i.id, gen), os, r.os)
    ensures r.os.timers[Token(i.id, gen)] + r.os.queued[Token(i.id, gen)] <= 1
    ensures r.os.sent[Token(i.id, gen)] <= 3
    ensures FiredIface(i, r.i) && SolicitOk(r.i, r.os)
  {
    hide Solicit;
    if Current(i, gen) {
      SolicitEffect(i, os, os1, gen, sendOk);
    } else {
      var cur := Token(i.id, i.rsTimerN);
      assert cur != Token(i.id, gen) ==> Pending(os1, cur) == Pending(os, cur);
    }
  }

  lemma TokenKeepsSettled(s: State, n: string, tok: Token, s2: State)
    requires TokensOwned(s.table, s.os) && n in s.table && tok.id == s.table[n].id && OnlyToken(tok, s.os, s2.os)
    requires n in s2.table && s2.table == s.table[n := s2.table[n]]
    ensures forall m :: m in s.table && m != n && Settled(s, m) ==> Settled(s2, m)
  {
    forall m | m in s.table && m != n && Settled(s, m) ensures Settled(s2, m) {
      var cur := Token(s.table[m].id, s.table[m].rsTimerN);
      assert cur != tok && Pending(s2.os, cur) == Pending(s.os, cur);
    }
  }

  lemma FireKeepsOwned(s: State, tok: Token, n: string, r: Svc)
    requires Owned(s) && n in s.table && tok.id == s.table[n].id && tok in s.os.queued
    requires OnlyToken(tok, s.os, r.os) && FiredIface(s.table[n], r.i)
    requires r.os.timers[tok] + r.os.queued[tok] <= 1 && r.os.sent[tok] <= 3
    ensures Owned(s.(table := s.table[n := r.i], os := r.os))
  {
    assert Tokens(s.table[n], s.os) && Pending(s.os, tok);
    hide HandlesOwned, TokensOwned, OnlyToken;
    TokenKeepsTokens(s.table, s.os, n, r.i, r.os, tok);
    TokenKeepsHandles(s.table, s.os, n, r.i, r.os, tok);
  }

  /** What the closure does to the interface it belongs to, in a state that satisfies the invariant. */
  lemma FireFacts(s: State, tok: Token, n: string, sendOk: bool, r: Svc)
    requires Inv(s) && n in s.table && s.table[n].id == tok.id && tok in s.os.queued
    requires r == SolicitFire(s.table[n], s.os.(queued := s.os.queued - multiset{tok}), tok.gen, sendOk)
    ensures OnlyToken(tok, s.os, r.os) && FiredIface(s.table[n], r.i) && SolicitOk(r.i, r.os) && SocketsFit(r.i)
    ensures r.os.timers[tok] + r.os.queued[tok] <= 1 && r.os.sent[tok] <= 3
    ensures CacheAgrees(r.i.cache)
  {
    assert Settled(s, n) && TokensOwned(s.table, s.os) && CacheAgrees(s.table[n].cache);
    assert Tokens(s.table[n], s.os);
    hide Inv, Tokens, TokensOwned, SolicitOk, SolicitFire, OnlyToken;
    FireEffect(s.table[n], s.os, s.os.(queued := s.os.queued - multiset{tok}), tok.gen, sendOk, r);
  }

  lemma FiredSettled(s: State, tok: Token, n: string, s2: State)
    requires TokensOwned(s.table, s.os) && n in s.table && s.table[n].id == tok.id && OnlyToken(tok, s.os, s2.os)
    requires n in s2.table && s2.table == s.table[n := s2.table[n]]
    requires SolicitOk(s2.table[n], s2.os) && SocketsFit(s2.table[n])
    requires forall m :: m in s.table ==> Settled(s, m)
    ensures forall m :: m in s2.table ==> Settled(s2, m)
  {
    hide OnlyToken, TokensOwned, SolicitOk, SocketsFit;
    TokenKeepsSettled(s, n, tok, s2);
  }

  lemma FiredCaches(s: State, n: string, s2: State)
    requires CachesAgree(s) && n in s2.table && s2.table == s.table[n := s2.table[n]] && CacheAgrees(s2.table[n].cache)
    ensures CachesAgree(s2)
  {
  }

  /** The interface and the token of a closure changed as they may; nothing else did. */
  ghost predicate FiredState(s: State, tok: Token, n: string, r: Svc, s2: State) {
    && n in s.table && s.table[n].id == tok.id && tok in s.os.queued
    && OnlyToken(tok, s.os, r.os) && FiredIface(s.table[n], r.i) && SolicitOk(r.i, r.os) && SocketsFit(r.i)
    && r.os.timers[tok] + r.os.queued[tok] <= 1 && r.os.sent[tok] <= 3 && CacheAgrees(r.i.cache)
    && s2 == s.(table := s.table[n := r.i], os := r.os)
  }

  lemma FiredKeeps(s: State, tok: Token, n: string, r: Svc, s2: State)
    requires Inv(s) && FiredState(s, tok, n, r, s2)
    ensures Inv(s2)
  {
    assert TokensOwned(s.table, s.os);
    hide OnlyToken, HandlesOwned, TokensOwned, Settled, SolicitOk, SocketsFit, CachesAgree, CacheAgrees, FiredIface;
    FireKeepsOwned(s, tok, n, r);
    FiredSettled(s, tok, n, s2);
    FiredCaches(s, n, s2);
    hide Owned;
  }

  lemma FireKeeps(s: State, tok: Token, n: string, sendOk: bool)
    requires Inv(s) && n in s.table && s.table[n].id == tok.id && tok in s.os.queued
    ensures Inv(RunSolicit(s, tok, Some(n), sendOk))
  {
    hide Inv, SolicitFire, OnlyToken, SolicitOk, SocketsFit, CacheAgrees, FiredIface;
    var r := SolicitFire(s.table[n], s.os.(queued := s.os.queued - multiset{tok}), tok.gen, sendOk);
    FireFacts(s, tok, n, sendOk, r);
    FiredKeeps(s, tok, n, r, RunSolicit(s, tok, Some(n), sendOk));
  }

  lemma RunSolicitKeeps(s: State, tok: Token, n: Option<string>, sendOk: bool)
    requires Inv(s) && Enabled(s, EvSolicit(tok, n, sendOk))
    ensures Inv(RunSolicit(s, tok, n, sendOk))
  {
    hide Inv;
    match n {
      case None => LateClosureKeeps(s, tok);
      case Some(name) => FireKeeps(s, tok, name, sendOk);
    }
  }

  /** A closure of an interface that left the table does nothing. */
  lemma LateClosureKeeps(s: State, tok: Token)
    requires Inv(s) && forall m :: m in s.table ==> s.table[m].id != tok.id
    ensures Inv(s.(os := s.os.(queued := s.os.queued - multiset{tok})))
  {
    var s2 := s.(os := s.os.(queued := s.os.queued - multiset{tok}));
    assert HandlesOwned(s2.table, s2.os);
    forall m | m in s2.table ensures Tokens(s2.table[m], s2.os) && Settled(s2, m) {
      assert Tokens(s.table[m], s.os) && Settled(s, m);
      var cur := Token(s.table[m].id, s.table[m].rsTimerN);
      assert Pending(s2.os, cur) == Pending(s.os, cur);
    }
  }

  /** Tokens move between timers and queue; nothing else changes. */
  ghost predicate TokensMoved(os: Os, os2: Os) {
    && os2.issued == os.issued && os2.open == os.open && os2.closed == os.closed && os2.next == os.next
    && os2.nextId == os.nextId && os2.sent == os.sent
    && forall t: Token :: Pending(os2, t) == Pending(os, t)
                          && os2.timers[t] + os2.queued[t] == os.timers[t] + os.queued[t]
  }

  lemma MovedKeepsTokens(T: Table, os: Os, os2: Os)
    requires TokensOwned(T, os) && TokensMoved(os, os2)
    ensures TokensOwned(T, os2)
  {
    forall n | n in T ensures Tokens(T[n], os2) { assert Tokens(T[n], os); }
  }

  lemma MovedKeepsHandles(T: Table, os: Os, os2: Os)
    requires HandlesOwned(T, os) && TokensMoved(os, os2)
    ensures HandlesOwned(T, os2)
  {
    hide Held, Separate;
  }

  lemma ExpiryKeeps(s: State, tok: Token)
    requires Inv(s) && tok in s.os.timers
    ensures Inv(Expire(s, tok))
  {
    var s2 := Expire(s, tok);
    assert TokensMoved(s.os, s2.os) by { hide Inv; }
    assert s2 == s.(os := s2.os);
    MovedKeepsTokens(s.table, s.os, s2.os);
    MovedKeepsHandles(s.table, s.os, s2.os);
    hide HandlesOwned, TokensOwned, TokensMoved, Settled, CacheAgrees;
    MovedKeepsSettled(s, s2);
  }

  lemma MovedKeepsSettled(s: State, s2: State)
    requires s2.table == s.table && TokensMoved(s.os, s2.os) && forall m :: m in s.table ==> Settled(s, m)
    ensures forall m :: m in s2.table ==> Settled(s2, m)
  {
    forall m | m in s2.table ensures Settled(s2, m) { assert Settled(s, m); }
  }

  // ---------- every step, every run ----------

  /** Steps that touch neither the table nor the runtime. */
  lemma UntouchedKeeps(s: State, s2: State)
    requires Inv(s) && s2.table == s.table && s2.os == s.os && WakeOk(s2)
    ensures Inv(s2)
  {
    assert forall n :: n in s.table ==> Settled(s, n);
  }

  lemma {:induction false} SweepAllUntouched(s: State, visits: seq<Visit>)
    ensures
      var s2 := SweepAll(s, visits);
      s2.table == s.table && s2.os == s.os && s2.scheduled == s.scheduled
      && s2.wakeTimers == s.wakeTimers && s2.wakeQueued == s.wakeQueued
    decreases |visits|
  {
    if visits != [] && visits[0].name in s.table {
      var i := s.table[visits[0].name];
      var s1 := if i.ndp.Relay? then Sweep(s, i, visits[0].neighsListed, visits[0].routesListed) else s;
      SweepAllUntouched(s1, visits[1..]);
    }
  }

  lemma CacheChangeKeeps(s: State, n: string, c: Cache, k: Kernel)
    requires Inv(s) && n in s.table && CacheAgrees(c)
    ensures Inv(s.(table := s.table[n := s.table[n].(cache := c)], kernel := k))
  {
    var j := s.table[n].(cache := c);
    var s2 := s.(table := s.table[n := j], kernel := k);
    ReplaceKeepsSteady(s, n, j, s2);
    ReplaceKeepsSettled(s, n, j, s2);
  }

  lemma {:induction false} PingAllKeeps(s: State, names: seq<string>, target: Addr)
    requires Inv(s)
    ensures Inv(PingAll(s, names, target))
    decreases |names|
  {
    hide Owned, Settled;
    if names != [] && names[0] in s.table {
      var s1 := Ping(s, names[0], target);
      assert CacheAgrees(s.table[names[0]].cache);
      CacheChangeKeeps(s, names[0], s1.table[names[0]].cache, s1.kernel);
      PingAllKeeps(s1, names[1..], target);
    }
  }

  /** Every engine step keeps the lifecycle invariant. */
  lemma StepKeeps(s: State, e: Event)
    requires Inv(s) && Enabled(s, e)
    ensures Inv(Step(s, e))
  {
    hide Owned, CachesAgree, Settled, ReloadServices, Reload, HandleLink, RunSolicit, Detach, SweepAll, PingAll;
    match e {
      case EvReload(cfg, order) => ReloadKeeps(s, cfg, order);
      case EvLink(n, u, addrs, f) => HandleLinkKeeps(s, n, u, addrs, f);
      case EvAddr(n, addrs, addr, add) =>
        if addr.V6? { CacheChangeKeeps(s, n, Refreshed(s.table[n].cache, addrs), Step(s, e).kernel); }
      case EvSolicitExpires(tok) => ExpiryKeeps(s, tok);
      case EvSolicit(tok, n, sendOk) => RunSolicitKeeps(s, tok, n, sendOk);
      case EvPacket(n, p, mac, order) =>
        var target := ProbedBy(s.table, n, p, mac);
        if target.Some? { PingAllKeeps(s, order, target.value); }
      case EvSweep(visits) =>
        SweepAllUntouched(s, visits);
        UntouchedKeeps(s, Step(s, e));
      case _ => UntouchedKeeps(s, Step(s, e));
    }
  }

  lemma HandleLinkKeeps(s: State, n: string, u: LinkEvent, addrs: seq<IPAddr>, f: Faults)
    requires Inv(s) && n in s.table
    ensures Inv(HandleLink(s, n, u, addrs, f))
  {
    hide Inv, HandleLink;
    match u {
      case DelLink(index) => DelLinkKeeps(s, n, index, addrs, f);
      case NewLink(index, running) =>
        if s.table[n].ifindex == index {
          RunningChangeKeeps(s, n, index, running, addrs, f);
        } else {
          NewIndexKeeps(s, n, index, running, addrs, f);
        }
    }
  }

  lemma {:induction false} RunKeeps(s: State, es: seq<Event>)
    requires Inv(s) && Run(s, es)
    ensures Inv(After(s, es))
    decreases |es|
  {
    hide Inv, Step, Enabled;
    if es != [] {
      StepKeeps(s, es[0]);
      RunKeeps(Step(s, es[0]), es[1..]);
    }
  }

  /** The lifecycle theorem: at every point of every run from the start, the invariant holds. */
  lemma LifecycleHolds(k: Kernel, es: seq<Event>)
    requires Run(Initial(k), es)
    ensures Inv(After(Initial(k), es))
  {
    RunKeeps(Initial(k), es);
  }
}

/** What a reload leaves behind: flags switched off behind an interface's back, stale hosts, entries of former roles. */
module Leftovers {
  import opened Common
  import opened Addresses
  import opened KernelModel
  import opened Model
  import opened Services
  import opened Mirror
  import opened Daemon
  import opened Agreement
  import opened StaleIndex
  import opened Outcomes
  import opened FinalPass
  import opened Configuring

  // ---------- proxy_ndp ----------

  /**
   * The flag of a netdev after a reload, exactly, read off the old state, the entries and the order of the final
   * pass: some visit switches it on and no later one off, or it was on, no interface left the netdev and no visit
   * switches it off. An interface closed, not running or not relaying undoes what one visited earlier set up.
   */
  lemma ReloadFlagsIff(s: State, cfg: seq<Entry>, order: seq<Restart>, ifname: string)
    requires Distinct(EntryNames(cfg)) && Enabled(s, EvReload(cfg, order))
    ensures ifname in Reload(s, cfg, order).kernel.proxyNdp <==> FlagAfter(EndOutset(s, cfg), order, ifname)
  {
    hide Configure, RestartAll, FlagAfter, EntryNames, EndOutset;
    ConfigureOutset(s, cfg);
    OrderlyReload(Configure(s, cfg), order);
    PassFlags(Configure(s, cfg), order, ifname);
  }

  /** An interface has its NDP sockets up after a reload exactly when its visit brings them up. */
  lemma ReloadUpIff(s: State, cfg: seq<Entry>, order: seq<Restart>, j: nat)
    requires Distinct(EntryNames(cfg)) && Enabled(s, EvReload(cfg, order))
    requires j < |order| && order[j].name in Reload(s, cfg, order).table
    ensures Reload(s, cfg, order).table[order[j].name].nd.Some? <==> ComesUp(EndOutset(s, cfg), order, j)
  {
    hide Configure, RestartAll, ComesUp, EntryNames, EndOutset;
    ConfigureOutset(s, cfg);
    OrderlyReload(Configure(s, cfg), order);
    PassUp(Configure(s, cfg), order, j);
  }

  /**
   * Where the sockets are up and the kernel refuses nothing, the flag is on exactly when some visit that switches
   * it on has none after it that switches it off.
   */
  lemma UpFlagsIff(s: State, cfg: seq<Entry>, order: seq<Restart>, j: nat)
    requires Distinct(EntryNames(cfg)) && Enabled(s, EvReload(cfg, order)) && s.kernel.refuse == NO_REFUSAL
    requires j < |order| && order[j].name in Reload(s, cfg, order).table
    requires Reload(s, cfg, order).table[order[j].name].nd.Some?
    ensures
      var ifname := EndNetdev(s, cfg, order[j].name).ifname;
      ifname in Reload(s, cfg, order).kernel.proxyNdp <==>
        exists m: nat :: RaisedLast(EndOutset(s, cfg), order, ifname, m)
  {
    var p, ifname := EndOutset(s, cfg), EndNetdev(s, cfg, order[j].name).ifname;
    hide Reload, EntryNames, EndNetdev, Claimed, EndsMaster, SlaveLeft, MovedOff, MovedFrom, Enabled, Clears;
    ReloadFlagsIff(s, cfg, order, ifname);
    ReloadUpIff(s, cfg, order, j);
    assert p.refuse == NO_REFUSAL && p.roles[order[j].name].netdev.ifname == ifname;
    hide EndOutset;
    UpRaises(p, order, j);
  }

  /** A visit that brings sockets up has switched the interface's own flag on. */
  lemma UpRaises(p: Outset, order: seq<Restart>, j: nat)
    requires ComesUp(p, order, j) && p.refuse == NO_REFUSAL
    ensures
      var ifname := p.roles[order[j].name].netdev.ifname;
      FlagAfter(p, order, ifname) <==> exists m: nat :: RaisedLast(p, order, ifname, m)
  {
    var ifname := p.roles[order[j].name].netdev.ifname;
    assert Raises(p, order, j, ifname);
    hide Raises, Clears, ComesUp;
    if NeverCleared(p, order, ifname) { assert RaisedLast(p, order, ifname, j); }
  }

  /** When the last visit is of an interface that goes down, the flag of its netdev is off after the reload ... */
  lemma LastVisitClears(s: State, cfg: seq<Entry>, order: seq<Restart>, ifname: string)
    requires Distinct(EntryNames(cfg)) && Enabled(s, EvReload(cfg, order)) && order != []
    requires Clears(EndOutset(s, cfg), order[|order| - 1], ifname)
    ensures ifname !in Reload(s, cfg, order).kernel.proxyNdp
  {
    hide Reload, EntryNames, EndOutset, Clears, Raises;
    ReloadFlagsIff(s, cfg, order, ifname);
    assert !NeverCleared(EndOutset(s, cfg), order, ifname);
    forall m: nat ensures !RaisedLast(EndOutset(s, cfg), order, ifname, m) {
      if m == |order| - 1 { ClearingRaisesNot(EndOutset(s, cfg), order, m, ifname); }
      if m >= |order| { NoSuchVisit(EndOutset(s, cfg), order, m, ifname); }
    }
  }

  lemma ClearingRaisesNot(p: Outset, order: seq<Restart>, m: nat, ifname: string)
    requires m < |order| && Clears(p, order[m], ifname)
    ensures !Raises(p, order, m, ifname)
  {
  }

  lemma NoSuchVisit(p: Outset, order: seq<Restart>, m: nat, ifname: string)
    requires m >= |order|
    ensures !Raises(p, order, m, ifname)
  {
  }

  /** An entry that says nothing but the name of an interface. */
  function Mention(n: string): Entry {
    Entry(n, JsonIface(None, None, None, None), None, [])
  }

  const NO_FAULTS: Faults := Faults(RNone, DNone, NNone, true)

  /**
   * ... though another interface on that netdev may relay: of two interfaces on one netdev the configuration
   * keeps the first, a running slave, whose sockets come up before the second is closed.
   */
  lemma SharedNetdevLosesFlag(s: State, a: string, b: string)
    requires a != b && s.table.Keys == {a, b} && s.kernel.refuse == NO_REFUSAL
    requires s.table[a].ifname == s.table[b].ifname != "" && s.table[a].running && !s.table[a].master
    ensures
      var cfg, order := [Mention(a)], [Restart(a, NO_FAULTS), Restart(b, NO_FAULTS)];
      var s2 := Reload(s, cfg, order);
      && Enabled(s, EvReload(cfg, order)) && a in s2.table && s2.table[a].ifname == s.table[a].ifname
      && s2.table[a].ndp.Relay? && s2.table[a].nd.Some? && s.table[a].ifname !in s2.kernel.proxyNdp
  {
    var cfg, order := [Mention(a)], [Restart(a, NO_FAULTS), Restart(b, NO_FAULTS)];
    OneEntry(s, a, Mention(a));
    TwoVisits(s, cfg, a, b);
    TwoRoles(s, a, b);
    assert Claimed(s, cfg, a) && !EndsMaster(s, cfg, a);
    hide EndOutset, FlagAfter, Reload, Enabled, Claimed, EndsMaster, EntryNames, SlaveLeft, EndNetdev, ComesUp, Clears;
    ReloadOutcome(s, cfg, order, a);
    ReloadUpIff(s, cfg, order, 0);
    LastVisitClears(s, cfg, order, s.table[a].ifname);
  }

  /** The first visit of the two brings sockets up, the second clears the flag. */
  lemma TwoRoles(s: State, a: string, b: string)
    requires a != b && s.table.Keys == {a, b} && s.kernel.refuse == NO_REFUSAL
    requires s.table[a].ifname == s.table[b].ifname != "" && s.table[a].running && !s.table[a].master
    ensures
      var p, order := EndOutset(s, [Mention(a)]), [Restart(a, NO_FAULTS), Restart(b, NO_FAULTS)];
      ComesUp(p, order, 0) && Clears(p, order[1], s.table[a].ifname)
  {
    var cfg := [Mention(a)];
    OneEntry(s, a, Mention(a));
    var p := EndOutset(s, cfg);
    assert Claimed(s, cfg, a) && !Claimed(s, cfg, b) && !EndsMaster(s, cfg, a);
    assert p.roles[a] == EndRole(s, cfg, a) && p.roles[b] == EndRole(s, cfg, b) && p.refuse == NO_REFUSAL;
    hide EndOutset, Claimed, EndsMaster, EntryNames, SlaveLeft, MovedOff, MovedFrom, EndNetdev;
  }

  /** A configuration of one entry, for a known interface, that does not name its netdev. */
  lemma OneEntry(s: State, n: string, e: Entry)
    requires n in s.table && s.table[n].ifname != "" && e.name == n && e.json.ifname.None?
    ensures Distinct(EntryNames([e])) && Elements(EntryNames([e])) == {n}
    ensures forall m :: Claimed(s, [e], m) <==> m == n
    ensures EndsMaster(s, [e], n) <==> (if e.json.master.Some? then e.json.master.value else s.table[n].master)
    ensures forall m :: EndNetdev(s, [e], m) == LastNetdev(ConfOf(s.table, m))
    ensures forall j: nat :: !MovedBy(s.table, [e], j)
  {
    assert [e][0] == e && Accepts(ConfOf(s.table, n), e);
    assert EntryNames([e]) == [n];
    forall m ensures EndNetdev(s, [e], m) == LastNetdev(ConfOf(s.table, m)) {
      assert [e][1..] == [];
    }
  }

  lemma TwoVisits(s: State, cfg: seq<Entry>, a: string, b: string)
    requires a != b && s.table.Keys == {a, b} && Distinct(EntryNames(cfg)) && Elements(EntryNames(cfg)) <= {a, b}
    requires forall k :: 0 <= k < |cfg| ==> cfg[k].link.None?
    ensures Enabled(s, EvReload(cfg, [Restart(a, NO_FAULTS), Restart(b, NO_FAULTS)]))
  {
    var order := [Restart(a, NO_FAULTS), Restart(b, NO_FAULTS)];
    hide Configure, EntryNames, Enabled;
    ConfigureKeys(s, cfg);
    PairOf(a, b);
    assert s.table.Keys + Elements(EntryNames(cfg)) == {a, b};
    hide RestartNames, Distinct, Elements;
    OrderEnables(s, cfg, order);
  }

  lemma PairOf(a: string, b: string)
    requires a != b
    ensures
      var order := [Restart(a, NO_FAULTS), Restart(b, NO_FAULTS)];
      Distinct(RestartNames(order)) && Elements(RestartNames(order)) == {a, b}
  {
    assert RestartNames([Restart(a, NO_FAULTS), Restart(b, NO_FAULTS)]) == [a, b];
  }

  lemma OrderEnables(s: State, cfg: seq<Entry>, order: seq<Restart>)
    requires Distinct(RestartNames(order)) && Elements(RestartNames(order)) == Configure(s, cfg).table.Keys
    requires forall k :: 0 <= k < |cfg| ==> cfg[k].link.None?
    ensures Enabled(s, EvReload(cfg, order))
  {
    hide Configure, RestartNames, Distinct;
  }

  // ---------- stale hosts ----------

  /** The netdev index an accepted entry puts its interface on. */
  function IndexOf(s: State, e: Entry): int
    requires Accepts(ConfOf(s.table, e.name), e)
  {
    if e.json.ifname.Some? then e.link.value.index else s.table[e.name].ifindex
  }

  /** Some accepted entry puts its interface on the index. */
  ghost predicate EndsOn(s: State, cfg: seq<Entry>, ifindex: int) {
    exists j :: 0 <= j < |cfg| && Accepts(ConfOf(s.table, cfg[j].name), cfg[j]) && IndexOf(s, cfg[j]) == ifindex
  }

  lemma EntryKept(s: State, cfg: seq<Entry>, j: nat)
    requires Distinct(EntryNames(cfg)) && j < |cfg| && Accepts(ConfOf(s.table, cfg[j].name), cfg[j])
    ensures
      var T := Configure(s, cfg).table;
      cfg[j].name in T && T[cfg[j].name].inuse && T[cfg[j].name].ifindex == IndexOf(s, cfg[j])
  {
    assert Claimed(s, cfg, cfg[j].name);
    hide Configure, EntryNames, EndsMaster, SlaveLeft, Claimed;
    NamedIff(cfg, cfg[j].name);
    ConfigureKeys(s, cfg);
    assert cfg[j].name in Elements(EntryNames(cfg));
    ConfigureOutcome(s, cfg, cfg[j].name);
  }

  lemma KeptIff(s: State, cfg: seq<Entry>, ifindex: int)
    requires Distinct(EntryNames(cfg))
    ensures Kept(Configure(s, cfg).table, ifindex) <==> EndsOn(s, cfg, ifindex)
  {
    hide Configure, EntryNames, EndsMaster, SlaveLeft, Accepts, IndexOf, ConfiguredAs;
    var T := Configure(s, cfg).table;
    forall j: nat | j < |cfg| && Accepts(ConfOf(s.table, cfg[j].name), cfg[j])
      ensures cfg[j].name in T && T[cfg[j].name].inuse && T[cfg[j].name].ifindex == IndexOf(s, cfg[j])
    {
      EntryKept(s, cfg, j);
    }
    if n :| n in T && T[n].inuse && T[n].ifindex == ifindex {
      ConfigureOutcome(s, cfg, n);
      var j: nat :| j < |cfg| && cfg[j].name == n && Accepts(ConfOf(s.table, n), cfg[j]);
      assert IndexOf(s, cfg[j]) == ifindex;
    }
  }

  /**
   * No tracked host goes stale in a reload exactly when each one sits on an index that its interface leaves for
   * another netdev, or that some entry keeps an interface on.
   */
  lemma StaleIffUncovered(s: State, cfg: seq<Entry>, order: seq<Restart>)
    requires Fresh(s) && Distinct(EntryNames(cfg)) && Enabled(s, EvReload(cfg, order))
    ensures NoStale(Reload(s, cfg, order)) <==>
              forall k :: k in s.mirrored ==> MovedOff(s.table, cfg, k.ifindex) || EndsOn(s, cfg, k.ifindex)
  {
    FinalPassStaleIff(s, cfg, order);
    hide Reload, Configure, EndsOn, Kept, EntryNames, MovedOff;
    forall k ensures k in Configure(s, cfg).mirrored <==> k in s.mirrored && !MovedOff(s.table, cfg, k.ifindex) {
      ConfigureTracks(s, cfg, k);
    }
    forall x: int ensures Kept(Configure(s, cfg).table, x) <==> EndsOn(s, cfg, x) { KeptIff(s, cfg, x); }
  }

  // ---------- entries of former roles ----------

  /** The neighbour table does not resolve the address on another interface, but where it is tracked already. */
  ghost predicate NoNewTwin(s: State, a: Addr) {
    forall q :: Resolves(s.kernel.neighs, q) && q.addr == a ==> q in s.mirrored
  }

  /** A tracked host whose address no interface that moves has or tracks, and that the final pass finds nowhere new. */
  ghost predicate Lasts(s: State, cfg: seq<Entry>, k: Key) {
    k in s.mirrored && SparedBy(s, cfg, k.addr) && NoNewTwin(s, k.addr)
  }

  ghost predicate NotAmong(a: Addr, keys: set<Key>) {
    forall k :: k in keys ==> k.addr != a
  }

  lemma MirrorSameFor(k: Kernel, T: Table, i: Iface, addrs: set<Addr>, add: bool, a: Addr)
    requires a !in addrs
    ensures SameFor(k, MirrorAddrs(k, T, i, addrs, add), a)
  {
  }

  lemma SeedSameFor(s: State, i: Iface, listed: bool, a: Addr)
    ensures s.mirrored <= Seed(s, i, listed).mirrored
    ensures NotAmong(a, Seed(s, i, listed).mirrored - s.mirrored) ==> SameFor(s.kernel, Seed(s, i, listed).kernel, a)
  {
    hide MirrorAddrs, Mirrorable, SameFor;
    if listed {
      var addrs := Seedable(s, i.ifindex);
      if a in addrs {
        assert Key(a, i.ifindex) in Seed(s, i, listed).mirrored - s.mirrored;
      } else {
        MirrorSameFor(s.kernel, s.table, i, addrs, true, a);
      }
    } else {
      SameForSelf(s.kernel, a);
    }
  }

  lemma NdpSetupSameFor(i: Iface, os: Os, k: Kernel, enable: bool, fault: NdpFault, a: Addr)
    ensures SameFor(k, NdpSetup(i, os, k, enable, fault).kernel, a)
  {
    hide NdpSetup;
    NdpSetupKernel(i, os, k, enable, fault);
  }

  lemma SetupNdpSameFor(s: State, n: string, enable: bool, fault: NdpFault, listed: bool, a: Addr)
    requires n in s.table
    ensures
      var s2 := SetupNdp(s, n, enable, fault, listed);
      && s.mirrored <= s2.mirrored && (NotAmong(a, s2.mirrored - s.mirrored) ==> SameFor(s.kernel, s2.kernel, a))
  {
    hide NdpSetup, SameFor, NotAmong, MirrorAddrs, Seedable;
    var r := NdpSetup(s.table[n], s.os, s.kernel, enable, fault);
    var s1 := s.(table := s.table[n := r.i], os := r.os, kernel := r.kernel);
    NdpSetupSameFor(s.table[n], s.os, s.kernel, enable, fault, a);
    SeedSameFor(s1, r.i, listed, a);
    if NotAmong(a, Seed(s1, r.i, listed).mirrored - s.mirrored) {
      SameForTwice(s.kernel, s1.kernel, Seed(s1, r.i, listed).kernel, a);
    }
  }

  /** A visit of the final pass touches the entries of no address but those it begins to track. */
  lemma VisitSameFor(s: State, r: Restart, a: Addr)
    requires r.name in s.table
    ensures
      var s2 := RestartOne(s, r);
      && s.mirrored <= s2.mirrored && (NotAmong(a, s2.mirrored - s.mirrored) ==> SameFor(s.kernel, s2.kernel, a))
  {
    hide RouterSetup, DhcpSetup, SetupNdp, SameFor, NotAmong, StopTimer;
    var n, up := r.name, s.table[r.name].inuse && s.table[r.name].running;
    if up {
      var s1 := SetupRouter(s, n, !s.table[n].ra.Disabled?, r.faults.router);
      var s2 := SetupDhcp(s1, n, !s1.table[n].dhcpv6.Disabled?, r.faults.dhcp);
      SetupNdpSameFor(s2, n, !s2.table[n].ndp.Disabled?, r.faults.ndp, r.faults.neighsListed, a);
    } else {
      var s2 := SetupDhcp(SetupRouter(s, n, false, RNone), n, false, DNone);
      SetupNdpSameFor(s2, n, false, NNone, true, a);
    }
  }

  lemma NotAmongParts(a: Addr, x: set<Key>, y: set<Key>, z: set<Key>)
    requires x <= y <= z && NotAmong(a, z - x)
    ensures NotAmong(a, y - x) && NotAmong(a, z - y)
  {
  }

  lemma {:induction false} PassSameFor(s: State, order: seq<Restart>, a: Addr)
    ensures
      var s2 := RestartAll(s, order);
      && s.mirrored <= s2.mirrored && (NotAmong(a, s2.mirrored - s.mirrored) ==> SameFor(s.kernel, s2.kernel, a))
    decreases |order|
  {
    hide RestartOne, SameFor, NotAmong;
    if order == [] || order[0].name !in s.table {
      SameForSelf(s.kernel, a);
    } else {
      var s1 := RestartOne(s, order[0]);
      VisitSameFor(s, order[0], a);
      PassSameFor(s1, order[1..], a);
      var s2 := RestartAll(s1, order[1..]);
      if NotAmong(a, s2.mirrored - s.mirrored) {
        NotAmongParts(a, s.mirrored, s1.mirrored, s2.mirrored);
        SameForTwice(s.kernel, s1.kernel, s2.kernel, a);
      }
    }
  }

  /** Nothing the final pass begins to track has the address of a host that lasts. */
  lemma NewElsewhere(s: State, cfg: seq<Entry>, order: seq<Restart>, k: Key)
    requires Distinct(EntryNames(cfg)) && Enabled(s, EvReload(cfg, order)) && Lasts(s, cfg, k)
    ensures k in Configure(s, cfg).mirrored
    ensures NotAmong(k.addr, Reload(s, cfg, order).mirrored - Configure(s, cfg).mirrored)
  {
    assert forall q :: q in s.mirrored && q.addr == k.addr ==> !MovedOff(s.table, cfg, q.ifindex) by {
      forall q | q in s.mirrored && q.addr == k.addr ensures !MovedOff(s.table, cfg, q.ifindex) {
        assert q == Key(k.addr, q.ifindex);
      }
    }
    hide Reload, Configure, EntryNames, MovedOff, Resolves, SparedBy, MovedFrom, EndRole, SeedsOn;
    ConfigureTracks(s, cfg, k);
    forall q | q in Reload(s, cfg, order).mirrored && q.addr == k.addr ensures q in Configure(s, cfg).mirrored {
      ReloadTracks(s, cfg, order, q);
      ConfigureTracks(s, cfg, q);
    }
  }

  /**
   * A reload leaves entries and routes of each such host exactly as they were, and goes on tracking it, whatever
   * becomes of the interface it is behind and of the masters that answer for it.
   */
  lemma ReloadLeavesEntries(s: State, cfg: seq<Entry>, order: seq<Restart>, k: Key)
    requires Distinct(EntryNames(cfg)) && Enabled(s, EvReload(cfg, order)) && Lasts(s, cfg, k)
    ensures k in Reload(s, cfg, order).mirrored && SameFor(s.kernel, Reload(s, cfg, order).kernel, k.addr)
  {
    NewElsewhere(s, cfg, order, k);
    ConfigureSpares(s, cfg, k.addr);
    hide Configure, RestartAll, SameFor, EntryNames, NotAmong;
    PassSameFor(Configure(s, cfg), order, k.addr);
    SameForTwice(s.kernel, Configure(s, cfg).kernel, Reload(s, cfg, order).kernel, k.addr);
  }

  /** Some accepted entry puts an interface that learns routes on the index. */
  ghost predicate EndsLearning(s: State, cfg: seq<Entry>, ifindex: int) {
    exists j :: 0 <= j < |cfg| && Accepts(ConfOf(s.table, cfg[j].name), cfg[j])
                && IndexOf(s, cfg[j]) == ifindex && cfg[j].json.ndproxyRouting != Some(false)
  }

  /** Some accepted entry puts a master, which is to relay, on the index `x`. */
  ghost predicate EndsCarrying(s: State, cfg: seq<Entry>, x: int) {
    && SlaveLeft(s, cfg)
    && exists j :: 0 <= j < |cfg| && Accepts(ConfOf(s.table, cfg[j].name), cfg[j])
                   && IndexOf(s, cfg[j]) == x && EndsMaster(s, cfg, cfg[j].name)
  }

  /** Some interface with this index learns routes. */
  ghost predicate Learned(T: Table, ifindex: int) {
    exists n :: n in T && T[n].ifindex == ifindex && T[n].learnRoutes
  }

  /** The record an accepted entry ends up as, and the entry a record comes from. */
  lemma EntryOutcome(s: State, cfg: seq<Entry>, order: seq<Restart>, j: nat)
    requires Distinct(EntryNames(cfg)) && Enabled(s, EvReload(cfg, order))
    requires j < |cfg| && Accepts(ConfOf(s.table, cfg[j].name), cfg[j])
    ensures
      var T := Reload(s, cfg, order).table;
      var n := cfg[j].name;
      && n in T && T[n].ifindex == IndexOf(s, cfg[j]) && (T[n].learnRoutes <==> cfg[j].json.ndproxyRouting != Some(false))
      && (T[n].master <==> EndsMaster(s, cfg, n)) && (T[n].ndp.Relay? <==> !EndsMaster(s, cfg, n) || SlaveLeft(s, cfg))
  {
    assert Claimed(s, cfg, cfg[j].name);
    hide Reload, EntryNames, EndsMaster, SlaveLeft, Accepts;
    ReloadOutcome(s, cfg, order, cfg[j].name);
  }

  lemma RecordOrigin(s: State, cfg: seq<Entry>, order: seq<Restart>, n: string) returns (j: nat)
    requires Distinct(EntryNames(cfg)) && Enabled(s, EvReload(cfg, order)) && n in Reload(s, cfg, order).table
    ensures j < |cfg| && cfg[j].name == n && Accepts(ConfOf(s.table, n), cfg[j])
  {
    hide Reload, EntryNames, EndsMaster, SlaveLeft, Accepts, ConfiguredAs;
    ReloadOutcome(s, cfg, order, n);
    j :| 0 <= j < |cfg| && cfg[j].name == n && Accepts(ConfOf(s.table, n), cfg[j]);
  }

  /** Who learns and who carries after a reload, read off the configuration. */
  lemma RolesAfter(s: State, cfg: seq<Entry>, order: seq<Restart>, ifindex: int, x: int)
    requires Distinct(EntryNames(cfg)) && Enabled(s, EvReload(cfg, order))
    ensures Learned(Reload(s, cfg, order).table, ifindex) <==> EndsLearning(s, cfg, ifindex)
    ensures x in Carriers(Reload(s, cfg, order).table, ifindex) <==> x != ifindex && EndsCarrying(s, cfg, x)
  {
    hide Reload, EntryNames, EndsMaster, SlaveLeft, Accepts, IndexOf;
    var T := Reload(s, cfg, order).table;
    forall n | n in T ensures exists j: nat :: j < |cfg| && cfg[j].name == n && Accepts(ConfOf(s.table, n), cfg[j]) {
      var j := RecordOrigin(s, cfg, order, n);
    }
    forall j: nat | j < |cfg| && Accepts(ConfOf(s.table, cfg[j].name), cfg[j])
      ensures cfg[j].name in T && T[cfg[j].name].ifindex == IndexOf(s, cfg[j])
      ensures T[cfg[j].name].learnRoutes <==> cfg[j].json.ndproxyRouting != Some(false)
      ensures T[cfg[j].name].master <==> EndsMaster(s, cfg, cfg[j].name)
      ensures T[cfg[j].name].ndp.Relay? <==> !EndsMaster(s, cfg, cfg[j].name) || SlaveLeft(s, cfg)
    {
      EntryOutcome(s, cfg, order, j);
    }
  }

  /** The host has a route though its interface does not learn routes, or is gone. */
  ghost predicate RouteLeft(s: State, k: Key) {
    HostRoute(k) in s.kernel.routes && !Learned(s.table, k.ifindex)
  }

  /** The host has an entry on an index where no master answers for it. */
  predicate ProxyLeft(s: State, k: Key, x: int) {
    Proxy(k.addr, x) in s.kernel.proxies && x !in Carriers(s.table, k.ifindex)
  }

  /** Each of these hosts has its route exactly if it sits behind an interface that learns routes. */
  ghost predicate RoutesFit(kernel: Kernel, T: Table, hosts: set<Key>) {
    forall k :: k in hosts ==> (HostRoute(k) in kernel.routes <==> Learned(T, k.ifindex))
  }

  /** Each of these hosts has its entries exactly on the masters that answer for it. */
  ghost predicate ProxiesFit(kernel: Kernel, T: Table, hosts: set<Key>) {
    forall k, x :: k in hosts ==> (Proxy(k.addr, x) in kernel.proxies <==> x in Carriers(T, k.ifindex))
  }

  /** The tracked hosts that last. */
  ghost function Lasting(s: State, cfg: seq<Entry>): set<Key> {
    set k | k in s.mirrored && Lasts(s, cfg, k)
  }

  /**
   * Routes left over, exactly: a host that lasts has a route it should not have after the reload if and only if
   * its index learned routes and is not to learn any more.
   */
  lemma LeftoverRoutesIff(s: State, cfg: seq<Entry>, order: seq<Restart>)
    requires Distinct(EntryNames(cfg)) && Enabled(s, EvReload(cfg, order))
    requires RoutesFit(s.kernel, s.table, Lasting(s, cfg))
    ensures
      var s2 := Reload(s, cfg, order);
      && (forall k :: k in Lasting(s, cfg) ==>
            (RouteLeft(s2, k) <==> Learned(s.table, k.ifindex) && !EndsLearning(s, cfg, k.ifindex)))
      && (RoutesFit(s2.kernel, s2.table, Lasting(s, cfg)) <==>
            forall k :: k in Lasting(s, cfg) ==> (EndsLearning(s, cfg, k.ifindex) <==> Learned(s.table, k.ifindex)))
  {
    hide Reload, Learned, EndsLearning, EntryNames, Lasts;
    forall k | k in Lasting(s, cfg)
      ensures HostRoute(k) in Reload(s, cfg, order).kernel.routes <==> Learned(s.table, k.ifindex)
      ensures Learned(Reload(s, cfg, order).table, k.ifindex) <==> EndsLearning(s, cfg, k.ifindex)
    {
      ReloadLeavesEntries(s, cfg, order, k);
      RolesAfter(s, cfg, order, k.ifindex, 0);
    }
  }

  /**
   * Proxy entries left over, exactly: such a host has an entry it should not have, on the index `x`, if and only
   * if a master answered for it there and none is to, as when the master loses its role or its NDP service.
   */
  lemma LeftoverProxiesIff(s: State, cfg: seq<Entry>, order: seq<Restart>)
    requires Distinct(EntryNames(cfg)) && Enabled(s, EvReload(cfg, order))
    requires ProxiesFit(s.kernel, s.table, Lasting(s, cfg))
    ensures
      var s2 := Reload(s, cfg, order);
      && (forall k, x :: k in Lasting(s, cfg) ==>
            (ProxyLeft(s2, k, x) <==> x in Carriers(s.table, k.ifindex) && !EndsCarrying(s, cfg, x)))
      && (ProxiesFit(s2.kernel, s2.table, Lasting(s, cfg)) <==>
            forall k, x :: k in Lasting(s, cfg) ==>
              (x != k.ifindex && EndsCarrying(s, cfg, x) <==> x in Carriers(s.table, k.ifindex)))
  {
    hide Reload, EndsCarrying, EntryNames, Carriers, SameFor, Lasts;
    var s2, hosts := Reload(s, cfg, order), Lasting(s, cfg);
    forall k, x | k in hosts
      ensures ProxyLeft(s2, k, x) <==> x in Carriers(s.table, k.ifindex) && !EndsCarrying(s, cfg, x)
    {
      ProxyAfter(s, cfg, order, k, x);
    }
    hide ProxyLeft;
    if ProxiesFit(s2.kernel, s2.table, hosts) {
      forall k, x | k in hosts ensures x != k.ifindex && EndsCarrying(s, cfg, x) <==> x in Carriers(s.table, k.ifindex) {
        ProxyAfter(s, cfg, order, k, x);
      }
    } else {
      var k, x :| k in hosts && !(Proxy(k.addr, x) in s2.kernel.proxies <==> x in Carriers(s2.table, k.ifindex));
      ProxyAfter(s, cfg, order, k, x);
    }
  }

  lemma ProxyAfter(s: State, cfg: seq<Entry>, order: seq<Restart>, k: Key, x: int)
    requires Distinct(EntryNames(cfg)) && Enabled(s, EvReload(cfg, order)) && k in Lasting(s, cfg)
    requires ProxiesFit(s.kernel, s.table, Lasting(s, cfg))
    ensures
      var s2 := Reload(s, cfg, order);
      && (Proxy(k.addr, x) in s2.kernel.proxies <==> x in Carriers(s.table, k.ifindex))
      && (x in Carriers(s2.table, k.ifindex) <==> x != k.ifindex && EndsCarrying(s, cfg, x))
      && (x in Carriers(s.table, k.ifindex) ==> x != k.ifindex)
  {
    assert x in Carriers(s.table, k.ifindex) ==> x != k.ifindex;
    hide Reload, EndsCarrying, EntryNames, Carriers, Lasts;
    assert Proxy(k.addr, x) in s.kernel.proxies <==> x in Carriers(s.table, k.ifindex);
    ReloadLeavesEntries(s, cfg, order, k);
    RolesAfter(s, cfg, order, k.ifindex, x);
  }

  /** An option switched off: the interface stays, does not learn routes any more, and its host keeps its route. */
  lemma LearningSwitchedOff(s: State, order: seq<Restart>, lan: string, k: Key)
    requires lan in s.table && s.table[lan].ifname != "" && k in s.mirrored && k.ifindex == s.table[lan].ifindex
    requires HostRoute(k) in s.kernel.routes && NoNewTwin(s, k.addr)
    requires Enabled(s, EvReload([Entry(lan, JsonIface(None, None, Some(false), None), None, [])], order))
    ensures
      var s2 := Reload(s, [Entry(lan, JsonIface(None, None, Some(false), None), None, [])], order);
      && lan in s2.table && s2.table[lan].ifindex == k.ifindex && !s2.table[lan].learnRoutes
      && k in s2.mirrored && RouteLeft(s2, k)
  {
    var e := Entry(lan, JsonIface(None, None, Some(false), None), None, []);
    OneEntry(s, lan, e);
    assert SparedBy(s, [e], k.addr);
    assert [e][0] == e && !EndsLearning(s, [e], k.ifindex);
    hide Reload, EntryNames, Learned, EndsLearning, EndsCarrying, EndsMaster, SlaveLeft, SparedBy, NoNewTwin;
    ReloadLeavesEntries(s, [e], order, k);
    RolesAfter(s, [e], order, k.ifindex, 0);
    EntryOutcome(s, [e], order, 0);
  }

  /** A role taken away: the interface stays, is no master any more, and keeps the host's proxy entry. */
  lemma MasterSwitchedOff(s: State, order: seq<Restart>, wan: string, k: Key)
    requires wan in s.table && s.table[wan].ifname != "" && k in s.mirrored
    requires Proxy(k.addr, s.table[wan].ifindex) in s.kernel.proxies && NoNewTwin(s, k.addr)
    requires Enabled(s, EvReload([Entry(wan, JsonIface(None, Some(false), None, None), None, [])], order))
    ensures
      var s2 := Reload(s, [Entry(wan, JsonIface(None, Some(false), None, None), None, [])], order);
      && wan in s2.table && s2.table[wan].ifindex == s.table[wan].ifindex && !s2.table[wan].master
      && k in s2.mirrored && ProxyLeft(s2, k, s.table[wan].ifindex)
  {
    var e := Entry(wan, JsonIface(None, Some(false), None, None), None, []);
    OneEntry(s, wan, e);
    assert SparedBy(s, [e], k.addr);
    assert [e][0] == e && !EndsCarrying(s, [e], s.table[wan].ifindex);
    hide Reload, EntryNames, Learned, EndsLearning, EndsCarrying, EndsMaster, SlaveLeft, SparedBy, NoNewTwin, Carriers;
    ReloadLeavesEntries(s, [e], order, k);
    RolesAfter(s, [e], order, k.ifindex, s.table[wan].ifindex);
    EntryOutcome(s, [e], order, 0);
  }
}

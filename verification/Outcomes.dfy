/** What configuration and link events amount to: which interfaces are kept, with which settings and services. */
module Outcomes {
  import opened Common
  import opened Addresses
  import opened KernelModel
  import opened Model
  import opened Services
  import opened LinkLocal
  import opened Mirror
  import opened Daemon
  import opened Ownership
  import opened Lifecycle
  import opened StaleIndex
  import opened Loops

  // ---------- services ----------

  /** After a restart a service has its sockets exactly when the interface runs, relays it and nothing failed. */
  lemma ServicesUpIff(s: State, n: string, f: Faults)
    requires n in s.table
    ensures
      var i := s.table[n];
      var j := ReloadServices(s, n, f).table[n];
      && (j.router.Some? <==> i.running && i.ra.Relay? && f.router.RNone?)
      && (j.dhcp.Some? <==> i.running && i.dhcpv6.Relay? && f.dhcp.DNone?)
      && (j.nd.Some? <==> i.running && i.ndp.Relay? && f.ndp.NNone? && FlagEnables(s.kernel, i.ifname))
  {
    hide RouterSetup, DhcpSetup, NdpSetup, Seedable, MirrorAddrs;
  }

  /** A restart keeps configuration and cached addresses, and every other record. */
  lemma RestartKeepsRecords(s: State, n: string, f: Faults)
    requires n in s.table
    ensures
      var T := ReloadServices(s, n, f).table;
      && T.Keys == s.table.Keys && T[n].conf == s.table[n].conf && T[n].cache == s.table[n].cache
      && forall m :: m in s.table && m != n ==> T[m] == s.table[m]
  {
    hide RouterSetup, DhcpSetup, NdpSetup, MirrorAddrs, Seedable;
  }

  /**
   * A link notification takes effect: index and running flag are those announced, and the address list is the one
   * read anew if the index changed or the link came up, the old one otherwise; all else configured stays.
   */
  lemma LinkApplied(s: State, n: string, index: int, running: bool, addrs: seq<IPAddr>, f: Faults)
    requires n in s.table
    ensures
      var s2 := HandleLink(s, n, NewLink(index, running), addrs, f);
      && s2.table.Keys == s.table.Keys
      && (forall m :: m in s.table && m != n ==> s2.table[m].conf == s.table[m].conf)
      && s2.table[n].conf == s.table[n].conf.(ifindex := index, running := running)
      && s2.table[n].addr6 == (if index != s.table[n].ifindex || (running && !s.table[n].running)
                               then addrs else s.table[n].addr6)
  {
    hide Detach, ReloadServices;
    if s.table[n].ifindex == index {
      var i := WithRunning(s.table[n], running);
      var i1 := if running then Refresh(i, addrs) else i;
      if s.table[n].running != running { RestartKeepsRecords(s.(table := s.table[n := i1]), n, f); }
    } else {
      var s1 := Detach(s, n);
      DetachClears(s, n);
      var i1 := Refresh(Attach(s1.table[n], s1.table[n].ifname, Link(index, running)), addrs);
      RestartKeepsRecords(s1.(table := s1.table[n := i1]), n, f);
    }
  }

  /**
   * A deletion takes effect if it is of the index the interface has: the interface is left without index, link,
   * addresses, sockets and tracked hosts. A deletion of any other index changes nothing.
   */
  lemma LinkDeletion(s: State, n: string, index: int, addrs: seq<IPAddr>, f: Faults)
    requires n in s.table
    ensures
      var s2 := HandleLink(s, n, DelLink(index), addrs, f);
      if index != s.table[n].ifindex then s2 == s
      else
        && s2.table.Keys == s.table.Keys
        && (forall m :: m in s.table && m != n ==> s2.table[m].conf == s.table[m].conf)
        && s2.table[n].conf == s.table[n].conf.(ifindex := 0, running := false) && s2.table[n].addr6 == []
        && s2.table[n].router == None && s2.table[n].dhcp == None && s2.table[n].nd == None
        && forall k :: k in s2.mirrored <==> k in s.mirrored && k.ifindex != index
  {
    DetachClears(s, n);
    DetachCloses(s, n);
    hide Detach;
  }

  lemma DetachCloses(s: State, n: string)
    requires n in s.table
    ensures
      var T := Detach(s, n).table;
      n in T && T[n].router == None && T[n].dhcp == None && T[n].nd == None
  {
    hide MirrorAddrs, OwnAddrs;
  }

  // ---------- one entry ----------

  /** The entry has what it needs: a netdev that exists, or a name remembered from an earlier configuration. */
  predicate Accepts(was: Option<Conf>, e: Entry) {
    if e.json.ifname.Some? then e.link.Some? else was.Some? && was.value.ifname != ""
  }

  /** The configuration `c` an accepted entry gives an interface that had `was`. */
  predicate ConfiguredAs(c: Conf, was: Option<Conf>, e: Entry)
    requires Accepts(was, e)
  {
    && c.inuse
    && c.master == (if e.json.master.Some? then e.json.master.value else was.Some? && was.value.master)
    && c.learnRoutes == (e.json.ndproxyRouting != Some(false))
    && c.ndpFromLinkLocal == (e.json.ndpFromLinkLocal != Some(false))
    && (e.json.ifname.Some? ==>
          c.ifname == e.json.ifname.value && c.ifindex == e.link.value.index && c.running == e.link.value.running)
    && (e.json.ifname.None? ==>
          c.ifname == was.value.ifname && c.ifindex == was.value.ifindex && c.running == was.value.running)
  }

  function ConfOf(T: Table, n: string): Option<Conf> {
    if n in T then Some(T[n].conf) else None
  }

  /** How the first loop of a reload leaves a record. */
  predicate Reset(c: Conf) {
    c.learnRoutes && c.ndpFromLinkLocal && !c.inuse && c.ra.Relay? && c.dhcpv6.Relay? && c.ndp.Relay?
  }

  /** The netdev an interface sits on: its name and index, and whether its link runs. */
  datatype Netdev = Netdev(ifname: string, ifindex: int, running: bool)

  function NetdevOf(c: Conf): Netdev {
    Netdev(c.ifname, c.ifindex, c.running)
  }

  /** The netdev remembered for a name; a new name has none. */
  function LastNetdev(was: Option<Conf>): Netdev {
    if was.Some? then NetdevOf(was.value) else Netdev("", 0, false)
  }

  /** The configuration an interface is left with when no entry claims it: reset, but for master role and netdev. */
  predicate RejectedAs(c: Conf, was: Option<Conf>) {
    Reset(c) && c.master == (was.Some? && was.value.master) && NetdevOf(c) == LastNetdev(was)
  }

  predicate AllRelaying(c: Conf) {
    c.ra.Relay? && c.dhcpv6.Relay? && c.ndp.Relay?
  }

  lemma MovedConfs(s: State, n: string, newIfname: string, link: Link, addrs: seq<IPAddr>)
    requires n in s.table
    ensures
      var T := Moved(s, n, newIfname, link, addrs).table;
      && T.Keys == s.table.Keys && (forall m :: m in s.table && m != n ==> T[m].conf == s.table[m].conf)
      && T[n].conf == s.table[n].conf.(ifname := newIfname, ifindex := link.index, running := link.running)
  {
    hide Detach, Refreshed;
    DetachClears(s, n);
  }

  lemma AcceptedOutcome(s: State, e: Entry)
    requires e.name in s.table && (e.json.ifname.Some? ==> e.link.Some?)
    ensures
      var T := Accepted(s, e).table;
      && T.Keys == s.table.Keys && (forall m :: m in s.table && m != e.name ==> T[m].conf == s.table[m].conf)
      && T[e.name].conf.inuse && T[e.name].conf.master == Or(e.json.master, s.table[e.name].master)
      && T[e.name].conf.learnRoutes == Or(e.json.ndproxyRouting, s.table[e.name].learnRoutes)
      && T[e.name].conf.ndpFromLinkLocal == Or(e.json.ndpFromLinkLocal, s.table[e.name].ndpFromLinkLocal)
      && T[e.name].ra == s.table[e.name].ra && T[e.name].dhcpv6 == s.table[e.name].dhcpv6 && T[e.name].ndp == s.table[e.name].ndp
      && T[e.name].ifname == (if e.json.ifname.Some? then e.json.ifname.value else s.table[e.name].ifname)
      && T[e.name].ifindex == (if e.json.ifname.Some? then e.link.value.index else s.table[e.name].ifindex)
      && T[e.name].running == (if e.json.ifname.Some? then e.link.value.running else s.table[e.name].running)
  {
    hide Moved;
    if e.json.ifname.Some? { MovedConfs(s, e.name, e.json.ifname.value, e.link.value, e.addrs); }
  }

  lemma ParseOutcome(s: State, e: Entry)
    requires e.name in s.table ==> Reset(s.table[e.name].conf)
    ensures
      var s2 := Parse(s, e);
      && s2.table.Keys == s.table.Keys + {e.name}
      && (forall m :: m in s.table && m != e.name ==> s2.table[m].conf == s.table[m].conf)
      && var was := ConfOf(s.table, e.name);
         var c := s2.table[e.name].conf;
         && (Accepts(was, e) ==> ConfiguredAs(c, was, e))
         && (!Accepts(was, e) ==> RejectedAs(c, was))
         && AllRelaying(c)
  {
    hide Accepted;
    var s1 := FindOrCreate(s, e.name);
    if e.json.ifname.Some? ==> e.link.Some? { AcceptedOutcome(s1, e); }
  }

  // ---------- all entries ----------

  function EntryNames(cfg: seq<Entry>): seq<string> {
    seq(|cfg|, k requires 0 <= k < |cfg| => cfg[k].name)
  }

  /** How parsing leaves the interface of a name: as its entry says, or reset if it has none that is accepted. */
  ghost predicate Parsed(was: Option<Conf>, c: Conf, cfg: seq<Entry>, n: string) {
    && AllRelaying(c)
    && (forall k :: 0 <= k < |cfg| && cfg[k].name == n && Accepts(was, cfg[k]) ==> ConfiguredAs(c, was, cfg[k]))
    && ((forall k :: 0 <= k < |cfg| && cfg[k].name == n ==> !Accepts(was, cfg[k])) ==> RejectedAs(c, was))
  }

  ghost predicate ResetBut(T: Table, cfg: seq<Entry>) {
    forall n :: n in T && n in EntryNames(cfg) ==> Reset(T[n].conf)
  }

  lemma ParsedHead(was: Option<Conf>, c: Conf, cfg: seq<Entry>)
    requires cfg != [] && Distinct(EntryNames(cfg)) && AllRelaying(c)
    requires Accepts(was, cfg[0]) ==> ConfiguredAs(c, was, cfg[0])
    requires !Accepts(was, cfg[0]) ==> RejectedAs(c, was)
    ensures Parsed(was, c, cfg, cfg[0].name)
  {
    hide Accepts, ConfiguredAs, Reset, RejectedAs;
    var names := EntryNames(cfg);
    forall k | 0 < k < |cfg| ensures cfg[k].name != cfg[0].name { assert names[k] != names[0]; }
  }

  lemma ParsedTail(was: Option<Conf>, c: Conf, cfg: seq<Entry>, n: string)
    requires cfg != [] && cfg[0].name != n && Parsed(was, c, cfg[1..], n)
    ensures Parsed(was, c, cfg, n)
  {
    hide Accepts, ConfiguredAs, Reset, RejectedAs;
    assert forall k :: 0 <= k < |cfg[1..]| ==> cfg[1..][k] == cfg[k + 1];
    forall k | 0 <= k < |cfg| && cfg[k].name == n && Accepts(was, cfg[k]) ensures ConfiguredAs(c, was, cfg[k]) {
      assert cfg[k] == cfg[1..][k - 1];
    }
  }

  lemma NamesOf(cfg: seq<Entry>)
    requires cfg != [] && Distinct(EntryNames(cfg))
    ensures EntryNames(cfg) == [cfg[0].name] + EntryNames(cfg[1..])
    ensures Distinct(EntryNames(cfg[1..])) && cfg[0].name !in EntryNames(cfg[1..])
    ensures Elements(EntryNames(cfg)) == {cfg[0].name} + Elements(EntryNames(cfg[1..]))
  {
    var names := EntryNames(cfg);
    assert EntryNames(cfg[1..]) == names[1..];
    assert names == [names[0]] + names[1..];
  }

  lemma {:induction false} ParseAllOutcome(s: State, cfg: seq<Entry>, n: string)
    requires Distinct(EntryNames(cfg)) && ResetBut(s.table, cfg)
    ensures
      var T := ParseAll(s, cfg).table;
      && T.Keys == s.table.Keys + Elements(EntryNames(cfg))
      && (n in s.table && n !in EntryNames(cfg) ==> T[n].conf == s.table[n].conf)
      && (n in EntryNames(cfg) ==> Parsed(ConfOf(s.table, n), T[n].conf, cfg, n))
    decreases |cfg|
  {
    hide Parse, Accepts, ConfiguredAs, Reset, RejectedAs, Parsed;
    if cfg != [] {
      var e, rest := cfg[0], cfg[1..];
      NamesOf(cfg);
      assert e.name in EntryNames(cfg);
      ParseOutcome(s, e);
      var s1 := Parse(s, e);
      assert ResetBut(s1.table, rest);
      hide EntryNames, ResetBut, Distinct;
      ParseAllOutcome(s1, rest, n);
      var T := ParseAll(s1, rest).table;
      if n == e.name {
        ParsedHead(ConfOf(s.table, n), T[n].conf, cfg);
      } else if n in EntryNames(rest) {
        ParsedTail(ConfOf(s.table, n), T[n].conf, cfg, n);
      }
    }
  }

  // ---------- the final pass ----------

  lemma RestartOneOutcome(s: State, r: Restart)
    requires r.name in s.table
    ensures
      var T := RestartOne(s, r).table;
      && T.Keys == (if s.table[r.name].inuse then s.table.Keys else s.table.Keys - {r.name})
      && forall m :: m in T ==> T[m].conf == s.table[m].conf
  {
    hide ReloadServices, CloseInterface;
    RestartKeepsConfs(s, r.name, r.faults);
    ClosedDirectly(s, r.name);
  }

  /** The final pass drops the visited interfaces that no entry claimed, and changes no configuration. */
  lemma {:induction false} RestartAllOutcome(s: State, order: seq<Restart>)
    requires Distinct(RestartNames(order)) && Elements(RestartNames(order)) <= s.table.Keys
    ensures
      var T := RestartAll(s, order).table;
      && (forall m :: m in T <==> m in s.table && (m in RestartNames(order) ==> s.table[m].inuse))
      && forall m :: m in T ==> T[m].conf == s.table[m].conf
    decreases |order|
  {
    if order != [] {
      RestartNamesOf(order);
      RestartOneOutcome(s, order[0]);
      hide RestartOne, RestartNames, Distinct;
      RestartAllOutcome(RestartOne(s, order[0]), order[1..]);
    }
  }

  lemma RestartNamesOf(order: seq<Restart>)
    requires order != [] && Distinct(RestartNames(order))
    ensures Distinct(RestartNames(order[1..])) && order[0].name !in RestartNames(order[1..])
    ensures forall m :: m in RestartNames(order) <==> m == order[0].name || m in RestartNames(order[1..])
    ensures Elements(RestartNames(order)) == {order[0].name} + Elements(RestartNames(order[1..]))
  {
    var names := RestartNames(order);
    assert RestartNames(order[1..]) == names[1..] && names == [names[0]] + names[1..];
  }

  lemma ResetOutcome(s: State, cfg: seq<Entry>, n: string)
    ensures ResetAll(s).table.Keys == s.table.Keys && forall m :: m in s.table ==> Reset(ResetAll(s).table[m].conf)
    ensures forall e :: Accepts(ConfOf(ResetAll(s).table, n), e) <==> Accepts(ConfOf(s.table, n), e)
    ensures forall e, c :: Accepts(ConfOf(s.table, n), e) ==>
      (ConfiguredAs(c, ConfOf(ResetAll(s).table, n), e) <==> ConfiguredAs(c, ConfOf(s.table, n), e))
    ensures forall c :: RejectedAs(c, ConfOf(ResetAll(s).table, n)) <==> RejectedAs(c, ConfOf(s.table, n))
    ensures n in s.table ==> RejectedAs(ResetAll(s).table[n].conf, ConfOf(s.table, n))
  {
  }

  /** Settings that the last step of configuration leaves alone: everything but the three modes. */
  predicate SameButModes(c: Conf, d: Conf) {
    d == c.(ra := d.ra, dhcpv6 := d.dhcpv6, ndp := d.ndp)
  }

  ghost predicate AnySlave(T: Table) {
    exists m :: m in T && !T[m].master
  }

  /** Where everything relays, a master keeps its services exactly when there is a slave, of any kind. */
  lemma IdleOutcome(s: State, n: string)
    requires n in s.table && forall m :: m in s.table ==> AllRelaying(s.table[m].conf)
    ensures
      var T := DisableIdleMasters(s).table;
      var relays := !s.table[n].master || AnySlave(s.table);
      && SameButModes(s.table[n].conf, T[n].conf)
      && (T[n].ra.Relay? <==> relays) && (T[n].dhcpv6.Relay? <==> relays) && (T[n].ndp.Relay? <==> relays)
  {
  }

  lemma IdleKeepsRoles(s: State)
    ensures DisableIdleMasters(s).table.Keys == s.table.Keys
    ensures AnySlave(DisableIdleMasters(s).table) <==> AnySlave(s.table)
  {
    hide SlavesOf;
    var T := DisableIdleMasters(s).table;
    if m :| m in s.table && !s.table[m].master { assert m in T && !T[m].master; }
  }

  /** An entry for this name that has what it needs. */
  ghost predicate Claimed(s: State, cfg: seq<Entry>, n: string) {
    exists k :: 0 <= k < |cfg| && cfg[k].name == n && Accepts(ConfOf(s.table, n), cfg[k])
  }

  lemma NamedIff(cfg: seq<Entry>, n: string)
    ensures n in EntryNames(cfg) <==> exists k :: 0 <= k < |cfg| && cfg[k].name == n
  {
    var names := EntryNames(cfg);
    forall k | 0 <= k < |cfg| ensures cfg[k].name in names { assert names[k] == cfg[k].name; }
  }

  /** The master role a name ends up with: as its entry says, or as remembered; a new name is a slave. */
  ghost predicate EndsMaster(s: State, cfg: seq<Entry>, n: string) {
    var was := ConfOf(s.table, n);
    var before := was.Some? && was.value.master;
    if Claimed(s, cfg, n)
    then exists k :: 0 <= k < |cfg| && cfg[k].name == n && Accepts(was, cfg[k])
                     && (cfg[k].json.master == Some(true) || (cfg[k].json.master == None && before))
    else before
  }

  /** Some name, old or in an entry, ends up as a slave, whether or not it is kept. */
  ghost predicate SlaveLeft(s: State, cfg: seq<Entry>) {
    exists m :: (m in s.table || m in EntryNames(cfg)) && !EndsMaster(s, cfg, m)
  }

  /** The entry for a name that has what it needs. */
  function EntryFor(was: Option<Conf>, cfg: seq<Entry>, n: string): (r: Option<Entry>)
    ensures r.Some? ==> r.value in cfg && r.value.name == n && Accepts(was, r.value)
    ensures r.None? ==> forall k :: 0 <= k < |cfg| && cfg[k].name == n ==> !Accepts(was, cfg[k])
    decreases |cfg|
  {
    if cfg == [] then None
    else if cfg[0].name == n && Accepts(was, cfg[0]) then Some(cfg[0])
    else
      assert forall k :: 0 < k < |cfg| ==> cfg[k] == cfg[1..][k - 1];
      EntryFor(was, cfg[1..], n)
  }

  /** The netdev a name ends up on: that of its entry, or the one remembered. */
  function EndNetdev(s: State, cfg: seq<Entry>, n: string): Netdev {
    var was := ConfOf(s.table, n);
    match EntryFor(was, cfg, n)
    case None => LastNetdev(was)
    case Some(e) =>
      if e.json.ifname.None? then LastNetdev(was)
      else Netdev(e.json.ifname.value, e.link.value.index, e.link.value.running)
  }

  lemma EndNetdevReached(s: State, cfg: seq<Entry>, n: string, c: Conf)
    requires Claimed(s, cfg, n) ==>
      forall k :: 0 <= k < |cfg| && cfg[k].name == n && Accepts(ConfOf(s.table, n), cfg[k]) ==>
        ConfiguredAs(c, ConfOf(s.table, n), cfg[k])
    requires !Claimed(s, cfg, n) ==> RejectedAs(c, ConfOf(s.table, n))
    ensures NetdevOf(c) == EndNetdev(s, cfg, n)
  {
    var was := ConfOf(s.table, n);
    var e := EntryFor(was, cfg, n);
    if e.Some? {
      var k :| 0 <= k < |cfg| && cfg[k] == e.value;
      assert ConfiguredAs(c, was, cfg[k]);
    }
  }

  /** After parsing: claimed interfaces are in use with the settings of their entry, all others are reset. */
  lemma ParsedOutcome(s: State, cfg: seq<Entry>, n: string)
    requires Distinct(EntryNames(cfg)) && n in ParseAll(ResetAll(s), cfg).table
    ensures
      var c := ParseAll(ResetAll(s), cfg).table[n].conf;
      var was := ConfOf(s.table, n);
      && AllRelaying(c) && (c.inuse <==> Claimed(s, cfg, n)) && (c.master <==> EndsMaster(s, cfg, n))
      && NetdevOf(c) == EndNetdev(s, cfg, n)
      && (forall k :: 0 <= k < |cfg| && cfg[k].name == n && Accepts(was, cfg[k]) ==> ConfiguredAs(c, was, cfg[k]))
  {
    hide ResetAll, ParseAll, EntryNames, Accepts, Distinct, EndNetdev;
    ResetOutcome(s, cfg, n);
    ParseAllOutcome(ResetAll(s), cfg, n);
    NamedIff(cfg, n);
    hide ResetBut, ConfOf;
    var was := ConfOf(s.table, n);
    if n in EntryNames(cfg) && !Claimed(s, cfg, n) {
      assert forall k :: 0 <= k < |cfg| && cfg[k].name == n ==> !Accepts(was, cfg[k]);
    }
    EndNetdevReached(s, cfg, n, ParseAll(ResetAll(s), cfg).table[n].conf);
  }

  lemma ConfigureKeys(s: State, cfg: seq<Entry>)
    requires Distinct(EntryNames(cfg))
    ensures ParseAll(ResetAll(s), cfg).table.Keys == s.table.Keys + Elements(EntryNames(cfg))
    ensures Configure(s, cfg).table.Keys == s.table.Keys + Elements(EntryNames(cfg))
  {
    hide ParseAll, EntryNames, Distinct;
    ParseAllOutcome(ResetAll(s), cfg, "");
  }

  lemma SlaveLeftIff(s: State, cfg: seq<Entry>)
    requires Distinct(EntryNames(cfg))
    ensures AnySlave(ParseAll(ResetAll(s), cfg).table) <==> SlaveLeft(s, cfg)
  {
    hide ParseAll, ResetAll, EntryNames, EndsMaster, Distinct, Claimed, ConfiguredAs, Accepts;
    ConfigureKeys(s, cfg);
    var T := ParseAll(ResetAll(s), cfg).table;
    forall m | m in T ensures T[m].master <==> EndsMaster(s, cfg, m) { ParsedOutcome(s, cfg, m); }
    forall m ensures m in T <==> m in s.table || m in EntryNames(cfg) {
      assert m in Elements(EntryNames(cfg)) <==> m in EntryNames(cfg);
    }
  }

  lemma ConfigureOutcome(s: State, cfg: seq<Entry>, n: string)
    requires Distinct(EntryNames(cfg)) && n in Configure(s, cfg).table
    ensures
      var T := Configure(s, cfg).table;
      var was := ConfOf(s.table, n);
      var relays := !EndsMaster(s, cfg, n) || SlaveLeft(s, cfg);
      && (T[n].inuse <==> Claimed(s, cfg, n)) && (T[n].master <==> EndsMaster(s, cfg, n))
      && NetdevOf(T[n].conf) == EndNetdev(s, cfg, n)
      && (forall k :: 0 <= k < |cfg| && cfg[k].name == n && Accepts(was, cfg[k]) ==> ConfiguredAs(T[n].conf, was, cfg[k]))
      && (T[n].ra.Relay? <==> relays) && (T[n].dhcpv6.Relay? <==> relays) && (T[n].ndp.Relay? <==> relays)
    ensures Configure(s, cfg).table.Keys == s.table.Keys + Elements(EntryNames(cfg))
  {
    hide ResetAll, ParseAll, DisableIdleMasters, EntryNames, Accepts, Claimed, AnySlave, EndsMaster, SlaveLeft, EndNetdev;
    var s2 := ParseAll(ResetAll(s), cfg);
    ConfigureKeys(s, cfg);
    IdleKeepsRoles(s2);
    SlaveLeftIff(s, cfg);
    forall m | m in s2.table ensures AllRelaying(s2.table[m].conf) { ParsedOutcome(s, cfg, m); }
    IdleOutcome(s2, n);
    ParsedOutcome(s, cfg, n);
  }

  // ---------- the whole reload ----------

  /**
   * The outcome of a reload, whatever the configuration was before and in whatever order it is walked: exactly
   * the interfaces with an entry that has what it needs are there, with its settings or the defaults for those
   * it leaves out; the master role, and the netdev, are remembered where it says nothing about them. A master
   * relays exactly when some name, kept or not, ends up as a slave.
   */
  lemma ReloadOutcome(s: State, cfg: seq<Entry>, order: seq<Restart>, n: string)
    requires Distinct(EntryNames(cfg)) && Enabled(s, EvReload(cfg, order))
    ensures
      var T := Reload(s, cfg, order).table;
      var was := ConfOf(s.table, n);
      var relays := !EndsMaster(s, cfg, n) || SlaveLeft(s, cfg);
      && (n in T <==> Claimed(s, cfg, n))
      && (n in T ==>
            && (T[n].master <==> EndsMaster(s, cfg, n))
            && (forall k :: 0 <= k < |cfg| && cfg[k].name == n && Accepts(was, cfg[k]) ==> ConfiguredAs(T[n].conf, was, cfg[k]))
            && (T[n].ra.Relay? <==> relays) && (T[n].dhcpv6.Relay? <==> relays) && (T[n].ndp.Relay? <==> relays))
  {
    hide Configure, RestartAll, EntryNames, Accepts, ConfiguredAs, EndsMaster, SlaveLeft;
    var s1 := Configure(s, cfg);
    RestartAllOutcome(s1, order);
    NamedIff(cfg, n);
    if n in s1.table {
      assert n in Elements(RestartNames(order));
      ConfigureOutcome(s, cfg, n);
    } else {
      ConfigureKeys(s, cfg);
    }
  }

  /** A name that is not kept but ends up as a slave keeps every master relaying until the next reload. */
  lemma UnclaimedSlaveCounts(s: State, cfg: seq<Entry>, order: seq<Restart>, lan: string, wan: string)
    requires Distinct(EntryNames(cfg)) && Enabled(s, EvReload(cfg, order))
    requires (lan in s.table || lan in EntryNames(cfg)) && !Claimed(s, cfg, lan) && !EndsMaster(s, cfg, lan)
    requires wan in Reload(s, cfg, order).table
    ensures lan !in Reload(s, cfg, order).table
    ensures AllRelaying(Reload(s, cfg, order).table[wan].conf)
  {
    assert SlaveLeft(s, cfg);
    hide Reload, EntryNames, Claimed, EndsMaster, SlaveLeft, ConfiguredAs, Accepts;
    ReloadOutcome(s, cfg, order, lan);
    ReloadOutcome(s, cfg, order, wan);
  }

  /** Such is a slave that the new configuration drops ... */
  lemma DroppedSlaveCounts(s: State, cfg: seq<Entry>, order: seq<Restart>, lan: string, wan: string)
    requires Distinct(EntryNames(cfg)) && Enabled(s, EvReload(cfg, order))
    requires lan in s.table && !s.table[lan].master && lan !in EntryNames(cfg)
    requires wan in Reload(s, cfg, order).table
    ensures lan !in Reload(s, cfg, order).table
    ensures AllRelaying(Reload(s, cfg, order).table[wan].conf)
  {
    NamedIff(cfg, lan);
    assert !Claimed(s, cfg, lan) && !EndsMaster(s, cfg, lan);
    hide Reload, EntryNames, Claimed, EndsMaster;
    UnclaimedSlaveCounts(s, cfg, order, lan, wan);
  }

  /** ... and a new entry that is rejected, because no link has its netdev name or because it names none. */
  lemma RejectedEntryCounts(s: State, cfg: seq<Entry>, order: seq<Restart>, k: nat, wan: string)
    requires Distinct(EntryNames(cfg)) && Enabled(s, EvReload(cfg, order)) && k < |cfg|
    requires cfg[k].name !in s.table && (cfg[k].json.ifname.Some? ==> cfg[k].link.None?)
    requires wan in Reload(s, cfg, order).table
    ensures cfg[k].name !in Reload(s, cfg, order).table
    ensures AllRelaying(Reload(s, cfg, order).table[wan].conf)
  {
    var n := cfg[k].name;
    NamedIff(cfg, n);
    assert EntryNames(cfg)[k] == n;
    forall j | 0 <= j < |cfg| && cfg[j].name == n ensures j == k { assert EntryNames(cfg)[j] == n; }
    assert !Claimed(s, cfg, n) && !EndsMaster(s, cfg, n);
    hide Reload, EntryNames, Claimed, EndsMaster;
    UnclaimedSlaveCounts(s, cfg, order, n, wan);
  }

  // ---------- tracked hosts across a reload ----------

  /** A restart adds tracked hosts on the restarted interface only, if it runs, and removes none. */
  lemma RestartTracks(s: State, n: string, f: Faults)
    requires n in s.table
    ensures s.mirrored <= ReloadServices(s, n, f).mirrored
    ensures forall k :: k in ReloadServices(s, n, f).mirrored - s.mirrored ==>
      s.table[n].running && k.ifindex == s.table[n].ifindex
  {
    hide RouterSetup, DhcpSetup, NdpSetup, Seedable, MirrorAddrs;
    if !s.table[n].running { DisableFollows(s, n); }
  }

  lemma RestartOneTracks(s: State, r: Restart)
    requires r.name in s.table
    ensures
      var s2 := RestartOne(s, r);
      && s.mirrored <= s2.mirrored
      && forall k :: k in s2.mirrored - s.mirrored ==>
           s.table[r.name].inuse && s.table[r.name].running && k.ifindex == s.table[r.name].ifindex
  {
    hide ReloadServices, CloseInterface;
    RestartTracks(s, r.name, r.faults);
    ClosedDirectly(s, r.name);
  }

  /** The index is that of a running interface that stays. */
  ghost predicate Kept(T: Table, ifindex: int) {
    exists n :: n in T && T[n].inuse && T[n].ifindex == ifindex
  }

  lemma KeptBack(T: Table, U: Table, ifindex: int)
    requires (forall m :: m in U ==> m in T && U[m].conf == T[m].conf) && Kept(U, ifindex)
    ensures Kept(T, ifindex)
  {
    var n :| n in U && U[n].inuse && U[n].ifindex == ifindex;
    assert T[n].inuse && T[n].ifindex == ifindex;
  }

  /** The final pass keeps every tracked host, and adds hosts of interfaces that stay and run only. */
  lemma {:induction false} RestartAllTracks(s: State, order: seq<Restart>)
    requires RunningIndexed(s.table)
    ensures
      var s2 := RestartAll(s, order);
      s.mirrored <= s2.mirrored && forall k :: k in s2.mirrored - s.mirrored ==> k.ifindex > 0 && Kept(s.table, k.ifindex)
    decreases |order|
  {
    if order != [] && order[0].name in s.table {
      var s1 := RestartOne(s, order[0]);
      RestartOneOutcome(s, order[0]);
      RestartOneTracks(s, order[0]);
      hide RestartOne;
      RestartAllTracks(s1, order[1..]);
      var s2 := RestartAll(s1, order[1..]);
      forall k | k in s2.mirrored - s.mirrored ensures k.ifindex > 0 && Kept(s.table, k.ifindex) {
        if k in s1.mirrored {
          assert s.table[order[0].name].inuse && s.table[order[0].name].ifindex == k.ifindex;
        } else {
          KeptBack(s.table, s1.table, k.ifindex);
        }
      }
    }
  }

  lemma KeptIffConfigured(T: Table, U: Table, ifindex: int)
    requires (forall m :: m in U <==> m in T && T[m].inuse) && (forall m :: m in U ==> U[m].conf == T[m].conf)
    ensures Configured(U, ifindex) <==> Kept(T, ifindex)
  {
    if n :| n in U && U[n].ifindex == ifindex { assert T[n].inuse && T[n].ifindex == ifindex; }
    if n :| n in T && T[n].inuse && T[n].ifindex == ifindex { assert U[n].ifindex == ifindex; }
  }

  /**
   * A whole reload leaves no tracked host stale exactly when every host still tracked before the final pass
   * sits on the index of an interface that stays.
   */
  lemma FinalPassStaleIff(s: State, cfg: seq<Entry>, order: seq<Restart>)
    requires Fresh(s) && Enabled(s, EvReload(cfg, order))
    ensures
      var s1 := Configure(s, cfg);
      NoStale(Reload(s, cfg, order)) <==> forall k :: k in s1.mirrored ==> Kept(s1.table, k.ifindex)
  {
    var s1 := Configure(s, cfg);
    ConfigureFresh(s, cfg);
    hide Configure;
    RestartAllOutcome(s1, order);
    RestartAllTracks(s1, order);
    var s2 := RestartAll(s1, order);
    forall m ensures m in s2.table <==> m in s1.table && s1.table[m].inuse {
      if m in s1.table { assert m in Elements(RestartNames(order)); }
    }
    hide RestartAll, Kept, Configured;
    forall x ensures Configured(s2.table, x) <==> Kept(s1.table, x) { KeptIffConfigured(s1.table, s2.table, x); }
  }

  // ---------- hosts left behind ----------

  /** No interface but `lan`, and no entry, has the index. */
  ghost predicate OnlyOn(T: Table, lan: string, x: int, cfg: seq<Entry>) {
    && (forall n :: n in T && n != lan ==> T[n].ifindex != x)
    && (forall k :: 0 <= k < |cfg| && cfg[k].link.Some? ==> cfg[k].link.value.index != x)
  }

  lemma AcceptedKeepsIndex(s: State, e: Entry, lan: string, x: int)
    requires e.name in s.table && e.name != lan && OnlyOn(s.table, lan, x, [e]) && !Rejected(s.table[e.name], e)
    ensures OnlyOn(Accepted(s, e).table, lan, x, [])
    ensures forall k :: k in s.mirrored && k.ifindex == x ==> k in Accepted(s, e).mirrored
  {
    hide Detach, Refreshed;
    assert [e][0] == e;
    DetachClears(s, e.name);
  }

  lemma {:induction false} ParseAllKeepsIndex(s: State, cfg: seq<Entry>, lan: string, x: int)
    requires OnlyOn(s.table, lan, x, cfg) && x != 0 && forall k :: 0 <= k < |cfg| ==> cfg[k].name != lan
    ensures OnlyOn(ParseAll(s, cfg).table, lan, x, [])
    ensures forall k :: k in s.mirrored && k.ifindex == x ==> k in ParseAll(s, cfg).mirrored
    decreases |cfg|
  {
    if cfg != [] {
      var e := cfg[0];
      var s0 := FindOrCreate(s, e.name);
      assert OnlyOn(s0.table, lan, x, [e]);
      if !Rejected(s0.table[e.name], e) { AcceptedKeepsIndex(s0, e, lan, x); }
      hide Accepted;
      var s1 := Parse(s, e);
      assert OnlyOn(s1.table, lan, x, cfg[1..]);
      ParseAllKeepsIndex(s1, cfg[1..], lan, x);
    }
  }

  /** A reload that drops an interface leaves each host tracked there stale, unless another interface has the index. */
  lemma DroppedHostStale(s: State, cfg: seq<Entry>, order: seq<Restart>, lan: string, k: Key)
    requires Distinct(EntryNames(cfg)) && Enabled(s, EvReload(cfg, order))
    requires lan in s.table && lan !in EntryNames(cfg) && k in s.mirrored && k.ifindex == s.table[lan].ifindex != 0
    requires OnlyOn(s.table, lan, k.ifindex, cfg)
    ensures
      var s2 := Reload(s, cfg, order);
      k in s2.mirrored && !Configured(s2.table, k.ifindex)
  {
    NamedIff(cfg, lan);
    var s1 := ParseAll(ResetAll(s), cfg);
    assert OnlyOn(ResetAll(s).table, lan, k.ifindex, cfg);
    ParseAllKeepsIndex(ResetAll(s), cfg, lan, k.ifindex);
    var s2 := Configure(s, cfg);
    assert OnlyOn(s2.table, lan, k.ifindex, []) && k in s2.mirrored by { IdleKeepsIndexes(s1); }
    ReloadOutcome(s, cfg, order, lan);
    hide EntryNames, Configure, ResetAll, ParseAll, Accepts;
    RestartAllOutcome(s2, order);
    RestartAllKeepsTracked(s2, order);
  }

  lemma IdleKeepsIndexes(s: State)
    ensures DisableIdleMasters(s).mirrored == s.mirrored && DisableIdleMasters(s).table.Keys == s.table.Keys
    ensures forall n :: n in s.table ==> DisableIdleMasters(s).table[n].ifindex == s.table[n].ifindex
  {
    hide SlavesOf;
  }

  lemma {:induction false} RestartAllKeepsTracked(s: State, order: seq<Restart>)
    ensures s.mirrored <= RestartAll(s, order).mirrored
    decreases |order|
  {
    hide RestartOne;
    if order != [] && order[0].name in s.table {
      RestartOneTracks(s, order[0]);
      RestartAllKeepsTracked(RestartOne(s, order[0]), order[1..]);
    }
  }

  /** With an unreadable configuration every interface is closed, and every tracked host goes stale. */
  lemma UnreadableConfiguration(s: State, order: seq<Restart>)
    requires Enabled(s, EvReload([], order))
    ensures
      var s2 := Reload(s, [], order);
      s2.table == map[] && s.mirrored <= s2.mirrored && (NoStale(s2) ==> s.mirrored == {})
  {
    forall n ensures n !in Reload(s, [], order).table { ReloadOutcome(s, [], order, n); }
    assert Reload(s, [], order).table.Keys == {};
    IdleKeepsIndexes(ResetAll(s));
    RestartAllKeepsTracked(Configure(s, []), order);
  }

  // ---------- solicitations ----------

  /** The interface has sent `k` solicitations of this generation, and has a timer exactly if more are to come. */
  ghost predicate SentSoFar(s: State, n: string, gen: nat, k: nat) {
    && n in s.table && Current(s.table[n], gen) && LinkLocalOf(s.table[n].cache).Some? && s.table[n].raSent == k
    && var tok := Token(s.table[n].id, gen);
       s.os.sent[tok] == k && s.os.timers[tok] == if k < 3 then 1 else 0
  }

  /** The timer expires and the closure it posts runs, the send succeeding; `k` times. */
  function Firings(tok: Token, n: string, k: nat): seq<Event> {
    if k == 0 then [] else [EvSolicitExpires(tok), EvSolicit(tok, Some(n), true)] + Firings(tok, n, k - 1)
  }

  lemma FiringSends(s: State, n: string, gen: nat, k: nat)
    requires SentSoFar(s, n, gen, k) && k < 3
    ensures
      var tok := Token(s.table[n].id, gen);
      var s2 := RunSolicit(Expire(s, tok), tok, Some(n), true);
      && tok in s.os.timers && tok in Expire(s, tok).os.queued
      && n in s2.table && SentSoFar(s2, n, gen, k + 1) && s2.table[n].id == s.table[n].id
  {
    hide FirstLinkLocal;
  }

  /** A run with one more event in front. */
  lemma RunCons(s: State, e: Event, es: seq<Event>)
    requires Enabled(s, e) && Run(Step(s, e), es)
    ensures Run(s, [e] + es) && After(s, [e] + es) == After(Step(s, e), es)
  {
    hide Enabled, Step;
    assert ([e] + es)[1..] == es;
  }

  /** The two events of one firing, in front of a run. */
  lemma FiringRuns(s: State, n: string, tok: Token, es: seq<Event>)
    requires n in s.table && s.table[n].id == tok.id && tok in s.os.timers
    requires Run(RunSolicit(Expire(s, tok), tok, Some(n), true), es)
    ensures
      var es2 := [EvSolicitExpires(tok), EvSolicit(tok, Some(n), true)] + es;
      Run(s, es2) && After(s, es2) == After(RunSolicit(Expire(s, tok), tok, Some(n), true), es)
  {
    hide SolicitFire, Run, After;
    var e1, e2 := EvSolicitExpires(tok), EvSolicit(tok, Some(n), true);
    RunCons(Expire(s, tok), e2, es);
    RunCons(s, e1, [e2] + es);
    assert [e1] + ([e2] + es) == [e1, e2] + es;
  }

  lemma {:induction false} FiringsSend(s: State, n: string, gen: nat, j: nat, k: nat)
    requires n in s.table && SentSoFar(s, n, gen, j) && j + k <= 3
    ensures
      var es := Firings(Token(s.table[n].id, gen), n, k);
      Run(s, es) && SentSoFar(After(s, es), n, gen, j + k)
    decreases k
  {
    hide SentSoFar, RunSolicit, Run, After, Enabled, Step;
    var tok := Token(s.table[n].id, gen);
    if k == 0 {
      NoRun(s);
    } else {
      FiringSends(s, n, gen, j);
      FiringsSend(RunSolicit(Expire(s, tok), tok, Some(n), true), n, gen, j + 1, k - 1);
      FiringRuns(s, n, tok, Firings(tok, n, k - 1));
    }
  }

  lemma NoRun(s: State)
    ensures Run(s, []) && After(s, []) == s
  {
  }

  lemma FirstTimer(s: State, n: string)
    requires Inv(s) && n in s.table && s.table[n].master && s.table[n].ra.Relay? && LinkLocalOf(s.table[n].cache).Some?
    ensures
      var s1 := SetupRouter(s, n, true, RNone);
      n in s1.table && SentSoFar(s1, n, s.table[n].rsTimerN + 1, 0) && s1.table[n].id == s.table[n].id
  {
    hide Inv, FirstLinkLocal, LinkLocalOf, RouterSetup;
    NextTokenUnused(s, n);
    RouterStarts(s.table[n], s.os);
  }

  lemma NextTokenUnused(s: State, n: string)
    requires Inv(s) && n in s.table
    ensures
      var tok := Token(s.table[n].id, s.table[n].rsTimerN + 1);
      s.os.timers[tok] == 0 && s.os.sent[tok] == 0
  {
    var tok := Token(s.table[n].id, s.table[n].rsTimerN + 1);
    assert Tokens(s.table[n], s.os);
    assert !Pending(s.os, tok);
  }

  lemma RouterStarts(i: Iface, os: Os)
    requires i.master && i.ra.Relay?
    ensures
      var r := RouterSetup(i, os, true, RNone);
      var tok := Token(i.id, i.rsTimerN + 1);
      && Current(r.i, i.rsTimerN + 1) && r.i.raSent == 0 && r.i.cache == i.cache && r.i.id == i.id
      && r.os.sent == os.sent && r.os.timers == os.timers + multiset{tok}
  {
  }

  /**
   * A master whose router socket comes up, and that has a link-local address, sends exactly three solicitations
   * as its timer expires and its closures run: after each of the first two it has a timer, after the third none.
   */
  lemma ThreeSolicitations(s: State, n: string, k: nat)
    requires Inv(s) && n in s.table && s.table[n].master && s.table[n].ra.Relay? && LinkLocalOf(s.table[n].cache).Some?
    requires k <= 3
    ensures
      var s1 := SetupRouter(s, n, true, RNone);
      var gen := s.table[n].rsTimerN + 1;
      var es := Firings(Token(s.table[n].id, gen), n, k);
      Run(s1, es) && SentSoFar(After(s1, es), n, gen, k)
  {
    FirstTimer(s, n);
    hide SetupRouter, SentSoFar, Inv, Run, After, Firings;
    FiringsSend(SetupRouter(s, n, true, RNone), n, s.table[n].rsTimerN + 1, 0, k);
  }
}

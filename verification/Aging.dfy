/** What runs never take back: closed handles stay closed, superseded timer generations stay silent. */
module Aging {
  import opened Common
  import opened Addresses
  import opened KernelModel
  import opened Model
  import opened Services
  import opened LinkLocal
  import opened Mirror
  import opened Daemon
  import opened Ownership
  import opened Lifecycle

  /** Issued and no longer open. */
  predicate Retired(os: Os, h: Handle) {
    h in os.issued && h !in os.open
  }

  ghost predicate RetiredStay(os: Os, os2: Os) {
    forall h :: Retired(os, h) ==> Retired(os2, h)
  }

  /** The later table knows no identity that is neither new nor at least as far in its generations. */
  ghost predicate Advanced(T: Table, nextId: nat, T2: Table) {
    forall n :: n in T2 ==>
      T2[n].id >= nextId || exists m :: m in T && T[m].id == T2[n].id && T[m].rsTimerN <= T2[n].rsTimerN
  }

  /** Each socket record was held under the same identity before, or has a done channel issued since. */
  ghost predicate FromOrNew(T: Table, os: Os, j: Iface) {
    && (j.router.Some? ==> j.router.value.done !in os.issued || exists m :: m in T && T[m].id == j.id && T[m].router == j.router)
    && (j.dhcp.Some? ==> j.dhcp.value.done !in os.issued || exists m :: m in T && T[m].id == j.id && T[m].dhcp == j.dhcp)
    && (j.nd.Some? ==> j.nd.value.done !in os.issued || exists m :: m in T && T[m].id == j.id && T[m].nd == j.nd)
  }

  ghost predicate RecordsKept(T: Table, os: Os, T2: Table) {
    forall n :: n in T2 ==> FromOrNew(T, os, T2[n])
  }

  ghost predicate Ages(s: State, s2: State) {
    && RetiredStay(s.os, s2.os) && s.os.issued <= s2.os.issued && s.os.nextId <= s2.os.nextId
    && Advanced(s.table, s.os.nextId, s2.table) && RecordsKept(s.table, s.os, s2.table)
  }

  /** Aging without a timer-driven solicitation. */
  ghost predicate Quiet(s: State, s2: State) {
    Ages(s, s2) && s2.os.sent == s.os.sent
  }

  lemma AgesTwice(s: State, s2: State, s3: State)
    requires Ages(s, s2) && Ages(s2, s3)
    ensures Ages(s, s3)
  {
    forall n | n in s3.table && s3.table[n].id < s.os.nextId
      ensures exists m :: m in s.table && s.table[m].id == s3.table[n].id && s.table[m].rsTimerN <= s3.table[n].rsTimerN
    {
      var m :| m in s2.table && s2.table[m].id == s3.table[n].id && s2.table[m].rsTimerN <= s3.table[n].rsTimerN;
      var l :| l in s.table && s.table[l].id == s2.table[m].id && s.table[l].rsTimerN <= s2.table[m].rsTimerN;
    }
    RecordsKeptTwice(s.table, s.os, s2.table, s2.os, s3.table);
  }

  lemma RecordsKeptTwice(T: Table, os: Os, T2: Table, os2: Os, T3: Table)
    requires RecordsKept(T, os, T2) && RecordsKept(T2, os2, T3) && os.issued <= os2.issued
    ensures RecordsKept(T, os, T3)
  {
    forall n | n in T3 ensures FromOrNew(T, os, T3[n]) {
      var j := T3[n];
      assert FromOrNew(T2, os2, j);
      if j.router.Some? && j.router.value.done in os.issued {
        var m :| m in T2 && T2[m].id == j.id && T2[m].router == j.router;
        assert FromOrNew(T, os, T2[m]);
      }
      if j.dhcp.Some? && j.dhcp.value.done in os.issued {
        var m :| m in T2 && T2[m].id == j.id && T2[m].dhcp == j.dhcp;
        assert FromOrNew(T, os, T2[m]);
      }
      if j.nd.Some? && j.nd.value.done in os.issued {
        var m :| m in T2 && T2[m].id == j.id && T2[m].nd == j.nd;
        assert FromOrNew(T, os, T2[m]);
      }
    }
  }

  lemma QuietTwice(s: State, s2: State, s3: State)
    requires Quiet(s, s2) && Quiet(s2, s3)
    ensures Quiet(s, s3)
  {
    hide Ages;
    AgesTwice(s, s2, s3);
  }

  /** The later table's interfaces are earlier ones with the same identity and sockets. */
  ghost predicate SameOrFewer(T: Table, T2: Table) {
    forall n :: n in T2 ==>
      && n in T && T[n].id == T2[n].id && T[n].rsTimerN <= T2[n].rsTimerN
      && T[n].router == T2[n].router && T[n].dhcp == T2[n].dhcp && T[n].nd == T2[n].nd
  }

  /** Same handles and identities; interfaces may be missing, their generations may have advanced. */
  lemma SameIdsAge(s: State, s2: State)
    requires s2.os.issued == s.os.issued && s2.os.open == s.os.open && s2.os.nextId == s.os.nextId
    requires SameOrFewer(s.table, s2.table)
    ensures Ages(s, s2)
  {
    forall n | n in s2.table ensures FromOrNew(s.table, s.os, s2.table[n]) {
      assert s.table[n].id == s2.table[n].id && s.table[n].router == s2.table[n].router
             && s.table[n].dhcp == s2.table[n].dhcp && s.table[n].nd == s2.table[n].nd;
    }
  }

  lemma RedoneQuiet(s: State, n: string, s2: State)
    requires Redone(s, n, s2) && Owned(s)
    ensures Quiet(s, s2)
  {
    forall m | m in s2.table
      ensures m in s.table && s.table[m].id == s2.table[m].id && s.table[m].rsTimerN <= s2.table[m].rsTimerN
              && FromOrNew(s.table, s.os, s2.table[m])
    {
      assert m != n ==> s2.table[m] == s.table[m];
    }
  }

  lemma ReplacedQuiet(s: State, n: string, j: Iface, s2: State)
    requires Replaced(s, n, j, s2)
    ensures Quiet(s, s2)
  {
    SameIdsAge(s, s2);
  }

  /** Detaching an interface and giving it a new configuration. */
  lemma DetachedQuiet(s: State, n: string, s1: State, j: Iface, s2: State)
    requires Owned(s) && Redone(s, n, s1) && Replaced(s1, n, j, s2)
    ensures Quiet(s, s2)
  {
    hide Owned, Redone, Replaced, Quiet;
    RedoneQuiet(s, n, s1);
    ReplacedQuiet(s1, n, j, s2);
    QuietTwice(s, s1, s2);
  }

  lemma RestartQuiet(s: State, n: string, f: Faults)
    requires Owned(s) && n in s.table
    ensures Quiet(s, ReloadServices(s, n, f))
  {
    hide Owned, Redone, ReloadServices, Quiet;
    ReloadServicesRedone(s, n, f);
    RedoneQuiet(s, n, ReloadServices(s, n, f));
  }

  lemma DelLinkQuiet(s: State, n: string, index: int, addrs: seq<IPAddr>, f: Faults)
    requires Owned(s) && n in s.table && s.table[n].ifindex == index
    ensures Quiet(s, HandleLink(s, n, DelLink(index), addrs, f))
  {
    hide Owned, Detach, Quiet, Exchanged;
    DetachRedone(s, n);
    var s1 := Detach(s, n);
    DetachedQuiet(s, n, s1, Gone(s1.table[n]), s1.(table := s1.table[n := Gone(s1.table[n])]));
  }

  lemma NewIndexQuiet(s: State, n: string, index: int, running: bool, addrs: seq<IPAddr>, f: Faults)
    requires Steady(s) && n in s.table && s.table[n].ifindex != index
    ensures Quiet(s, HandleLink(s, n, NewLink(index, running), addrs, f))
  {
    hide Detach, Quiet, Exchanged, ReloadServices, HandlesOwned, TokensOwned;
    DetachRedone(s, n);
    var s1 := Detach(s, n);
    var i1 := Refresh(Attach(s1.table[n], s1.table[n].ifname, Link(index, running)), addrs);
    var s2 := s1.(table := s1.table[n := i1]);
    DetachedQuiet(s, n, s1, i1, s2);
    RedoneKeepsSteady(s, n, s1);
    ReplaceKeepsOwned(s1, n, i1, s2);
    RestartQuiet(s2, n, f);
    QuietTwice(s, s2, ReloadServices(s2, n, f));
  }

  lemma RunningChangeQuiet(s: State, n: string, index: int, running: bool, addrs: seq<IPAddr>, f: Faults)
    requires Owned(s) && n in s.table && s.table[n].ifindex == index
    ensures Quiet(s, HandleLink(s, n, NewLink(index, running), addrs, f))
  {
    hide Quiet, ReloadServices, HandlesOwned, TokensOwned;
    var i := WithRunning(s.table[n], running);
    var j := if s.table[n].running != running && running then Refresh(i, addrs) else i;
    var s1 := s.(table := s.table[n := j]);
    ReplacedQuiet(s, n, j, s1);
    if s.table[n].running != running {
      ReplaceKeepsOwned(s, n, j, s1);
      RestartQuiet(s1, n, f);
      QuietTwice(s, s1, ReloadServices(s1, n, f));
    }
  }

  lemma HandleLinkQuiet(s: State, n: string, u: LinkEvent, addrs: seq<IPAddr>, f: Faults)
    requires Steady(s) && n in s.table
    ensures Quiet(s, HandleLink(s, n, u, addrs, f))
  {
    hide HandlesOwned, TokensOwned, Quiet, Detach, ReloadServices, CachesAgree;
    match u {
      case DelLink(index) =>
        if s.table[n].ifindex == index { DelLinkQuiet(s, n, index, addrs, f); } else { NothingQuiet(s); }
      case NewLink(index, running) =>
        hide HandleLink;
        if s.table[n].ifindex == index {
          RunningChangeQuiet(s, n, index, running, addrs, f);
        } else {
          NewIndexQuiet(s, n, index, running, addrs, f);
        }
    }
  }

  lemma CreateQuiet(s: State, n: string)
    requires n !in s.table
    ensures Quiet(s, FindOrCreate(s, n))
  {
    var s2 := FindOrCreate(s, n);
    forall m | m in s2.table && m != n
      ensures exists l :: l in s.table && s.table[l].id == s2.table[m].id && s.table[l].rsTimerN <= s2.table[m].rsTimerN
      ensures FromOrNew(s.table, s.os, s2.table[m])
    {
      assert s.table[m] == s2.table[m];
    }
  }

  lemma MovedQuiet(s: State, n: string, newIfname: string, link: Link, addrs: seq<IPAddr>)
    requires Steady(s) && n in s.table
    ensures Quiet(s, Moved(s, n, newIfname, link, addrs))
  {
    hide Detach, Exchanged, HandlesOwned, TokensOwned, Quiet;
    var i := s.table[n];
    var leaves := i.ifindex != 0 && (i.ifname != newIfname || i.ifindex != link.index);
    var s2 := if leaves then Detach(s, n) else s;
    DetachRedone(s, n);
    var j := Refresh(Attach(s2.table[n], newIfname, link), addrs);
    if leaves { DetachedQuiet(s, n, s2, j, Moved(s, n, newIfname, link, addrs)); }
    else { ReplacedQuiet(s, n, j, Moved(s, n, newIfname, link, addrs)); }
  }

  lemma AcceptedQuiet(s: State, e: Entry)
    requires Steady(s) && e.name in s.table && (e.json.ifname.Some? ==> e.link.Some?)
    ensures Quiet(s, Accepted(s, e))
  {
    hide Moved, Quiet, Steady;
    var n := e.name;
    var s2 := if e.json.ifname.None? then s else Moved(s, n, e.json.ifname.value, e.link.value, e.addrs);
    if e.json.ifname.Some? { MovedQuiet(s, n, e.json.ifname.value, e.link.value, e.addrs); } else { NothingQuiet(s); }
    ReplacedQuiet(s2, n, Options(s2.table[n], e.json), Accepted(s, e));
    QuietTwice(s, s2, Accepted(s, e));
  }

  lemma ParseQuiet(s: State, e: Entry)
    requires Steady(s)
    ensures Quiet(s, Parse(s, e))
  {
    hide Steady, Quiet, Accepted;
    var n := e.name;
    var s1 := FindOrCreate(s, n);
    if n !in s.table { CreateKeeps(s, n); CreateQuiet(s, n); } else { NothingQuiet(s); }
    assert Steady(s1) && Quiet(s, s1);
    if !Rejected(s1.table[n], e) {
      AcceptedQuiet(s1, e);
      QuietTwice(s, s1, Parse(s, e));
    }
  }

  lemma NothingQuiet(s: State)
    ensures Quiet(s, s)
  {
  }

  lemma {:induction false} ParseAllQuiet(s: State, cfg: seq<Entry>)
    requires Steady(s)
    ensures Quiet(s, ParseAll(s, cfg))
    decreases |cfg|
  {
    hide Quiet, Steady, Parse;
    if cfg == [] {
      NothingQuiet(s);
    } else {
      ParseKeeps(s, cfg[0]);
      ParseQuiet(s, cfg[0]);
      ParseAllQuiet(Parse(s, cfg[0]), cfg[1..]);
      QuietTwice(s, Parse(s, cfg[0]), ParseAll(s, cfg));
    }
  }

  lemma ResetQuiet(s: State)
    ensures Quiet(s, ResetAll(s))
  {
    SameIdsQuiet(s, ResetAll(s));
  }

  lemma IdleQuiet(s: State)
    ensures Quiet(s, DisableIdleMasters(s))
  {
    SameIdsQuiet(s, DisableIdleMasters(s));
  }

  lemma ConfigureQuiet(s: State, cfg: seq<Entry>)
    requires Steady(s)
    ensures Quiet(s, Configure(s, cfg))
  {
    hide Steady, Quiet, ResetAll, ParseAll, DisableIdleMasters;
    var s1 := ResetAll(s);
    var s2 := ParseAll(s1, cfg);
    ResetQuiet(s);
    ResetKeeps(s);
    ParseAllQuiet(s1, cfg);
    IdleQuiet(s2);
    QuietTwice(s, s1, s2);
    QuietTwice(s, s2, Configure(s, cfg));
  }

  lemma ForgetQuiet(s: State, n: string)
    requires n in s.table
    ensures Quiet(s, s.(table := s.table - {n}, os := StopTimer(s.table[n], s.os).os))
  {
    SameIdsAge(s, s.(table := s.table - {n}, os := StopTimer(s.table[n], s.os).os));
  }

  lemma CloseQuiet(s: State, n: string)
    requires Steady(s) && n in s.table
    ensures Quiet(s, CloseInterface(s, n))
  {
    hide HandlesOwned, TokensOwned, Exchanged, DisableServices, Quiet;
    var s1 := DisableServices(s, n);
    DisableServicesRedone(s, n);
    RedoneQuiet(s, n, s1);
    ForgetQuiet(s1, n);
    QuietTwice(s, s1, CloseInterface(s, n));
  }

  lemma RestartOneQuiet(s: State, r: Restart)
    requires Steady(s) && r.name in s.table
    ensures Quiet(s, RestartOne(s, r))
  {
    hide HandlesOwned, TokensOwned, ReloadServices, CloseInterface, Quiet;
    if s.table[r.name].inuse { RestartQuiet(s, r.name, r.faults); } else { CloseQuiet(s, r.name); }
  }

  lemma {:induction false} RestartAllQuiet(s: State, order: seq<Restart>)
    requires Steady(s)
    ensures Quiet(s, RestartAll(s, order))
    decreases |order|
  {
    hide Quiet, Steady, RestartOne;
    if order == [] || order[0].name !in s.table {
      NothingQuiet(s);
    } else {
      var s1 := RestartOne(s, order[0]);
      RestartOneKeeps(s, order[0]);
      RestartOneQuiet(s, order[0]);
      RestartAllQuiet(s1, order[1..]);
      QuietTwice(s, s1, RestartAll(s, order));
    }
  }

  lemma PingQuiet(s: State, n: string, target: Addr)
    requires n in s.table
    ensures Quiet(s, Ping(s, n, target))
  {
    hide Quiet, ReplaceRoutes, DelRoutes, Searched;
    SameIdsQuiet(s, Ping(s, n, target));
  }

  lemma {:induction false} PingAllQuiet(s: State, names: seq<string>, target: Addr)
    ensures Quiet(s, PingAll(s, names, target))
    decreases |names|
  {
    hide Quiet, Ping;
    if names == [] || names[0] !in s.table {
      NothingQuiet(s);
    } else {
      var s1 := Ping(s, names[0], target);
      PingQuiet(s, names[0], target);
      PingAllQuiet(s1, names[1..], target);
      QuietTwice(s, s1, PingAll(s, names, target));
    }
  }

  lemma SameIdsQuiet(s: State, s2: State)
    requires s2.os == s.os && SameOrFewer(s.table, s2.table)
    ensures Quiet(s, s2)
  {
    SameIdsAge(s, s2);
  }

  lemma ReloadQuiet(s: State, cfg: seq<Entry>, order: seq<Restart>)
    requires Steady(s)
    ensures Quiet(s, Reload(s, cfg, order))
  {
    hide Steady, Quiet, Configure, RestartAll;
    ConfigureKeeps(s, cfg);
    ConfigureQuiet(s, cfg);
    RestartAllQuiet(Configure(s, cfg), order);
    QuietTwice(s, Configure(s, cfg), Reload(s, cfg, order));
  }

  lemma HandleNeighQuiet(s: State, n: string, addr: Addr, nud: Nud)
    requires n in s.table
    ensures Quiet(s, HandleNeigh(s, s.table[n], addr, nud))
  {
    hide MirrorAddrs;
    SameIdsQuiet(s, HandleNeigh(s, s.table[n], addr, nud));
  }

  lemma HandleAddrQuiet(s: State, n: string, addrs: seq<IPAddr>, addr: Addr, add: bool)
    requires n in s.table
    ensures Quiet(s, HandleAddr(s, n, addrs, addr, add))
  {
    hide MirrorAddrs, Quiet, OwnEligible, Refreshed;
    SameIdsQuiet(s, HandleAddr(s, n, addrs, addr, add));
  }

  /** Route and outside events, timer expiry and the reconcile leave table and runtime alone. */
  lemma SimpleStepQuiet(s: State, e: Event)
    requires Enabled(s, e)
    requires e.EvRoute? || e.EvWakeExpires? || e.EvReconcile? || e.EvOutside?
    ensures Quiet(s, Step(s, e))
  {
    hide ReconcileKernel, ReconcileOrder, Qualifies, Quiet;
    SameIdsQuiet(s, Step(s, e));
  }

  /** Every step but a solicitation closure is quiet. */
  lemma StepQuiet(s: State, e: Event)
    requires Inv(s) && Enabled(s, e) && !e.EvSolicit?
    ensures Quiet(s, Step(s, e))
  {
    hide Owned, Settled, CachesAgree, Quiet, Reload, HandleLink, PingAll, SweepAll, MirrorAddrs, HandleNeigh;
    match e {
      case EvReload(cfg, order) => ReloadQuiet(s, cfg, order);
      case EvLink(n, u, addrs, f) => HandleLinkQuiet(s, n, u, addrs, f);
      case EvNeigh(n, addr, nud) => HandleNeighQuiet(s, n, addr, nud);
      case EvPacket(n, p, mac, order) =>
        var target := ProbedBy(s.table, n, p, mac);
        if target.Some? { PingAllQuiet(s, order, target.value); } else { NothingQuiet(s); }
      case EvAddr(n, addrs, addr, add) => HandleAddrQuiet(s, n, addrs, addr, add);
      case EvSweep(visits) =>
        SweepAllUntouched(s, visits);
        SameIdsQuiet(s, Step(s, e));
      case EvSolicitExpires(tok) => ExpiryQuiet(s, tok);
      case EvSolicit(_, _, _) => assert false;
      case _ => SimpleStepQuiet(s, e);
    }
  }

  lemma ExpiryQuiet(s: State, tok: Token)
    requires tok in s.os.timers
    ensures Quiet(s, Expire(s, tok))
  {
    SameIdsAge(s, Expire(s, tok));
  }

  /**
   * A timer-driven solicitation goes out only from a closure of the newest generation of a master whose
   * router socket is open and relays, and with a link-local address at hand.
   */
  lemma SendsOnlyCurrent(s: State, e: Event, tok: Token)
    requires Inv(s) && Enabled(s, e)
    ensures Step(s, e).os.sent[tok] != s.os.sent[tok] ==>
              && e.EvSolicit? && e.tok == tok && e.owner.Some?
              && var i := s.table[e.owner.value];
                 i.id == tok.id && Current(i, tok.gen) && LinkLocalOf(i.cache).Some?
                 && Step(s, e).os.sent[tok] == s.os.sent[tok] + 1
  {
    hide Inv;
    if !e.EvSolicit? { StepQuiet(s, e); }
  }

  lemma StepAges(s: State, e: Event)
    requires Inv(s) && Enabled(s, e)
    ensures Ages(s, Step(s, e))
  {
    hide Inv, Ages;
    if e.EvSolicit? {
      SolicitAges(s, e.tok, e.owner, e.sendOk);
    } else {
      StepQuiet(s, e);
    }
  }

  lemma SolicitAges(s: State, tok: Token, n: Option<string>, sendOk: bool)
    requires n.Some? ==> n.value in s.table
    ensures Ages(s, RunSolicit(s, tok, n, sendOk))
  {
    hide FirstLinkLocal, Searched, Ages;
    SameIdsAge(s, RunSolicit(s, tok, n, sendOk));
  }

  /** The generation was replaced, or its interface was forgotten. */
  ghost predicate Superseded(s: State, tok: Token) {
    tok.id < s.os.nextId && forall n :: n in s.table && s.table[n].id == tok.id ==> tok.gen < s.table[n].rsTimerN
  }

  lemma SupersededStep(s: State, e: Event, tok: Token)
    requires Inv(s) && Enabled(s, e) && Superseded(s, tok)
    ensures Superseded(Step(s, e), tok) && Step(s, e).os.sent[tok] == s.os.sent[tok]
  {
    hide Inv, Step;
    StepAges(s, e);
    SendsOnlyCurrent(s, e, tok);
    var s2 := Step(s, e);
    forall n | n in s2.table && s2.table[n].id == tok.id ensures tok.gen < s2.table[n].rsTimerN {
      var m :| m in s.table && s.table[m].id == s2.table[n].id && s.table[m].rsTimerN <= s2.table[n].rsTimerN;
    }
    assert e.EvSolicit? && e.tok == tok && e.owner.Some? ==> s.table[e.owner.value].id == tok.id;
  }

  /** Once superseded, a generation never sends again, whatever is still armed or queued. */
  lemma {:induction false} SupersededNeverSends(s: State, es: seq<Event>, tok: Token)
    requires Inv(s) && Run(s, es) && Superseded(s, tok)
    ensures After(s, es).os.sent[tok] == s.os.sent[tok]
    decreases |es|
  {
    hide Inv, Step, Superseded, Enabled;
    if es != [] {
      StepKeeps(s, es[0]);
      SupersededStep(s, es[0], tok);
      SupersededNeverSends(Step(s, es[0]), es[1..], tok);
    }
  }

  /** A closed descriptor or channel is never open again. */
  lemma {:induction false} RetiredForever(s: State, es: seq<Event>, h: Handle)
    requires Inv(s) && Run(s, es) && Retired(s.os, h)
    ensures Retired(After(s, es).os, h)
    decreases |es|
  {
    hide Inv, Step, Retired, Enabled;
    if es != [] {
      StepKeeps(s, es[0]);
      StepAges(s, es[0]);
      RetiredForever(Step(s, es[0]), es[1..], h);
    }
  }

  /** In every reachable state a generation has at most one timer or closure and sent at most three times. */
  lemma SolicitationBounds(k: Kernel, es: seq<Event>, tok: Token)
    requires Run(Initial(k), es)
    ensures var os := After(Initial(k), es).os; os.timers[tok] + os.queued[tok] <= 1 && os.sent[tok] <= 3
  {
    hide HandlesOwned, CachesAgree, Step;
    LifecycleHolds(k, es);
  }

  /** Conservation: what is open is what interfaces hold, each handle once; everything else was closed once. */
  lemma DescriptorsConserved(k: Kernel, es: seq<Event>, h: Handle)
    requires Run(Initial(k), es)
    ensures
      var s := After(Initial(k), es);
      && (h in s.os.open <==> exists n :: n in s.table && h in Held(s.table[n]))
      && (forall m, n :: m in s.table && n in s.table && h in Held(s.table[m]) && h in Held(s.table[n]) ==> m == n)
      && s.os.closed[h] == (if h in s.os.issued && h !in s.os.open then 1 else 0)
  {
    hide TokensOwned, CachesAgree, Step;
    LifecycleHolds(k, es);
  }

  /** getLinkLocalAddr answers what an uncached search would, and HaveLinkLocal tells the truth. */
  lemma LinkLocalCacheCorrect(k: Kernel, es: seq<Event>, n: string)
    requires Run(Initial(k), es) && n in After(Initial(k), es).table
    ensures
      var c := After(Initial(k), es).table[n].cache;
      && LinkLocalOf(c) == FirstLinkLocal(c.addr6) && (c.haveLinkLocal <==> HasLinkLocal(c.addr6))
      && (LinkLocalOf(c) == None <==>
            forall x :: x in c.addr6 ==> x.tentative || x.addr.V4? || !LinkLocalBytes(x.addr))
      && (LinkLocalOf(c).Some? ==> exists x :: x in c.addr6 && x.addr == LinkLocalOf(c).value
                                               && !x.tentative && x.addr.V6? && LinkLocalBytes(x.addr))
  {
    hide HandlesOwned, TokensOwned, Step, LinkLocalBytes;
    LifecycleHolds(k, es);
    assert CacheAgrees(After(Initial(k), es).table[n].cache);
    LinkLocalMeans(After(Initial(k), es).table[n].cache);
  }

  // ---------- socket records ----------

  datatype Service = RouterService | DhcpService | NdpService

  /** The done channel of the record an interface holds for a service. */
  function Done(i: Iface, v: Service): Option<Handle> {
    match v
    case RouterService => if i.router.Some? then Some(i.router.value.done) else None
    case DhcpService => if i.dhcp.Some? then Some(i.dhcp.value.done) else None
    case NdpService => if i.nd.Some? then Some(i.nd.value.done) else None
  }

  predicate SameRecord(i: Iface, j: Iface, v: Service) {
    match v
    case RouterService => i.router == j.router
    case DhcpService => i.dhcp == j.dhcp
    case NdpService => i.nd == j.nd
  }

  /** No interface of this identity holds the record of this service any more. */
  ghost predicate Lost(i: Iface, v: Service, T: Table) {
    forall m :: m in T && T[m].id == i.id ==> !SameRecord(T[m], i, v)
  }

  /** When an interface loses a socket record, the record's channel is retired by that very step. */
  lemma LostRecordRetired(s: State, e: Event, n: string, v: Service)
    requires Inv(s) && Enabled(s, e) && n in s.table && Done(s.table[n], v).Some?
    requires Lost(s.table[n], v, Step(s, e).table)
    ensures Retired(Step(s, e).os, Done(s.table[n], v).value)
  {
    hide Step, Enabled, CachesAgree, Settled, TokensOwned;
    var s2 := Step(s, e);
    var h := Done(s.table[n], v).value;
    StepAges(s, e);
    StepKeeps(s, e);
    if h in s2.os.open {
      var m :| m in s2.table && h in Held(s2.table[m]);
      KeptUnderSameIdentity(s, s2, n, v, m, h);
    }
  }

  lemma KeptUnderSameIdentity(s: State, s2: State, n: string, v: Service, m: string, h: Handle)
    requires HandlesOwned(s.table, s.os) && HandlesOwned(s2.table, s2.os) && RecordsKept(s.table, s.os, s2.table)
    requires n in s.table && Done(s.table[n], v) == Some(h) && m in s2.table && h in Held(s2.table[m])
    ensures s2.table[m].id == s.table[n].id && SameRecord(s2.table[m], s.table[n], v)
  {
    var j := s2.table[m];
    assert FromOrNew(s.table, s.os, j) && Separate(j) && Separate(s.table[n]);
    assert h in Held(s.table[n]) && h in s.os.issued && h.Chan?;
    hide FromOrNew;
    var w := ServiceOf(j, h);
    var l := Origin(s.table, s.os, j, w);
    assert h in Held(s.table[l]);
    assert l == n;
    hide HandlesOwned;
    assert w == v;
  }

  lemma ServiceOf(j: Iface, h: Handle) returns (w: Service)
    requires Separate(j) && h in Held(j) && h.Chan?
    ensures Done(j, w) == Some(h)
  {
    w := if h in RouterHandles(j) then RouterService else if h in DhcpHandles(j) then DhcpService else NdpService;
  }

  lemma Origin(T: Table, os: Os, j: Iface, w: Service) returns (l: string)
    requires FromOrNew(T, os, j) && Done(j, w).Some? && Done(j, w).value in os.issued
    ensures l in T && T[l].id == j.id && SameRecord(T[l], j, w)
  {
    match w {
      case RouterService => l :| l in T && T[l].id == j.id && T[l].router == j.router;
      case DhcpService => l :| l in T && T[l].id == j.id && T[l].dhcp == j.dhcp;
      case NdpService => l :| l in T && T[l].id == j.id && T[l].nd == j.nd;
    }
  }
}

/** The debounced reconcile over whole runs: no qualifying route deletion is forgotten. */
module Wakeup {
  import opened Addresses
  import opened KernelModel
  import opened Model
  import opened Services
  import opened LinkLocal
  import opened Mirror
  import opened Daemon
  import opened Healing

  ghost predicate SameWake(s: State, s2: State) {
    s2.scheduled == s.scheduled && s2.wakeTimers == s.wakeTimers && s2.wakeQueued == s.wakeQueued
  }

  lemma {:induction false} ParseAllWake(s: State, cfg: seq<Entry>)
    ensures SameWake(s, ParseAll(s, cfg))
    decreases |cfg|
  {
    if cfg != [] {
      hide MirrorAddrs, RouterSetup, DhcpSetup, NdpSetup;
      assert SameWake(s, Parse(s, cfg[0]));
      ParseAllWake(Parse(s, cfg[0]), cfg[1..]);
    }
  }

  lemma ReloadServicesWake(s: State, n: string, f: Faults)
    requires n in s.table
    ensures SameWake(s, ReloadServices(s, n, f)) && SameWake(s, DisableServices(s, n))
  {
    hide RouterSetup, DhcpSetup, NdpSetup, MirrorAddrs;
  }

  lemma {:induction false} RestartAllWake(s: State, order: seq<Restart>)
    ensures SameWake(s, RestartAll(s, order))
    decreases |order|
  {
    if order != [] && order[0].name in s.table {
      ReloadServicesWake(s, order[0].name, order[0].faults);
      hide ReloadServices, DisableServices;
      RestartAllWake(RestartOne(s, order[0]), order[1..]);
    }
  }

  lemma {:induction false} PingAllWake(s: State, names: seq<string>, target: Addr)
    ensures SameWake(s, PingAll(s, names, target))
    decreases |names|
  {
    if names != [] && names[0] in s.table {
      PingAllWake(Ping(s, names[0], target), names[1..], target);
    }
  }

  lemma {:induction false} SweepAllWake(s: State, visits: seq<Visit>)
    ensures SameWake(s, SweepAll(s, visits))
    decreases |visits|
  {
    if visits != [] && visits[0].name in s.table {
      var i := s.table[visits[0].name];
      SweepAllWake(if i.ndp.Relay? then Sweep(s, i, visits[0].neighsListed, visits[0].routesListed) else s, visits[1..]);
    }
  }

  lemma DetachWake(s: State, n: string)
    requires n in s.table
    ensures SameWake(s, Detach(s, n)) && n in Detach(s, n).table
  {
    hide RouterSetup, DhcpSetup, NdpSetup, MirrorAddrs;
  }

  lemma HandleLinkWake(s: State, n: string, u: LinkEvent, addrs: seq<IPAddr>, f: Faults)
    requires n in s.table
    ensures SameWake(s, HandleLink(s, n, u, addrs, f))
  {
    hide ReloadServices, Detach;
    var s1 := Detach(s, n);
    DetachWake(s, n);
    if u.NewLink? {
      if s.table[n].ifindex == u.index {
        var i := WithRunning(s.table[n], u.running);
        ReloadServicesWake(s.(table := s.table[n := if u.running then Refresh(i, addrs) else i]), n, f);
      } else {
        var i := Refresh(Attach(s1.table[n], s1.table[n].ifname, Link(u.index, u.running)), addrs);
        ReloadServicesWake(s1.(table := s1.table[n := i]), n, f);
      }
    }
  }

  /** Only route events, the debounce timer and the reconcile itself touch the wake-up state. */
  lemma StepWake(s: State, e: Event)
    requires Enabled(s, e) && !e.EvRoute? && !e.EvWakeExpires? && !e.EvReconcile?
    ensures SameWake(s, Step(s, e))
  {
    hide HandleLink, PingAll, SweepAll, MirrorAddrs, ParseAll, RestartAll, Solicit;
    match e {
      case EvReload(cfg, order) =>
        ParseAllWake(ResetAll(s), cfg);
        RestartAllWake(Configure(s, cfg), order);
      case EvLink(n, u, addrs, f) => HandleLinkWake(s, n, u, addrs, f);
      case EvPacket(n, p, mac, order) =>
        var target := ProbedBy(s.table, n, p, mac);
        if target.Some? { PingAllWake(s, order, target.value); }
      case EvSweep(visits) => SweepAllWake(s, visits);
      case _ =>
    }
  }

  /** A reconcile is pending and the flag is set. */
  predicate Scheduled(s: State) {
    s.scheduled && s.wakeTimers + s.wakeQueued == 1
  }

  predicate IdleWake(s: State) {
    !s.scheduled && s.wakeTimers + s.wakeQueued == 0
  }

  /**
   * Whatever happens, at most one reconcile is pending and the flag tells so; only a reconcile clears it. What
   * sets it is the deletion of a /128 of metric 1024 on an interface that relays NDP; any other route event
   * changes nothing at all.
   */
  lemma WakeStep(s: State, e: Event)
    requires Enabled(s, e) && (Scheduled(s) || IdleWake(s))
    ensures Scheduled(Step(s, e)) || IdleWake(Step(s, e))
    ensures Scheduled(s) && !e.EvReconcile? ==> Scheduled(Step(s, e))
    ensures e.EvReconcile? ==> Scheduled(s) && IdleWake(Step(s, e))
    ensures e.EvRoute? ==>
      var u := e.route;
      var ours := u.deleted && u.metric == 1024 && u.prefixLen == 128 && u.owner.Some? && u.owner.value in s.table
                  && s.table[u.owner.value].ndp == Relay;
      && (ours ==> Scheduled(Step(s, e)))
      && (ours && !s.scheduled ==> Step(s, e) == s.(scheduled := true, wakeTimers := s.wakeTimers + 1))
      && (!ours || s.scheduled ==> Step(s, e) == s)
  {
    if !e.EvRoute? && !e.EvWakeExpires? && !e.EvReconcile? { StepWake(s, e); }
  }

  lemma {:induction false} WakeHolds(s: State, es: seq<Event>, n: nat)
    requires Run(s, es) && n <= |es| && (Scheduled(s) || IdleWake(s))
    ensures Scheduled(StateAt(s, es, n)) || IdleWake(StateAt(s, es, n))
  {
    hide Step, Enabled, Scheduled, IdleWake;
    if n > 0 {
      WakeHolds(s, es, n - 1);
      StateAtStep(s, es, n - 1);
      WakeStep(StateAt(s, es, n - 1), es[n - 1]);
    }
  }

  ghost predicate ReconciledBetween(es: seq<Event>, i: int, n: int) {
    exists j :: i < j < n && j < |es| && 0 <= j && es[j].EvReconcile?
  }

  /** After a qualifying deletion, either a reconcile has started since, or exactly one is pending. */
  lemma {:induction false} NoLostWakeup(s: State, es: seq<Event>, i: nat, n: nat)
    requires Run(s, es) && i < n <= |es| && (Scheduled(s) || IdleWake(s))
    requires es[i].EvRoute?
    requires
      var T, u := StateAt(s, es, i).table, es[i].route;
      u.deleted && u.metric == 1024 && u.prefixLen == 128 && u.owner.Some? && u.owner.value in T
      && T[u.owner.value].ndp == Relay
    ensures ReconciledBetween(es, i, n) || Scheduled(StateAt(s, es, n))
  {
    hide Step, Enabled, Scheduled, IdleWake;
    WakeHolds(s, es, n - 1);
    StateAtStep(s, es, n - 1);
    WakeStep(StateAt(s, es, n - 1), es[n - 1]);
    if i < n - 1 {
      NoLostWakeup(s, es, i, n - 1);
      if ReconciledBetween(es, i, n - 1) {
        var j :| i < j < n - 1 && es[j].EvReconcile?;
      } else if es[n - 1].EvReconcile? {
        assert i < n - 1 < n;
      }
    }
  }

  /** Reconciles of the run after event `i` meet a kernel that accepts their changes, and no competition. */
  ghost predicate Favourable(s: State, es: seq<Event>, i: nat)
    requires Run(s, es)
  {
    forall j :: i < j < |es| && es[j].EvReconcile? ==>
      var sj := StateAt(s, es, j);
      UniqueIndexes(sj) && sj.kernel.refuse == NO_REFUSAL && NoCompetition(sj)
  }

  /**
   * Self-healing over whole runs: whatever the outside did to the kernel, once a qualifying deletion has
   * been handled and no reconcile is pending any more, some later reconcile has restored everything.
   */
  lemma FlushIsHealed(s: State, es: seq<Event>, i: nat)
    requires Run(s, es) && i < |es| && (Scheduled(s) || IdleWake(s))
    requires es[i].EvRoute?
    requires
      var T, u := StateAt(s, es, i).table, es[i].route;
      u.deleted && u.metric == 1024 && u.prefixLen == 128 && u.owner.Some? && u.owner.value in T
      && T[u.owner.value].ndp == Relay
    requires !StateAt(s, es, |es|).scheduled
    requires Favourable(s, es, i)
    ensures exists j :: i < j < |es| && es[j].EvReconcile? && Healed(StateAt(s, es, j + 1))
  {
    hide Step, Enabled, Healed, UniqueIndexes, NoCompetition;
    NoLostWakeup(s, es, i, |es|);
    var j: nat :| i < j < |es| && es[j].EvReconcile?;
    StateAtStep(s, es, j);
    ReconcileStepHeals(StateAt(s, es, j), es[j]);
  }

  lemma ReconcileStepHeals(s: State, e: Event)
    requires Enabled(s, e) && e.EvReconcile?
    requires UniqueIndexes(s) && s.kernel.refuse == NO_REFUSAL && NoCompetition(s)
    ensures Healed(Step(s, e))
  {
    hide UniqueIndexes, NoCompetition, ReconcileKernel;
    ReconcileHealsIff(s, e.todo);
    HealedReadsKernel(s.(kernel := ReconcileKernel(s, e.todo)), Step(s, e));
  }

  lemma HealedReadsKernel(s: State, s2: State)
    requires Healed(s) && s2.table == s.table && s2.mirrored == s.mirrored && s2.kernel == s.kernel
    ensures Healed(s2)
  {
    forall t | IsTarget(s2, t) ensures Restored(s2, t) {
      assert IsTarget(s, t) && Restored(s, t);
    }
  }
}

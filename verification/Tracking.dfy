/** The tracked set as a function of history, and the mirror calls that go with every change of it. */
module Tracking {
  import opened Common
  import opened Addresses
  import opened KernelModel
  import opened Model
  import opened Mirror

  /**
   * All that adds hosts to the tracked set or takes them out: a neighbour event, the seeding of an interface, the
   * two halves of its sweep and the clearing of its hosts. `Neighs` is the kernel's own doing.
   */
  datatype Operation =
    | Neigh(i: Iface, addr: Addr, nud: Nud)
    | SeedOn(i: Iface, listed: bool)
    | ReapOn(i: Iface)
    | OrphansOn(i: Iface, live: set<Addr>)
    | ForgetOn(i: Iface)
    | Neighs(neighs: map<Key, Nud>)

  function Apply(s: State, e: Operation): State {
    match e
    case Neigh(i, addr, nud) => HandleNeigh(s, i, addr, nud)
    case SeedOn(i, listed) => Seed(s, i, listed)
    case ReapOn(i) => Reap(s, i)
    case OrphansOn(i, live) => Untrack(s, i, Orphans(s.kernel, i.ifindex, live))
    case ForgetOn(i) => Untrack(s, i, AddrsOn(s.mirrored, i.ifindex))
    case Neighs(m) => s.(kernel := s.kernel.(neighs := m))
  }

  /** A sweep and a clearing are made of these operations. */
  lemma SweepOperations(s: State, i: Iface)
    ensures Sweep(s, i, true, true) == Apply(Apply(s, ReapOn(i)), OrphansOn(i, LiveOn(s.kernel, i.ifindex)))
    ensures Sweep(s, i, true, false) == Apply(s, ReapOn(i))
    ensures
      var s1 := s.(kernel := MirrorAddrs(s.kernel, s.table, i, OwnAddrs(i), false));
      ClearMirrored(s, i) == Apply(s1, ForgetOn(i))
  {
    hide MirrorAddrs, OwnAddrs;
  }

  /** What an operation says about a host: it is there, it is gone, or nothing decisive. */
  function Verdict(k: Kernel, e: Operation, q: Key): Option<bool> {
    match e
    case Neigh(i, addr, nud) =>
      if q != Key(addr, i.ifindex) || !i.ndp.Relay? || addr.V4? || !Mirrorable(addr) then None
      else if nud.Resolved() then Some(true)
      else if nud.Failed? then Some(false)
      else None
    case SeedOn(i, listed) =>
      if listed && q.ifindex == i.ifindex && q in k.neighs && k.neighs[q].Resolved() && Mirrorable(q.addr)
      then Some(true) else None
    case ReapOn(i) =>
      if q.ifindex == i.ifindex && q in k.neighs && k.neighs[q].Failed? && Mirrorable(q.addr)
      then Some(false) else None
    case OrphansOn(i, live) =>
      if q.ifindex == i.ifindex && q.addr in Orphans(k, i.ifindex, live) then Some(false) else None
    case ForgetOn(i) => if q.ifindex == i.ifindex then Some(false) else None
    case Neighs(_) => None
  }

  /** The call of ndpMirrorAddr an event makes for a host, if any: Some(add). */
  function Call(s: State, e: Operation, q: Key): Option<bool> {
    match e
    case Neigh(i, addr, nud) =>
      if q != Key(addr, i.ifindex) || !i.ndp.Relay? || addr.V4? || !Mirrorable(addr) then None
      else if nud.Resolved() && q !in s.mirrored then Some(true)
      else if nud.Failed? && q in s.mirrored then Some(false)
      else None
    case SeedOn(i, listed) =>
      if listed && q.ifindex == i.ifindex && q.addr in Seedable(s, i.ifindex) then Some(true) else None
    case ReapOn(i) =>
      if q.ifindex == i.ifindex && q.addr in TrackedOf(s, FailedOn(s.kernel, i.ifindex), i.ifindex)
      then Some(false) else None
    case OrphansOn(i, live) =>
      if q.ifindex == i.ifindex && q.addr in Orphans(s.kernel, i.ifindex, live) then Some(false) else None
    case ForgetOn(i) => if q.ifindex == i.ifindex && q in s.mirrored then Some(false) else None
    case Neighs(_) => None
  }

  /** The sweep takes away the route to a host that is not tracked. */
  predicate Superfluous(s: State, e: Operation, q: Key) {
    e.OrphansOn? && Call(s, e, q) == Some(false) && q !in s.mirrored
  }

  function On(e: Operation): Option<Iface> {
    if e.Neighs? then None else Some(e.i)
  }

  function Called(s: State, e: Operation, add: bool): set<Addr> {
    match e
    case Neigh(i, addr, _) => if Call(s, e, Key(addr, i.ifindex)) == Some(add) then {addr} else {}
    case SeedOn(i, listed) => if listed && add then Seedable(s, i.ifindex) else {}
    case ReapOn(i) => if add then {} else TrackedOf(s, FailedOn(s.kernel, i.ifindex), i.ifindex)
    case OrphansOn(i, live) => if add then {} else Orphans(s.kernel, i.ifindex, live)
    case ForgetOn(i) => if add then {} else AddrsOn(s.mirrored, i.ifindex)
    case Neighs(_) => {}
  }

  /** The recorded calls are the ones made: they explain the kernel and the tracked set an event leaves. */
  lemma CallsExplain(s: State, e: Operation, i: Iface)
    requires On(e) == Some(i)
    ensures forall q: Key, add: bool :: Call(s, e, q) == Some(add) <==> q.ifindex == i.ifindex && q.addr in Called(s, e, add)
    ensures
      var k := MirrorAddrs(MirrorAddrs(s.kernel, s.table, i, Called(s, e, false), false), s.table, i, Called(s, e, true), true);
      var k2 := Apply(s, e).kernel;
      k2.proxies == k.proxies && k2.routes == k.routes && k2.proxyNdp == k.proxyNdp
    ensures Apply(s, e).mirrored ==
            (s.mirrored - KeysOf(Called(s, e, false), i.ifindex)) + KeysOf(Called(s, e, true), i.ifindex)
  {
    hide MirrorAddrs, Mirrorable;
    MirrorNothing(s.kernel, s.table, i, true);
    MirrorNothing(s.kernel, s.table, i, false);
    MirrorNothing(MirrorAddrs(s.kernel, s.table, i, Called(s, e, false), false), s.table, i, true);
  }

  /** One operation turns a host on or off exactly as its verdict says, by a call unless that changes nothing. */
  lemma ApplyFollowsVerdict(s: State, e: Operation, q: Key)
    ensures q in Apply(s, e).mirrored <==>
              (Verdict(s.kernel, e, q) == Some(true) || (Verdict(s.kernel, e, q).None? && q in s.mirrored))
    ensures Superfluous(s, e, q) ==> Call(s, e, q) == Some(false) && q !in s.mirrored && q !in Apply(s, e).mirrored
    ensures !Superfluous(s, e, q) ==>
      Call(s, e, q) == if (q in Apply(s, e).mirrored) == (q in s.mirrored) then None else Some(q in Apply(s, e).mirrored)
  {
    hide MirrorAddrs, Mirrorable;
    assert q == Key(q.addr, q.ifindex);
  }

  function StateBefore(s: State, es: seq<Operation>, n: nat): State
    requires n <= |es|
  {
    if n == 0 then s else Apply(StateBefore(s, es, n - 1), es[n - 1])
  }

  /** The mirror calls for one host over a run, oldest first. */
  function CallsFor(s: State, es: seq<Operation>, n: nat, q: Key): seq<bool>
    requires n <= |es|
  {
    if n == 0 then []
    else
      var c := Call(StateBefore(s, es, n - 1), es[n - 1], q);
      CallsFor(s, es, n - 1, q) + (if c.Some? then [c.value] else [])
  }

  predicate Alternating(calls: seq<bool>) {
    forall k :: 0 <= k < |calls| ==> calls[k] == (k % 2 == 0)
  }

  lemma AlternatesOn(calls: seq<bool>, call: bool)
    ensures Alternating(calls + [call]) <==> Alternating(calls) && call == (|calls| % 2 == 0)
  {
    if Alternating(calls + [call]) {
      forall k | 0 <= k < |calls| ensures calls[k] == (k % 2 == 0) { assert (calls + [call])[k] == calls[k]; }
      assert (calls + [call])[|calls|] == call;
    }
  }

  /** No operation so far made a superfluous call for the host. */
  ghost predicate NoneSuperfluous(s: State, es: seq<Operation>, n: nat, q: Key)
    requires n <= |es|
  {
    forall j :: 0 <= j < n ==> !Superfluous(StateBefore(s, es, j), es[j], q)
  }

  /**
   * Per host, mirroring is switched on and off in strict alternation, starting with on, exactly as long as no sweep
   * takes away the route to the host while it is not tracked.
   */
  lemma {:induction false} CallsAlternate(s: State, es: seq<Operation>, n: nat, q: Key)
    requires n <= |es| && q !in s.mirrored
    ensures Alternating(CallsFor(s, es, n, q)) <==> NoneSuperfluous(s, es, n, q)
    ensures NoneSuperfluous(s, es, n, q) ==> (q in StateBefore(s, es, n).mirrored <==> |CallsFor(s, es, n, q)| % 2 == 1)
  {
    hide Apply, Call, Verdict, Alternating, StateBefore, CallsFor, Superfluous, NoneSuperfluous;
    if n == 0 {
      NoCalls(s, es, q);
    } else {
      var s1 := StateBefore(s, es, n - 1);
      var calls := CallsFor(s, es, n - 1, q);
      OneMoreCall(s, es, n, q);
      CallsAlternate(s, es, n - 1, q);
      ApplyFollowsVerdict(s1, es[n - 1], q);
      CallStep(calls, Call(s1, es[n - 1], q), q in s1.mirrored, q in Apply(s1, es[n - 1]).mirrored);
    }
  }

  lemma NoCalls(s: State, es: seq<Operation>, q: Key)
    ensures CallsFor(s, es, 0, q) == [] && Alternating([]) && NoneSuperfluous(s, es, 0, q) && StateBefore(s, es, 0) == s
  {
  }

  /** One more call keeps the alternation if it changes what the calls so far amount to, and only then. */
  lemma CallStep(calls: seq<bool>, c: Option<bool>, before: bool, after: bool)
    ensures
      var more := if c.Some? then calls + [c.value] else calls;
      && (Alternating(more) ==> Alternating(calls))
      && (Alternating(calls) && (before <==> |calls| % 2 == 1) ==>
            && (c == (if after == before then None else Some(after)) ==>
                  Alternating(more) && (after <==> |more| % 2 == 1))
            && (c == Some(false) && !before ==> !Alternating(more)))
  {
    hide Alternating;
    if c.Some? { AlternatesOn(calls, c.value); }
  }

  lemma OneMoreCall(s: State, es: seq<Operation>, n: nat, q: Key)
    requires 0 < n <= |es|
    ensures StateBefore(s, es, n) == Apply(StateBefore(s, es, n - 1), es[n - 1])
    ensures
      var c := Call(StateBefore(s, es, n - 1), es[n - 1], q);
      var calls := CallsFor(s, es, n - 1, q);
      CallsFor(s, es, n, q) == if c.Some? then calls + [c.value] else calls
    ensures NoneSuperfluous(s, es, n, q) <==>
              NoneSuperfluous(s, es, n - 1, q) && !Superfluous(StateBefore(s, es, n - 1), es[n - 1], q)
  {
    hide Apply, Call, Superfluous;
  }
}

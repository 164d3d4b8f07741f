/** Who holds which descriptor and which solicitation token, and what one setup may do to both. */
module Ownership {
  import opened Common
  import opened KernelModel
  import opened Model
  import opened Services

  // ---------- descriptors and done channels ----------

  function RouterHandles(i: Iface): set<Handle> {
    match i.router
    case None => {}
    case Some(r) => {r.fd, r.done}
  }

  function DhcpHandles(i: Iface): set<Handle> {
    match i.dhcp
    case None => {}
    case Some(d) => {d.fd, d.done}
  }

  function NdpHandles(i: Iface): set<Handle> {
    match i.nd
    case None => {}
    case Some(n) => {n.fd, n.pingFd, n.done}
  }

  function Held(i: Iface): set<Handle> {
    RouterHandles(i) + DhcpHandles(i) + NdpHandles(i)
  }

  /** The handles of one interface are all different. */
  predicate Separate(i: Iface) {
    && RouterHandles(i) !! DhcpHandles(i) && RouterHandles(i) !! NdpHandles(i) && DhcpHandles(i) !! NdpHandles(i)
    && (i.router.Some? ==> i.router.value.fd.Fd? && i.router.value.done.Chan?)
    && (i.dhcp.Some? ==> i.dhcp.value.fd.Fd? && i.dhcp.value.done.Chan?)
    && (i.nd.Some? ==> i.nd.value.fd.Fd? && i.nd.value.pingFd.Fd? && i.nd.value.done.Chan?
                       && i.nd.value.fd != i.nd.value.pingFd)
  }

  /** Every handle ever issued is either open or has been closed exactly once. */
  ghost predicate ClosedOnce(os: Os) {
    && os.open <= os.issued
    && (forall h :: os.closed[h] == if h in os.issued && h !in os.open then 1 else 0)
    && (forall h :: h in os.issued ==> h.n < os.next)
  }

  lemma OpenKeeps(os: Os, h: Handle)
    requires ClosedOnce(os) && h.n == os.next
    ensures ClosedOnce(Open(os, h)) && h !in os.issued
  {
  }

  lemma CloseKeeps(os: Os, h: Handle)
    requires ClosedOnce(os) && h in os.open
    ensures ClosedOnce(Close(os, h))
  {
  }

  // ---------- solicitation tokens ----------

  predicate Pending(os: Os, tok: Token) {
    tok in os.timers || tok in os.queued
  }

  /** Each generation has at most one timer or closure, and none is newer than the interface's counter. */
  ghost predicate Tokens(i: Iface, os: Os) {
    forall tok: Token :: tok.id == i.id ==>
      && os.timers[tok] + os.queued[tok] <= 1
      && os.sent[tok] <= 3
      && (Pending(os, tok) || tok in os.sent ==> tok.gen <= i.rsTimerN)
  }

  ghost predicate OthersKept(id: nat, os: Os, os2: Os) {
    forall tok: Token :: tok.id != id ==>
      os2.timers[tok] == os.timers[tok] && os2.queued[tok] == os.queued[tok] && os2.sent[tok] == os.sent[tok]
  }

  /** While a master's router socket is open, its counter of sent solicitations is that generation's count. */
  ghost predicate SolicitOk(i: Iface, os: Os) {
    i.master && i.router.Some? ==>
      var tok := Token(i.id, i.rsTimerN);
      os.sent[tok] == i.raSent <= 3 && (Pending(os, tok) ==> i.raSent < 3)
  }

  // ---------- one interface's setups ----------

  ghost predicate Holds(i: Iface, os: Os) {
    ClosedOnce(os) && Held(i) <= os.open && Separate(i)
  }

  /** Each socket record is the one held before, or has a done channel never issued before. */
  predicate RecordsFrom(i: Iface, os: Os, j: Iface) {
    && (j.router.Some? ==> j.router == i.router || j.router.value.done !in os.issued)
    && (j.dhcp.Some? ==> j.dhcp == i.dhcp || j.dhcp.value.done !in os.issued)
    && (j.nd.Some? ==> j.nd == i.nd || j.nd.value.done !in os.issued)
  }

  /** What any setup does to handles: its interface's are exchanged, everybody else's stay. */
  ghost predicate Swapped(i: Iface, os: Os, j: Iface, os2: Os) {
    && Holds(j, os2)
    && os2.open == (os.open - Held(i)) + Held(j)
    && Held(j) !! os.open - Held(i)
    && os.issued <= os2.issued && Held(j) * os.issued <= Held(i)
    && RecordsFrom(i, os, j)
  }

  /** What any setup does to solicitations: nothing is sent, and only its own tokens change. */
  ghost predicate Turned(i: Iface, os: Os, j: Iface, os2: Os) {
    && j.id == i.id && os2.nextId == os.nextId && os2.sent == os.sent && j.rsTimerN >= i.rsTimerN
    && OthersKept(i.id, os, os2)
    && Tokens(j, os2)
  }

  ghost predicate Exchanged(i: Iface, os: Os, j: Iface, os2: Os) {
    Swapped(i, os, j, os2) && Turned(i, os, j, os2) && SameConfig(i, j)
  }

  lemma SwapTwice(i: Iface, os: Os, j: Iface, os2: Os, l: Iface, os3: Os)
    requires Swapped(i, os, j, os2) && Swapped(j, os2, l, os3)
    ensures Swapped(i, os, l, os3)
  {
    assert os2.open - Held(j) == os.open - Held(i);
  }

  lemma ExchangeTwice(i: Iface, os: Os, j: Iface, os2: Os, l: Iface, os3: Os)
    requires Exchanged(i, os, j, os2) && Exchanged(j, os2, l, os3)
    ensures Exchanged(i, os, l, os3)
  {
    SwapTwice(i, os, j, os2, l, os3);
  }

  /** Opening a descriptor and closing it again on a failing step leaves the open ones as they were. */
  lemma AbandonSwaps(i: Iface, os: Os, h: Handle)
    requires Holds(i, os) && h.n == os.next
    ensures Swapped(i, os, i, Close(Open(os, h), h))
  {
    OpenKeeps(os, h);
    CloseKeeps(Open(os, h), h);
  }

  /** Holding freshly opened handles besides those held before. */
  lemma AcquireSwaps(i: Iface, os: Os, j: Iface, os2: Os, got: set<Handle>)
    requires Holds(i, os) && ClosedOnce(os2) && Separate(j)
    requires os2.open == os.open + got && os2.issued == os.issued + got && got !! os.issued
    requires Held(j) == Held(i) + got && RecordsFrom(i, os, j)
    ensures Swapped(i, os, j, os2)
  {
  }

  lemma UntouchedSwaps(i: Iface, os: Os, j: Iface, os2: Os)
    requires Holds(i, os)
    requires j.router == i.router && j.dhcp == i.dhcp && j.nd == i.nd
    requires os2.next == os.next && os2.issued == os.issued && os2.open == os.open && os2.closed == os.closed
    ensures Swapped(i, os, j, os2)
  {
    assert Held(j) == Held(i);
  }

  lemma RouterDownSwaps(i: Iface, os: Os)
    requires Holds(i, os)
    ensures Swapped(i, os, RouterDown(i, os).i, RouterDown(i, os).os)
  {
    if i.router.Some? {
      var r := i.router.value;
      CloseKeeps(os, r.done);
      CloseKeeps(Close(os, r.done), r.fd);
    }
  }

  lemma RouterSocketSwaps(i: Iface, os: Os)
    requires Holds(i, os) && i.router.None?
    ensures Swapped(i, os, RouterSocket(i, os).i, RouterSocket(i, os).os)
  {
    var fd, ch := Fd(os.next), Chan(os.next + 1);
    OpenKeeps(os, fd);
    OpenKeeps(Open(os, fd), ch);
    AcquireSwaps(i, os, RouterSocket(i, os).i, RouterSocket(i, os).os, {fd, ch});
  }

  lemma NewGenerationSwaps(i: Iface, os: Os)
    requires Holds(i, os)
    ensures Swapped(i, os, NewGeneration(i, os).i, NewGeneration(i, os).os)
  {
    UntouchedSwaps(i, os, NewGeneration(i, os).i, NewGeneration(i, os).os);
  }

  lemma RouterUpSwaps(i: Iface, os: Os)
    requires Holds(i, os) && i.router.None?
    ensures Swapped(i, os, RouterUp(i, os).i, RouterUp(i, os).os)
  {
    var r := RouterSocket(i, os);
    RouterSocketSwaps(i, os);
    NewGenerationSwaps(r.i, r.os);
    SwapTwice(i, os, r.i, r.os, RouterUp(i, os).i, RouterUp(i, os).os);
  }

  lemma StopTimerSwaps(i: Iface, os: Os)
    requires Holds(i, os)
    ensures Swapped(i, os, StopTimer(i, os).i, StopTimer(i, os).os)
  {
    UntouchedSwaps(i, os, StopTimer(i, os).i, StopTimer(i, os).os);
  }

  lemma RouterSetupSwaps(i: Iface, os: Os, enable: bool, fault: RouterFault)
    requires Holds(i, os)
    ensures Swapped(i, os, RouterSetup(i, os, enable, fault).i, RouterSetup(i, os, enable, fault).os)
  {
    var d := RouterDown(i, os);
    var r := RouterSetup(i, os, enable, fault);
    RouterDownSwaps(i, os);
    assert d.i.ra == i.ra && d.i.router.None?;
    if !enable || i.ra.Disabled? {
      StopTimerSwaps(d.i, d.os);
      SwapTwice(i, os, d.i, d.os, r.i, r.os);
    } else if fault.RNone? {
      RouterUpSwaps(d.i, d.os);
      SwapTwice(i, os, d.i, d.os, r.i, r.os);
    } else if !fault.RSocket? {
      AbandonSwaps(d.i, d.os, Fd(d.os.next));
      SwapTwice(i, os, d.i, d.os, r.i, r.os);
    }
  }

  lemma DhcpDownSwaps(i: Iface, os: Os)
    requires Holds(i, os)
    ensures Swapped(i, os, DhcpDown(i, os).i, DhcpDown(i, os).os)
  {
    if i.dhcp.Some? {
      CloseKeeps(os, i.dhcp.value.done);
      CloseKeeps(Close(os, i.dhcp.value.done), i.dhcp.value.fd);
    }
  }

  lemma DhcpUpSwaps(i: Iface, os: Os)
    requires Holds(i, os) && i.dhcp.None?
    ensures Swapped(i, os, DhcpUp(i, os).i, DhcpUp(i, os).os)
  {
    var fd, ch := Fd(os.next), Chan(os.next + 1);
    OpenKeeps(os, fd);
    OpenKeeps(Open(os, fd), ch);
    AcquireSwaps(i, os, DhcpUp(i, os).i, DhcpUp(i, os).os, {fd, ch});
  }

  lemma DhcpSetupSwaps(i: Iface, os: Os, enable: bool, fault: DhcpFault)
    requires Holds(i, os)
    ensures Swapped(i, os, DhcpSetup(i, os, enable, fault).i, DhcpSetup(i, os, enable, fault).os)
  {
    var d := DhcpDown(i, os);
    var r := DhcpSetup(i, os, enable, fault);
    DhcpDownSwaps(i, os);
    if enable && i.dhcpv6.Relay? && !fault.DSocket? {
      if !fault.DNone? { AbandonSwaps(d.i, d.os, Fd(d.os.next)); } else { DhcpUpSwaps(d.i, d.os); }
      SwapTwice(i, os, d.i, d.os, r.i, r.os);
    }
  }

  lemma NdpDownSwaps(i: Iface, os: Os)
    requires Holds(i, os)
    ensures Swapped(i, os, NdpDown(i, os).i, NdpDown(i, os).os)
  {
    if i.nd.Some? {
      var n := i.nd.value;
      CloseKeeps(os, n.done);
      CloseKeeps(Close(os, n.done), n.fd);
      CloseKeeps(Close(Close(os, n.done), n.fd), n.pingFd);
    }
  }

  lemma NdpUpSwaps(i: Iface, os: Os)
    requires Holds(i, os) && i.nd.None?
    ensures Swapped(i, os, NdpUp(i, os).i, NdpUp(i, os).os)
  {
    var ping, cap, ch := Fd(os.next), Fd(os.next + 1), Chan(os.next + 2);
    OpenKeeps(os, ping);
    OpenKeeps(Open(os, ping), cap);
    OpenKeeps(Open(Open(os, ping), cap), ch);
    AcquireSwaps(i, os, NdpUp(i, os).i, NdpUp(i, os).os, {ping, cap, ch});
  }

  lemma NdpAbandonedSwaps(i: Iface, os: Os)
    requires Holds(i, os)
    ensures Swapped(i, os, i, NdpAbandoned(os))
  {
    hide Held, Separate;
    var ping, cap := Fd(os.next), Fd(os.next + 1);
    var os1 := Open(os, ping);
    OpenKeeps(os, ping);
    OpenKeeps(os1, cap);
    CloseKeeps(Open(os1, cap), cap);
    CloseKeeps(Close(Open(os1, cap), cap), ping);
    assert NdpAbandoned(os).open == os.open;
  }

  lemma NdpSetupSwaps(i: Iface, os: Os, k: Kernel, enable: bool, fault: NdpFault)
    requires Holds(i, os)
    ensures Swapped(i, os, NdpSetup(i, os, k, enable, fault).i, NdpSetup(i, os, k, enable, fault).os)
  {
    var d := NdpDown(i, os);
    var r := NdpSetup(i, os, k, enable, fault);
    NdpDownSwaps(i, os);
    if enable && i.ndp.Relay? && !fault.NPingSocket? {
      if fault.BeforeCapture() {
        AbandonSwaps(d.i, d.os, Fd(d.os.next));
      } else if r.i.nd.None? {
        NdpAbandonedSwaps(d.i, d.os);
      } else {
        NdpUpSwaps(d.i, d.os);
      }
      SwapTwice(i, os, d.i, d.os, r.i, r.os);
    }
  }

  lemma StopTimerTurns(i: Iface, os: Os)
    requires Tokens(i, os)
    ensures Turned(i, os, StopTimer(i, os).i, StopTimer(i, os).os)
  {
  }

  lemma ArmTurns(i: Iface, os: Os, gen: nat)
    requires Tokens(i, os) && gen <= i.rsTimerN && !Pending(os, Token(i.id, gen))
    ensures Turned(i, os, Arm(i, os, gen).i, Arm(i, os, gen).os)
  {
  }

  /** A new generation has neither timer nor closure yet. */
  lemma NewGenerationTurns(i: Iface, os: Os)
    requires Tokens(i, os)
    ensures Turned(i, os, NewGeneration(i, os).i, NewGeneration(i, os).os)
  {
    if i.master {
      ArmTurns(i.(rsTimerN := i.rsTimerN + 1), os, i.rsTimerN + 1);
    }
  }

  lemma RouterUpTurns(i: Iface, os: Os)
    requires Tokens(i, os)
    ensures Turned(i, os, RouterUp(i, os).i, RouterUp(i, os).os)
  {
    var r := RouterSocket(i, os);
    assert Tokens(r.i, r.os);
    NewGenerationTurns(r.i, r.os);
  }

  lemma RouterUpSolicits(i: Iface, os: Os)
    requires Tokens(i, os)
    ensures SolicitOk(RouterUp(i, os).i, RouterUp(i, os).os)
  {
    var tok := Token(i.id, i.rsTimerN + 1);
    assert tok !in os.sent;
  }

  lemma RouterDownTurns(i: Iface, os: Os)
    requires Tokens(i, os)
    ensures Turned(i, os, RouterDown(i, os).i, RouterDown(i, os).os)
  {
  }

  lemma TurnTwice(i: Iface, os: Os, j: Iface, os2: Os, l: Iface, os3: Os)
    requires Turned(i, os, j, os2) && Turned(j, os2, l, os3)
    ensures Turned(i, os, l, os3)
  {
  }

  lemma RouterSetupTurns(i: Iface, os: Os, enable: bool, fault: RouterFault)
    requires Tokens(i, os)
    ensures Turned(i, os, RouterSetup(i, os, enable, fault).i, RouterSetup(i, os, enable, fault).os)
  {
    var d := RouterDown(i, os);
    var r := RouterSetup(i, os, enable, fault);
    RouterDownTurns(i, os);
    assert d.i.ra == i.ra;
    if !enable || i.ra.Disabled? {
      StopTimerTurns(d.i, d.os);
    } else if fault.RNone? {
      RouterUpTurns(d.i, d.os);
    } else {
      assert Turned(d.i, d.os, r.i, r.os);
    }
    TurnTwice(i, os, d.i, d.os, r.i, r.os);
  }

  /** After any setup the interface's counter fits its newest generation, whatever it was before. */
  lemma RouterSetupSolicits(i: Iface, os: Os, enable: bool, fault: RouterFault)
    requires Tokens(i, os)
    ensures SolicitOk(RouterSetup(i, os, enable, fault).i, RouterSetup(i, os, enable, fault).os)
  {
    var d := RouterDown(i, os);
    var r := RouterSetup(i, os, enable, fault);
    assert d.i.router.None? && d.i.ra == i.ra;
    if r.i.router.Some? {
      assert r == RouterUp(d.i, d.os);
      RouterDownTurns(i, os);
      RouterUpSolicits(d.i, d.os);
    }
  }

  lemma RouterSetupExchanges(i: Iface, os: Os, enable: bool, fault: RouterFault, r: Svc)
    requires Holds(i, os) && Tokens(i, os) && r == RouterSetup(i, os, enable, fault)
    ensures Exchanged(i, os, r.i, r.os)
  {
    RouterSetupSwaps(i, os, enable, fault);
    RouterSetupTurns(i, os, enable, fault);
  }

  lemma DhcpSetupExchanges(i: Iface, os: Os, enable: bool, fault: DhcpFault, r: Svc)
    requires Holds(i, os) && Tokens(i, os) && r == DhcpSetup(i, os, enable, fault)
    ensures Exchanged(i, os, r.i, r.os)
  {
    DhcpSetupSwaps(i, os, enable, fault);
  }

  lemma NdpSetupExchanges(i: Iface, os: Os, k: Kernel, enable: bool, fault: NdpFault, r: NdpSvc)
    requires Holds(i, os) && Tokens(i, os) && r == NdpSetup(i, os, k, enable, fault)
    ensures Exchanged(i, os, r.i, r.os)
  {
    NdpSetupSwaps(i, os, k, enable, fault);
  }

  // ---------- the whole table ----------

  /** Open handles are exactly those the interfaces hold, no two interfaces sharing one. */
  ghost predicate HandlesOwned(T: Table, os: Os) {
    && ClosedOnce(os)
    && (forall n :: n in T ==> Held(T[n]) <= os.open && Separate(T[n]))
    && (forall m, n :: m in T && n in T && m != n ==> Held(T[m]) !! Held(T[n]))
    && (forall h :: h in os.open ==> exists n :: n in T && h in Held(T[n]))
  }

  /** Interface identities are unique, and every token ever issued belongs to an issued identity. */
  ghost predicate TokensOwned(T: Table, os: Os) {
    && (forall m, n :: m in T && n in T && m != n ==> T[m].id != T[n].id)
    && (forall n :: n in T ==> T[n].id < os.nextId && Tokens(T[n], os))
    && (forall tok: Token :: os.timers[tok] + os.queued[tok] <= 1 && os.sent[tok] <= 3
                             && (Pending(os, tok) || tok in os.sent ==> tok.id < os.nextId))
  }

  lemma SwapKeepsOwned(T: Table, os: Os, n: string, j: Iface, os2: Os)
    requires HandlesOwned(T, os) && n in T && Swapped(T[n], os, j, os2)
    ensures HandlesOwned(T[n := j], os2)
  {
    hide Held, Separate, RecordsFrom, ClosedOnce;
    var U := T[n := j];
    forall m | m in U && m != n
      ensures Held(U[m]) <= os2.open && Held(U[m]) !! Held(j)
    {
      assert Held(T[m]) !! Held(T[n]);
    }
    forall h | h in os2.open
      ensures exists m :: m in U && h in Held(U[m])
    {
      if h in Held(j) {
        assert h in Held(U[n]);
      } else {
        var m :| m in T && h in Held(T[m]);
        assert h in Held(U[m]);
      }
    }
  }

  lemma TurnKeepsOwned(T: Table, os: Os, n: string, j: Iface, os2: Os)
    requires TokensOwned(T, os) && n in T && Turned(T[n], os, j, os2)
    ensures TokensOwned(T[n := j], os2)
  {
    var U := T[n := j];
    forall m | m in U && m != n
      ensures Tokens(U[m], os2)
    {
      assert Tokens(T[m], os);
    }
    forall tok: Token
      ensures os2.timers[tok] + os2.queued[tok] <= 1 && os2.sent[tok] <= 3
              && (Pending(os2, tok) || tok in os2.sent ==> tok.id < os2.nextId)
    {
      if tok.id != T[n].id {
        assert Pending(os2, tok) == Pending(os, tok);
      }
    }
  }

  /** An interface without sockets can leave the table. */
  lemma ForgettingKeepsHandles(T: Table, os: Os, n: string)
    requires HandlesOwned(T, os) && n in T && Held(T[n]) == {}
    ensures HandlesOwned(T - {n}, os)
  {
    var U := T - {n};
    forall h | h in os.open
      ensures exists m :: m in U && h in Held(U[m])
    {
      var m :| m in T && h in Held(T[m]);
      assert m in U && U[m] == T[m];
    }
  }
}

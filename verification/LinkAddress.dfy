/** Choosing the link address of a relayed message, with 32-bit saturating lifetimes (iface.go, config.go). */
module LinkAddress {
  import opened Common
  import opened Addresses

  const UINT32_MAX: nat := 0xffff_ffff

  /** A lifetime as netlink reports it: seconds left, or forever. */
  predicate Forever(lft: int) {
    lft < 0 || lft % U32 == UINT32_MAX
  }

  /** lifetimeAbs: absolute end of a lifetime on the daemon's 32-bit clock; 0 stands for "never". */
  function LifetimeAbs(lft: int, now: nat): (r: nat)
    requires now <= UINT32_MAX
    ensures r <= UINT32_MAX
    ensures Forever(lft) ==> r == 0
    ensures !Forever(lft) && now > 0 ==> r == if lft % U32 + now < UINT32_MAX then lft % U32 + now else UINT32_MAX
  {
    if lft < 0 || lft % U32 == UINT32_MAX then 0
    else if lft % U32 > UINT32_MAX - now then UINT32_MAX
    else lft % U32 + now
  }

  /** At clock reading 0 a lifetime that ends at once is taken for an infinite one. */
  lemma ZeroClockAmbiguous(lft: int, now: nat)
    requires now <= UINT32_MAX
    ensures LifetimeAbs(lft, now) == 0 <==> Forever(lft) || (now == 0 && lft % U32 == 0)
  {
  }

  /** An address as the kernel lists it. */
  datatype Listed = Listed(addr: Addr, preferredLft: int, validLft: int, tentative: bool)

  function Cached(a: Listed, now: nat): IPAddr
    requires now <= UINT32_MAX
  {
    IPAddr(a.addr, LifetimeAbs(a.preferredLft, now), LifetimeAbs(a.validLft, now), a.tentative)
  }

  /** fetchAddr6 on a successful listing: one cached entry for each address, in order. */
  method FetchAddr6(listed: seq<Listed>, now: nat) returns (out: seq<IPAddr>)
    requires now <= UINT32_MAX
    ensures |out| == |listed|
    ensures forall k :: 0 <= k < |listed| ==> out[k] == Cached(listed[k], now)
  {
    out := [];
    for k := 0 to |listed|
      invariant |out| == k
      invariant forall j :: 0 <= j < k ==> out[j] == Cached(listed[j], now)
    {
      var pref := LifetimeAbs(listed[k].preferredLft, now);
      var valid := LifetimeAbs(listed[k].validLft, now);
      out := out + [IPAddr(listed[k].addr, pref, valid, listed[k].tentative)];
    }
  }

  /** Usable in the cache at `now`: not tentative and not expired. */
  predicate Usable(a: IPAddr, now: nat) {
    !a.tentative && (a.validLT == 0 || a.validLT > now)
  }

  predicate Preferred(a: IPAddr, now: nat) {
    Usable(a, now) && (a.preferredLT == 0 || a.preferredLT > now)
  }

  /** `a` stays valid at least as long as `b`, 0 being infinite. */
  predicate OutlivesOrEquals(a: IPAddr, b: IPAddr) {
    a.validLT == 0 || (b.validLT != 0 && a.validLT >= b.validLT)
  }

  ghost predicate NonePreferred(addrs: seq<IPAddr>, n: nat, now: nat)
    requires n <= |addrs|
  {
    forall j :: 0 <= j < n ==> !Preferred(addrs[j], now)
  }

  /** Index `k` holds the address to use: the first preferred one, else a usable one of maximal validity. */
  ghost predicate Chosen(addrs: seq<IPAddr>, now: nat, k: int) {
    && 0 <= k < |addrs| && Usable(addrs[k], now)
    && (Preferred(addrs[k], now) ==> NonePreferred(addrs, k, now))
    && (!Preferred(addrs[k], now) ==>
          NonePreferred(addrs, |addrs|, now)
          && forall j :: 0 <= j < |addrs| && Usable(addrs[j], now) ==> OutlivesOrEquals(addrs[k], addrs[j]))
  }

  /** The loop of relayLinkAddress; the index stands for the pointer `best`. */
  method RelayLinkAddress(addrs: seq<IPAddr>, now: nat) returns (best: int)
    ensures best == -1 <==> forall k :: 0 <= k < |addrs| ==> !Usable(addrs[k], now)
    ensures best != -1 ==> Chosen(addrs, now, best)
  {
    best := -1;
    for idx := 0 to |addrs|
      invariant -1 <= best < idx
      invariant NonePreferred(addrs, idx, now)
      invariant best == -1 ==> forall j :: 0 <= j < idx ==> !Usable(addrs[j], now)
      invariant best != -1 ==> Usable(addrs[best], now)
                               && forall j :: 0 <= j < idx && Usable(addrs[j], now) ==> OutlivesOrEquals(addrs[best], addrs[j])
    {
      var a := addrs[idx];
      if a.tentative || (a.validLT != 0 && a.validLT <= now) {
        continue;
      }
      if a.preferredLT == 0 || a.preferredLT > now {
        return idx;
      }
      if best == -1 || a.validLT == 0 || (addrs[best].validLT != 0 && a.validLT > addrs[best].validLT) {
        best := idx;
      }
    }
  }

  /** The kernel's own view: by `t` the lifetime read at `t0` has run out. */
  predicate Elapsed(lft: int, t0: nat, t: nat) {
    lft >= 0 && lft % 0x1_0000_0000 != 0xffff_ffff && lft % 0x1_0000_0000 + t0 <= t
  }

  /**
   * What is cached as usable is what the kernel still considers valid, but for lifetimes whose end does
   * not fit the 32-bit clock: those are cut short at its last reading.
   */
  lemma UsableIffNotElapsed(a: Listed, t0: nat, t: nat)
    requires 0 < t0 <= t <= UINT32_MAX && a.validLft < U32
    ensures Usable(Cached(a, t0), t) <==>
              !a.tentative && !Elapsed(a.validLft, t0, t) && (t < UINT32_MAX || Forever(a.validLft))
  {
  }

  /** The kernel's view of what is preferred: neither lifetime has run out, and the address is not tentative. */
  predicate StillPreferred(a: Listed, t0: nat, t: nat) {
    !a.tentative && !Elapsed(a.validLft, t0, t) && !Elapsed(a.preferredLft, t0, t)
  }

  /** What is cached as preferred is what the kernel still prefers, up to the last reading of the 32-bit clock. */
  lemma PreferredIffStill(a: Listed, t0: nat, t: nat)
    requires 0 < t0 <= t < 0xffff_ffff && a.validLft < U32 && a.preferredLft < U32
    ensures Preferred(Cached(a, t0), t) <==> StillPreferred(a, t0, t)
  {
  }

  /** As long as the kernel prefers some address, the one chosen is the first it prefers. */
  lemma ChosenIsPreferred(listed: seq<Listed>, t0: nat, t: nat, addrs: seq<IPAddr>, k: int)
    requires 0 < t0 <= t < 0xffff_ffff && |addrs| == |listed|
    requires forall j :: 0 <= j < |listed| ==>
      addrs[j] == Cached(listed[j], t0) && listed[j].validLft < U32 && listed[j].preferredLft < U32
    requires Chosen(addrs, t, k)
    ensures (exists j :: 0 <= j < |listed| && StillPreferred(listed[j], t0, t)) ==>
      StillPreferred(listed[k], t0, t) && forall j :: 0 <= j < k ==> !StillPreferred(listed[j], t0, t)
  {
    forall j | 0 <= j < |listed| ensures Preferred(addrs[j], t) <==> StillPreferred(listed[j], t0, t) {
      PreferredIffStill(listed[j], t0, t);
    }
    hide Preferred, StillPreferred;
  }

  /** If the kernel prefers none, the one chosen lasts as long as any that is still valid; ends fit the clock. */
  lemma ChosenLasts(listed: seq<Listed>, t0: nat, t: nat, addrs: seq<IPAddr>, k: int, j: int)
    requires 0 < t0 <= t < 0xffff_ffff && |addrs| == |listed| && Chosen(addrs, t, k) && 0 <= j < |listed|
    requires forall j :: 0 <= j < |listed| ==>
      addrs[j] == Cached(listed[j], t0) && listed[j].validLft < U32 && listed[j].preferredLft < U32
    requires forall j :: 0 <= j < |listed| ==> !StillPreferred(listed[j], t0, t)
    requires forall j :: 0 <= j < |listed| && listed[j].validLft >= 0 && listed[j].validLft != 0xffff_ffff ==>
      listed[j].validLft + t0 < 0xffff_ffff
    requires !listed[j].tentative && !Elapsed(listed[j].validLft, t0, t)
    ensures
      var a, b := listed[k].validLft, listed[j].validLft;
      || a < 0 || a == 0xffff_ffff || (0 <= b < 0xffff_ffff && a >= b)
  {
    PreferredIffStill(listed[k], t0, t);
    UsableIffNotElapsed(listed[j], t0, t);
    assert OutlivesOrEquals(addrs[k], addrs[j]);
  }

  /** Whatever is chosen from a cache filled at `t0` is neither tentative nor elapsed. */
  lemma ChosenIsLive(listed: seq<Listed>, t0: nat, t: nat, addrs: seq<IPAddr>, k: int)
    requires 0 < t0 <= t <= UINT32_MAX && |addrs| == |listed|
    requires forall j :: 0 <= j < |listed| ==> addrs[j] == Cached(listed[j], t0) && listed[j].validLft < U32
    requires Chosen(addrs, t, k)
    ensures !listed[k].tentative && !Elapsed(listed[k].validLft, t0, t) && addrs[k].addr == listed[k].addr
  {
    assert addrs[k] == Cached(listed[k], t0);
    UsableIffNotElapsed(listed[k], t0, t);
  }
}

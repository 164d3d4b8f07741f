/** The cached link-local source address of an interface (iface.go, config.go). */
module LinkLocal {
  import opened Common
  import opened Addresses
  import opened Model

  predicate Usable(c: IPAddr) {
    !c.tentative && c.addr.V6? && c.addr.IsLinkLocalUnicast()
  }

  /** The uncached search: the first non-tentative IPv6 link-local address. */
  function FirstLinkLocal(addrs: seq<IPAddr>): (r: Option<Addr>)
    ensures r.None? <==> forall c :: c in addrs ==> !Usable(c)
    ensures r.Some? ==> exists k :: 0 <= k < |addrs| && Usable(addrs[k]) && addrs[k].addr == r.value
                                    && forall j :: 0 <= j < k ==> !Usable(addrs[j])
  {
    if addrs == [] then None
    else if Usable(addrs[0]) then Some(addrs[0].addr)
    else
      var r := FirstLinkLocal(addrs[1..]);
      assert r.Some? ==> exists k :: 0 < k < |addrs| && Usable(addrs[k]) && addrs[k].addr == r.value
                                     && forall j :: 0 <= j < k ==> !Usable(addrs[j]) by {
        if r.Some? {
          var k :| 0 <= k < |addrs[1..]| && Usable(addrs[1..][k]) && addrs[1..][k].addr == r.value
                   && forall j :: 0 <= j < k ==> !Usable(addrs[1..][j]);
          assert Usable(addrs[k + 1]);
          forall j | 0 <= j < k + 1 ensures !Usable(addrs[j]) {
            if j > 0 { assert addrs[j] == addrs[1..][j - 1]; }
          }
        }
      }
      assert forall c :: c in addrs ==> c == addrs[0] || c in addrs[1..];
      r
  }

  predicate HasLinkLocal(addrs: seq<IPAddr>) {
    exists c :: c in addrs && c.addr.IsLinkLocalUnicast()
  }

  /** The cache after the address list has been replaced: updateLinkLocalState. */
  function Refreshed(c: Cache, addrs: seq<IPAddr>): Cache {
    Cache(addrs, c.cachedLL, false, HasLinkLocal(addrs))
  }

  function Refresh(i: Iface, addrs: seq<IPAddr>): Iface {
    i.(cache := Refreshed(i.cache, addrs))
  }

  /** The cache after getLinkLocalAddr: a successful search is remembered. */
  function Searched(c: Cache): Cache {
    if c.cachedLLValid then c
    else match FirstLinkLocal(c.addr6)
         case None => c
         case Some(a) => c.(cachedLL := a, cachedLLValid := true)
  }

  function Looked(i: Iface): Iface {
    i.(cache := Searched(i.cache))
  }

  /** What getLinkLocalAddr returns. */
  function LinkLocalOf(c: Cache): Option<Addr> {
    if c.cachedLLValid then Some(c.cachedLL) else FirstLinkLocal(c.addr6)
  }

  /** The cache, when valid, holds what a search would find; the flag tells whether any link-local exists. */
  ghost predicate CacheAgrees(c: Cache) {
    && (c.cachedLLValid ==> FirstLinkLocal(c.addr6) == Some(c.cachedLL))
    && (c.haveLinkLocal <==> HasLinkLocal(c.addr6))
  }

  /** What an agreeing cache answers: the first address that is IPv6 link-local and not tentative, if there is one. */
  lemma LinkLocalMeans(c: Cache)
    requires CacheAgrees(c)
    ensures LinkLocalOf(c) == None <==>
              forall x :: x in c.addr6 ==> x.tentative || x.addr.V4? || !LinkLocalBytes(x.addr)
    ensures LinkLocalOf(c).Some? ==>
      exists k :: 0 <= k < |c.addr6| && c.addr6[k].addr == LinkLocalOf(c).value
                  && !c.addr6[k].tentative && c.addr6[k].addr.V6? && LinkLocalBytes(c.addr6[k].addr)
                  && forall j :: 0 <= j < k ==>
                       c.addr6[j].tentative || c.addr6[j].addr.V4? || !LinkLocalBytes(c.addr6[j].addr)
    ensures c.haveLinkLocal <==> exists x :: x in c.addr6 && LinkLocalBytes(x.addr)
  {
    forall x: IPAddr ensures Usable(x) <==> !x.tentative && x.addr.V6? && LinkLocalBytes(x.addr) { }
  }
}

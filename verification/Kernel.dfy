/** The abstract kernel: proxy-NDP entries, /128 host routes, neighbour cache and proxy_ndp flags. */
module KernelModel {
  import opened Addresses

  /** A neighbour, or a tracked host, on the interface with the given index. */
  datatype Key = Key(addr: Addr, ifindex: int)
  datatype Proxy = Proxy(addr: Addr, ifindex: int)
  /** A /128 host route in the main table. */
  datatype Route = Route(addr: Addr, ifindex: int, metric: int)

  /** Neighbour states; the kernel reports exactly one of them at a time. */
  datatype Nud = NoState | Incomplete | Reachable | Stale | Delay | Probe | Failed | NoArp | Permanent
  {
    predicate Resolved() {
      Reachable? || Stale? || Delay? || Probe? || Permanent? || NoArp?
    }
  }

  datatype Changes = Changes(proxies: set<Proxy>, routes: set<Route>, neighs: set<Key>, flags: set<string>)
  const NO_CHANGES: Changes := Changes({}, {}, {}, {})

  /**
   * The changes the kernel currently refuses, additions and removals apart: it may accept a change and refuse to
   * take it back. The environment may alter this between any two steps.
   */
  datatype Refusal = Refusal(add: Changes, del: Changes)
  const NO_REFUSAL: Refusal := Refusal(NO_CHANGES, NO_CHANGES)

  datatype Kernel = Kernel(
    proxies: set<Proxy>,
    routes: set<Route>,
    neighs: map<Key, Nud>,
    proxyNdp: set<string>,
    refuse: Refusal)

  const OUR_METRIC: int := 1024
  const PING_METRIC: int := 128

  function Pairs(addrs: set<Addr>, indexes: set<int>): (r: set<Proxy>)
    ensures forall p: Proxy :: p in r <==> p.addr in addrs && p.ifindex in indexes
  {
    set a, x | a in addrs && x in indexes :: Proxy(a, x)
  }

  function RoutesTo(addrs: set<Addr>, ifindex: int, metric: int): (r: set<Route>)
    ensures forall q: Route :: q in r <==> q.addr in addrs && q.ifindex == ifindex && q.metric == metric
  {
    set a | a in addrs :: Route(a, ifindex, metric)
  }

  function KeysOf(addrs: set<Addr>, ifindex: int): (r: set<Key>)
    ensures forall k: Key :: k in r <==> k.addr in addrs && k.ifindex == ifindex
  {
    set a | a in addrs :: Key(a, ifindex)
  }

  function AddProxies(k: Kernel, ps: set<Proxy>): Kernel {
    k.(proxies := k.proxies + (ps - k.refuse.add.proxies))
  }

  function DelProxies(k: Kernel, ps: set<Proxy>): Kernel {
    k.(proxies := k.proxies - (ps - k.refuse.del.proxies))
  }

  /** The routes no route of `put` (all through one device, of one metric) takes the place of. */
  function Undisplaced(routes: set<Route>, put: set<Route>, ifindex: int, metric: int): (rs: set<Route>)
    ensures forall r :: r in rs <==> r in routes && !(r.metric == metric && Route(r.addr, ifindex, metric) in put)
  {
    set r | r in routes && !(r.metric == metric && Route(r.addr, ifindex, metric) in put)
  }

  /** Route replacement: a /128 of the same metric through any device gives way. */
  function ReplaceRoutes(k: Kernel, addrs: set<Addr>, ifindex: int, metric: int): Kernel {
    var put := RoutesTo(addrs, ifindex, metric) - k.refuse.add.routes;
    k.(routes := Undisplaced(k.routes, put, ifindex, metric) + put)
  }

  /** Route deletion: only the route through exactly this device goes. */
  function DelRoutes(k: Kernel, addrs: set<Addr>, ifindex: int, metric: int): Kernel {
    k.(routes := k.routes - (RoutesTo(addrs, ifindex, metric) - k.refuse.del.routes))
  }

  function SetupProxyNeigh(k: Kernel, addr: Addr, ifindex: int, add: bool): Kernel {
    if add then AddProxies(k, Pairs({addr}, {ifindex})) else DelProxies(k, Pairs({addr}, {ifindex}))
  }

  function SetupRoute(k: Kernel, addr: Addr, ifindex: int, metric: int, add: bool): Kernel {
    if add then ReplaceRoutes(k, {addr}, ifindex, metric) else DelRoutes(k, {addr}, ifindex, metric)
  }

  function SetFlags(k: Kernel, ifnames: set<string>): Kernel {
    k.(proxyNdp := k.proxyNdp + (ifnames - k.refuse.add.flags))
  }

  function ClearFlag(k: Kernel, ifname: string): Kernel {
    k.(proxyNdp := k.proxyNdp - ({ifname} - k.refuse.del.flags))
  }

  /** Whether enabling proxy_ndp reports success: it is already set, or the write is accepted. */
  predicate FlagEnables(k: Kernel, ifname: string) {
    ifname in k.proxyNdp || ifname !in k.refuse.add.flags
  }

  function DelNeighs(k: Kernel, ks: set<Key>): Kernel {
    k.(neighs := k.neighs - (ks - k.refuse.del.neighs))
  }

  function ProbeNeighs(k: Kernel, ks: set<Key>): Kernel {
    k.(neighs := k.neighs + map q | q in ks - k.refuse.add.neighs :: Probe)
  }
}

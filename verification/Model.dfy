/** The daemon's state as a value: interface records, tracked hosts, the kernel and the runtime around it. */
module Model {
  import opened Common
  import opened Addresses
  import opened KernelModel

  datatype Mode = Disabled | Relay

  /** Descriptors and done channels, numbered by one counter so that every opening is a new handle. */
  datatype Handle = Fd(n: nat) | Chan(n: nat)

  /** Socket records. `ifindex` is the index the socket was joined or bound with. */
  datatype RouterSock = RouterSock(fd: Handle, done: Handle, ifindex: int, allNodes: bool)
  datatype DhcpSock = DhcpSock(fd: Handle, done: Handle, ifindex: int)
  datatype NdpSock = NdpSock(fd: Handle, pingFd: Handle, done: Handle, ifindex: int)

  /** Identity, link state and configuration of an interface. */
  datatype Conf = Conf(
    id: nat, name: string, ifname: string, ifindex: int,
    running: bool, master: bool, learnRoutes: bool, ndpFromLinkLocal: bool, inuse: bool,
    ra: Mode, dhcpv6: Mode, ndp: Mode)

  datatype Cache = Cache(addr6: seq<IPAddr>, cachedLL: Addr, cachedLLValid: bool, haveLinkLocal: bool)

  datatype Iface = Iface(
    conf: Conf, cache: Cache,
    router: Option<RouterSock>, dhcp: Option<DhcpSock>, nd: Option<NdpSock>,
    raSent: nat, rsTimer: Option<nat>, rsTimerN: nat)
  {
    const id := conf.id
    const ifname := conf.ifname
    const ifindex := conf.ifindex
    const running := conf.running
    const master := conf.master
    const learnRoutes := conf.learnRoutes
    const ndpFromLinkLocal := conf.ndpFromLinkLocal
    const inuse := conf.inuse
    const ra := conf.ra
    const dhcpv6 := conf.dhcpv6
    const ndp := conf.ndp
    const addr6 := cache.addr6
  }

  type Table = map<string, Iface>

  /** An outcome of the search for an interface with this index. */
  ghost predicate Found(T: Table, idx: int, r: Option<string>) {
    && (r.Some? ==> r.value in T && T[r.value].ifindex == idx)
    && (r.None? ==> forall n :: n in T ==> T[n].ifindex != idx)
  }

  /** An outcome of the search for an interface on this netdev. */
  ghost predicate FoundByIfname(T: Table, ifname: string, r: Option<string>) {
    && (r.Some? ==> r.value in T && T[r.value].ifname == ifname)
    && (r.None? ==> forall n :: n in T ==> T[n].ifname != ifname)
  }

  /** One generation of one interface's solicitation timer. */
  datatype Token = Token(id: nat, gen: nat)

  /** The runtime: handles, armed and expired solicitation timers, and the solicitations they sent. */
  datatype Os = Os(
    next: nat, issued: set<Handle>, open: set<Handle>, closed: multiset<Handle>,
    timers: multiset<Token>, queued: multiset<Token>, sent: multiset<Token>,
    nextId: nat)

  /** `wakeTimers` and `wakeQueued` count armed debounce timers and posted reconcile closures. */
  datatype State = State(
    table: Table, mirrored: set<Key>, kernel: Kernel, os: Os,
    scheduled: bool, wakeTimers: nat, wakeQueued: nat)

  function Open(os: Os, h: Handle): Os {
    os.(next := os.next + 1, issued := os.issued + {h}, open := os.open + {h})
  }

  function Close(os: Os, h: Handle): Os {
    os.(open := os.open - {h}, closed := os.closed + multiset{h})
  }

  function FreshIface(name: string, id: nat): Iface {
    Iface(Conf(id, name, "", 0, false, false, false, false, false, Disabled, Disabled, Disabled),
          Cache([], UNSPECIFIED, false, false), None, None, None, 0, None, 0)
  }

  /** setInterfaceDefaults: everything relays, until the configuration says otherwise. */
  function Defaults(i: Iface): Iface {
    i.(conf := i.conf.(ra := Relay, dhcpv6 := Relay, ndp := Relay, learnRoutes := true, ndpFromLinkLocal := true),
       cache := i.cache.(cachedLLValid := false))
  }

  /** The runtime before the first configuration is read. */
  const IDLE_OS: Os := Os(0, {}, {}, multiset{}, multiset{}, multiset{}, multiset{}, 0)

  function Initial(k: Kernel): State {
    State(map[], {}, k, IDLE_OS, false, 0, 0)
  }
}

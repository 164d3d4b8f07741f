/** Bringing the three relay sockets of one interface up and down, with every step allowed to fail. */
module Services {
  import opened Common
  import opened KernelModel
  import opened Model

  /** The step of a setup that fails; the last value of each type means that none does. */
  datatype RouterFault =
    | RSocket | RBindToDevice | RChecksum | RMulticastHops | RUnicastHops | RRecvPktinfo
    | RRecvHopLimit | RMulticastLoop | RIcmpFilter | RJoin | RNone
  datatype DhcpFault =
    | DSocket | DBindToDevice | DV6Only | DReuseAddr | DRecvPktinfo | DMulticastHops
    | DMulticastLoop | DBind | DJoin | DNone
  datatype NdpFault =
    | NPingSocket | NPingBindToDevice | NPingChecksum | NPingMulticastHops | NPingUnicastHops | NPingFilter
    | NCaptureSocket | NDropFilter | NNsFilter | NCaptureBind | NMembership | NNone
  {
    /** The ping socket exists but the capture socket does not yet. */
    predicate BeforeCapture() {
      NPingBindToDevice? || NPingChecksum? || NPingMulticastHops? || NPingUnicastHops? || NPingFilter?
      || NCaptureSocket?
    }
  }

  datatype Faults = Faults(router: RouterFault, dhcp: DhcpFault, ndp: NdpFault, neighsListed: bool)

  datatype Svc = Svc(i: Iface, os: Os)
  datatype NdpSvc = NdpSvc(i: Iface, os: Os, kernel: Kernel)

  /** Only sockets and solicitation bookkeeping differ. */
  predicate SameConfig(i: Iface, j: Iface) {
    j.conf == i.conf && j.cache == i.cache
  }

  predicate SameSolicits(i: Iface, j: Iface) {
    j.raSent == i.raSent && j.rsTimer == i.rsTimer && j.rsTimerN == i.rsTimerN
  }

  function RouterDown(i: Iface, os: Os): Svc {
    match i.router
    case None => Svc(i, os)
    case Some(r) => Svc(i.(router := None), Close(Close(os, r.done), r.fd))
  }

  /** Stopping takes the newest timer away if it has not expired; an older one keeps running. */
  function StopTimer(i: Iface, os: Os): Svc {
    match i.rsTimer
    case None => Svc(i, os)
    case Some(g) => Svc(i.(rsTimer := None), os.(timers := os.timers - multiset{Token(i.id, g)}))
  }

  function Arm(i: Iface, os: Os, gen: nat): Svc {
    Svc(i.(rsTimer := Some(gen)), os.(timers := os.timers + multiset{Token(i.id, gen)}))
  }

  function RouterSocket(i: Iface, os: Os): Svc {
    var fd := Fd(os.next);
    var ch := Chan(os.next + 1);
    Svc(i.(router := Some(RouterSock(fd, ch, i.ifindex, i.master)), raSent := 0), Open(Open(os, fd), ch))
  }

  /** A master's new socket starts a new timer generation. */
  function NewGeneration(i: Iface, os: Os): Svc {
    if i.master then Arm(i.(rsTimerN := i.rsTimerN + 1), os, i.rsTimerN + 1) else Svc(i, os)
  }

  function RouterUp(i: Iface, os: Os): Svc {
    var r := RouterSocket(i, os);
    NewGeneration(r.i, r.os)
  }

  function RouterSetup(i: Iface, os: Os, enable: bool, fault: RouterFault): (r: Svc)
    ensures SameConfig(i, r.i) && r.i.dhcp == i.dhcp && r.i.nd == i.nd
    ensures r.i.router.Some? <==> enable && i.ra.Relay? && fault.RNone?
    ensures r.i.router.Some? ==> r.i.router.value.ifindex == i.ifindex && r.i.router.value.allNodes == i.master
  {
    var d := RouterDown(i, os);
    if !enable || i.ra.Disabled? then StopTimer(d.i, d.os)
    else if fault.RSocket? then d
    else if !fault.RNone? then Svc(d.i, Close(Open(d.os, Fd(d.os.next)), Fd(d.os.next)))
    else RouterUp(d.i, d.os)
  }

  function DhcpDown(i: Iface, os: Os): Svc {
    match i.dhcp
    case None => Svc(i, os)
    case Some(d) => Svc(i.(dhcp := None), Close(Close(os, d.done), d.fd))
  }

  function DhcpUp(i: Iface, os: Os): Svc {
    var fd := Fd(os.next);
    var ch := Chan(os.next + 1);
    Svc(i.(dhcp := Some(DhcpSock(fd, ch, i.ifindex))), Open(Open(os, fd), ch))
  }

  function DhcpSetup(i: Iface, os: Os, enable: bool, fault: DhcpFault): (r: Svc)
    ensures SameConfig(i, r.i) && SameSolicits(i, r.i) && r.i.router == i.router && r.i.nd == i.nd
    ensures r.i.dhcp.Some? <==> enable && i.dhcpv6.Relay? && fault.DNone?
    ensures r.i.dhcp.Some? ==> r.i.dhcp.value.ifindex == i.ifindex
    ensures r.os.timers == os.timers && r.os.queued == os.queued && r.os.sent == os.sent && r.os.nextId == os.nextId
  {
    var d := DhcpDown(i, os);
    if !enable || i.dhcpv6.Disabled? || fault.DSocket? then d
    else if !fault.DNone? then Svc(d.i, Close(Open(d.os, Fd(d.os.next)), Fd(d.os.next)))
    else DhcpUp(d.i, d.os)
  }

  function NdpDown(i: Iface, os: Os): Svc {
    match i.nd
    case None => Svc(i, os)
    case Some(n) => Svc(i.(nd := None), Close(Close(Close(os, n.done), n.fd), n.pingFd))
  }

  function NdpUp(i: Iface, os: Os): Svc {
    var ping := Fd(os.next);
    var cap := Fd(os.next + 1);
    var ch := Chan(os.next + 2);
    Svc(i.(nd := Some(NdpSock(cap, ping, ch, i.ifindex))), Open(Open(Open(os, ping), cap), ch))
  }

  /** A step after the capture socket failed: both descriptors are closed, the newer one first. */
  function NdpAbandoned(os: Os): Os {
    var ping := Fd(os.next);
    var cap := Fd(os.next + 1);
    Close(Close(Open(Open(os, ping), cap), cap), ping)
  }

  /** The socket part of ndpSetup; a fault after the capture socket leaves proxy_ndp switched on. */
  function NdpSetup(i: Iface, os: Os, k: Kernel, enable: bool, fault: NdpFault): (r: NdpSvc)
    ensures SameConfig(i, r.i) && SameSolicits(i, r.i) && r.i.router == i.router && r.i.dhcp == i.dhcp
    ensures r.i.nd.Some? <==> enable && i.ndp.Relay? && fault.NNone? && FlagEnables(k, i.ifname)
    ensures r.i.nd.Some? ==> r.i.nd.value.ifindex == i.ifindex
    ensures r.os.timers == os.timers && r.os.queued == os.queued && r.os.sent == os.sent && r.os.nextId == os.nextId
  {
    var d := NdpDown(i, os);
    if !enable || i.ndp.Disabled? then NdpSvc(d.i, d.os, ClearFlag(k, i.ifname))
    else if fault.NPingSocket? then NdpSvc(d.i, d.os, k)
    else if fault.BeforeCapture() then
      NdpSvc(d.i, Close(Open(d.os, Fd(d.os.next)), Fd(d.os.next)), k)
    else if !FlagEnables(k, i.ifname) then NdpSvc(d.i, NdpAbandoned(d.os), k)
    else if !fault.NNone? then NdpSvc(d.i, NdpAbandoned(d.os), SetFlags(k, {i.ifname}))
    else
      var up := NdpUp(d.i, d.os);
      NdpSvc(up.i, up.os, SetFlags(k, {i.ifname}))
  }

  /** All that ndpSetup does to the kernel by itself is to switch the flag of its netdev on or off. */
  lemma NdpSetupKernel(i: Iface, os: Os, k: Kernel, enable: bool, fault: NdpFault)
    ensures
      var k2 := NdpSetup(i, os, k, enable, fault).kernel;
      var up := enable && i.ndp.Relay?;
      && (!up ==> k2 == ClearFlag(k, i.ifname))
      && (up ==> k2 == k || k2 == SetFlags(k, {i.ifname}))
      && (up && (fault.NPingSocket? || fault.BeforeCapture()) ==> k2 == k)
      && (up && !(fault.NPingSocket? || fault.BeforeCapture()) && FlagEnables(k, i.ifname) ==> k2 == SetFlags(k, {i.ifname}))
  {
    hide SetFlags, ClearFlag, FlagEnables;
  }
}

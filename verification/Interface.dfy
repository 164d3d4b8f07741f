/** The record of one interface, updated in place by its own setup, timer and cache operations. */
module Interfaces {
  import opened Common
  import opened Addresses
  import opened KernelModel
  import opened Model
  import opened Services
  import opened LinkLocal
  import opened Daemon

  class Interface {
    const id: nat
    const name: string
    var ifname: string
    var ifindex: int
    var running: bool
    var master: bool
    var learnRoutes: bool
    var ndpFromLinkLocal: bool
    var inuse: bool
    var addr6: seq<IPAddr>
    var cachedLL: Addr
    var cachedLLValid: bool
    var haveLinkLocal: bool
    var ra: Mode
    var dhcpv6: Mode
    var ndp: Mode
    var router: Option<RouterSock>
    var dhcp: Option<DhcpSock>
    var nd: Option<NdpSock>
    var raSent: nat
    var rsTimer: Option<nat>
    var rsTimerN: nat

    function ConfView(): Conf
      reads this`ifname, this`ifindex, this`running, this`master, this`learnRoutes, this`ndpFromLinkLocal, this`inuse,
            this`ra, this`dhcpv6, this`ndp
    {
      Conf(id, name, ifname, ifindex, running, master, learnRoutes, ndpFromLinkLocal, inuse, ra, dhcpv6, ndp)
    }

    function CacheView(): Cache
      reads this`addr6, this`cachedLL, this`cachedLLValid, this`haveLinkLocal
    {
      Cache(addr6, cachedLL, cachedLLValid, haveLinkLocal)
    }

    function View(): (v: Iface)
      reads this
      ensures v.conf == ConfView() && v.cache == CacheView() && v.id == id && v.conf.name == name
      ensures v.ifname == ifname && v.ifindex == ifindex && v.running == running && v.inuse == inuse
      ensures v.master == master && v.learnRoutes == learnRoutes && v.ndpFromLinkLocal == ndpFromLinkLocal
      ensures v.ra == ra && v.dhcpv6 == dhcpv6 && v.ndp == ndp && v.addr6 == addr6
      ensures v.router == router && v.dhcp == dhcp && v.nd == nd
    {
      Iface(ConfView(), CacheView(), router, dhcp, nd, raSent, rsTimer, rsTimerN)
    }

    constructor (name: string, id: nat)
      ensures View() == FreshIface(name, id)
    {
      this.name, this.id := name, id;
      ifname, ifindex, running, master := "", 0, false, false;
      learnRoutes, ndpFromLinkLocal, inuse := false, false, false;
      addr6, cachedLL, cachedLLValid, haveLinkLocal := [], UNSPECIFIED, false, false;
      ra, dhcpv6, ndp := Disabled, Disabled, Disabled;
      router, dhcp, nd := None, None, None;
      raSent, rsTimer, rsTimerN := 0, None, 0;
    }

    method RelayEverything()
      modifies this`ra, this`dhcpv6, this`ndp
      ensures View() == old(View()).(conf := old(View()).conf.(ra := Relay, dhcpv6 := Relay, ndp := Relay))
    {
      ra, dhcpv6, ndp := Relay, Relay, Relay;
      assert ConfView() == old(ConfView()).(ra := Relay, dhcpv6 := Relay, ndp := Relay);
    }

    method SetInterfaceDefaults()
      modifies this
      ensures View() == Defaults(old(View()))
    {
      RelayEverything();
      learnRoutes, ndpFromLinkLocal := true, true;
      cachedLLValid := false;
    }

    // ---------- configuration and link state ----------

    method Attach(newIfname: string, link: Link)
      modifies this
      ensures View() == Daemon.Attach(old(View()), newIfname, link)
    {
      ifname := newIfname;
      ifindex := link.index;
      running := link.running;
    }

    /** Each option that is present overwrites its field. */
    method ApplyOptions(obj: JsonIface)
      modifies this
      ensures View() == Options(old(View()), obj)
    {
      inuse := true;
      master := Or(obj.master, master);
      ApplyNdpOptions(obj);
    }

    method ApplyNdpOptions(obj: JsonIface)
      modifies this`learnRoutes, this`ndpFromLinkLocal
      ensures View() == old(View()).(conf := old(View()).conf.(
                          learnRoutes := Or(obj.ndproxyRouting, old(learnRoutes)),
                          ndpFromLinkLocal := Or(obj.ndpFromLinkLocal, old(ndpFromLinkLocal))))
    {
      learnRoutes := Or(obj.ndproxyRouting, learnRoutes);
      ndpFromLinkLocal := Or(obj.ndpFromLinkLocal, ndpFromLinkLocal);
    }

    /** The netdev is gone. */
    method Detached()
      modifies this
      ensures View() == Gone(old(View()))
    {
      ifindex := 0;
      running := false;
      ForgetAddresses();
    }

    method ForgetAddresses()
      modifies this`addr6, this`cachedLLValid, this`haveLinkLocal
      ensures View() == old(View()).(cache := Cache([], old(cachedLL), false, false))
    {
      addr6 := [];
      cachedLLValid := false;
      haveLinkLocal := false;
    }

    method SetRunning(nowRunning: bool)
      modifies this`running
      ensures View() == WithRunning(old(View()), nowRunning)
    {
      running := nowRunning;
    }

    method ForgetLinkLocal()
      modifies this`cachedLLValid
      ensures View() == old(View()).(cache := old(View()).cache.(cachedLLValid := false))
    {
      cachedLLValid := false;
    }

    /** The first loop of Reload, for one interface. */
    method ResetForReload()
      modifies this
      ensures View() == Unused(Defaults(old(View())))
    {
      SetInterfaceDefaults();
      inuse := false;
    }

    /** A master gives up each service that no slave relays. */
    method DropIdleServices(any: Slaves)
      modifies this`ra, this`dhcpv6, this`ndp
      ensures View() == IdleMaster(old(View()), any)
    {
      if !master {
        return;
      }
      if dhcpv6.Relay? && !any.dhcpv6 {
        dhcpv6 := Disabled;
      }
      if ra.Relay? && !any.ra {
        ra := Disabled;
      }
      if ndp.Relay? && !any.ndp {
        ndp := Disabled;
      }
    }

    // ---------- addresses ----------

    method UpdateLinkLocalState()
      modifies this`cachedLLValid, this`haveLinkLocal
      ensures View() == Refresh(old(View()), addr6)
    {
      cachedLLValid := false;
      haveLinkLocal := false;
      for k := 0 to |addr6|
        invariant !cachedLLValid && !haveLinkLocal
        invariant forall j :: 0 <= j < k ==> !addr6[j].addr.IsLinkLocalUnicast()
      {
        if addr6[k].addr.IsLinkLocalUnicast() {
          haveLinkLocal := true;
          break;
        }
      }
      assert haveLinkLocal <==> HasLinkLocal(addr6);
    }

    /** `addrs` is the list fetched from the kernel; a failed fetch gives the empty list. */
    method RefreshInterfaceAddresses(addrs: seq<IPAddr>)
      modifies this
      ensures View() == Refresh(old(View()), addrs)
    {
      addr6 := addrs;
      UpdateLinkLocalState();
    }

    /** The answer is what an uncached search finds, provided the cache agrees with the address list. */
    method GetLinkLocalAddr() returns (r: Option<Addr>)
      modifies this`cachedLL, this`cachedLLValid
      ensures View() == Looked(old(View())) && r == LinkLocalOf(old(View()).cache)
      ensures CacheAgrees(old(View()).cache) ==> r == FirstLinkLocal(addr6) && CacheAgrees(View().cache)
    {
      if cachedLLValid {
        return Some(cachedLL);
      }
      for k := 0 to |addr6|
        invariant FirstLinkLocal(addr6[k..]) == FirstLinkLocal(addr6)
        invariant View() == old(View())
      {
        assert addr6[k..][1..] == addr6[k + 1..];
        var a := addr6[k];
        if !a.tentative && a.addr.V6? && a.addr.IsLinkLocalUnicast() {
          cachedLL := a.addr;
          cachedLLValid := true;
          return Some(a.addr);
        }
      }
      return None;
    }

    // ---------- sockets ----------

    /** `fault` names the system call that fails; every descriptor opened before it is closed again. */
    method RouterSetup(enable: bool, fault: RouterFault, os: Os) returns (os': Os)
      modifies this
      ensures Svc(View(), os') == Services.RouterSetup(old(View()), os, enable, fault)
    {
      var enabled := enable && !ra.Disabled?;
      os' := CloseRouter(os);
      if !enabled {
        os' := StopTimer(os');
        return;
      }
      if fault.RSocket? {
        return;
      }
      var fd := Fd(os'.next);
      os' := Open(os', fd);
      if !fault.RNone? {
        os' := Close(os', fd);
        return;
      }
      var done := Chan(os'.next);
      os' := Open(os', done);
      router := Some(RouterSock(fd, done, ifindex, master));
      raSent := 0;
      if master {
        os' := StartSolicitations(os');
      }
    }

    method CloseRouter(os: Os) returns (os': Os)
      modifies this`router
      ensures Svc(View(), os') == RouterDown(old(View()), os)
    {
      os' := os;
      if router.Some? {
        os' := Close(os', router.value.done);
        os' := Close(os', router.value.fd);
        router := None;
      }
    }

    /** A new generation of the solicitation timer. */
    method StartSolicitations(os: Os) returns (os': Os)
      requires master
      modifies this`rsTimer, this`rsTimerN
      ensures Svc(View(), os') == NewGeneration(old(View()), os)
    {
      rsTimerN := rsTimerN + 1;
      os' := AfterFunc(os, rsTimerN);
    }

    /** Starts a timer that will post a firing of generation `gen`; it becomes the one that can be stopped. */
    method AfterFunc(os: Os, gen: nat) returns (os': Os)
      modifies this`rsTimer
      ensures Svc(View(), os') == Arm(old(View()), os, gen)
    {
      rsTimer := Some(gen);
      os' := os.(timers := os.timers + multiset{Token(id, gen)});
    }

    method StopTimer(os: Os) returns (os': Os)
      modifies this`rsTimer
      ensures Svc(View(), os') == Services.StopTimer(old(View()), os)
    {
      os' := os;
      if rsTimer.Some? {
        os' := os.(timers := os.timers - multiset{Token(id, rsTimer.value)});
        rsTimer := None;
      }
    }

    method Dhcpv6Setup(enable: bool, fault: DhcpFault, os: Os) returns (os': Os)
      modifies this`dhcp
      ensures Svc(View(), os') == DhcpSetup(old(View()), os, enable, fault)
    {
      var enabled := enable && !dhcpv6.Disabled?;
      os' := os;
      if dhcp.Some? {
        os' := Close(os', dhcp.value.done);
        os' := Close(os', dhcp.value.fd);
        dhcp := None;
      }
      if !enabled || fault.DSocket? {
        return;
      }
      var fd := Fd(os'.next);
      os' := Open(os', fd);
      if !fault.DNone? {
        os' := Close(os', fd);
        return;
      }
      var done := Chan(os'.next);
      os' := Open(os', done);
      dhcp := Some(DhcpSock(fd, done, ifindex));
    }

    /** ndpSetup up to seeding; `up` tells that the sockets are there. */
    method NdpSetup(enable: bool, fault: NdpFault, os: Os, kernel: Kernel) returns (os': Os, kernel': Kernel, up: bool)
      modifies this`nd
      ensures NdpSvc(View(), os', kernel') == Services.NdpSetup(old(View()), os, kernel, enable, fault)
      ensures up <==> nd.Some?
    {
      var enabled := enable && !ndp.Disabled?;
      os', kernel', up := os, kernel, false;
      if nd.Some? {
        os' := Close(os', nd.value.done);
        os' := Close(os', nd.value.fd);
        os' := Close(os', nd.value.pingFd);
        nd := None;
      }
      assert Svc(View(), os') == NdpDown(old(View()), os);
      if !enabled {
        kernel' := ClearFlag(kernel', ifname);
        return;
      }
      if fault.NPingSocket? {
        return;
      }
      var pingFd := Fd(os'.next);
      os' := Open(os', pingFd);
      if fault.BeforeCapture() {
        os' := Close(os', pingFd);
        return;
      }
      var captureFd := Fd(os'.next);
      os' := Open(os', captureFd);
      if !FlagEnables(kernel', ifname) {
        os' := Close(os', captureFd);
        os' := Close(os', pingFd);
        return;
      }
      kernel' := SetFlags(kernel', {ifname});
      if !fault.NNone? {
        os' := Close(os', captureFd);
        os' := Close(os', pingFd);
        return;
      }
      var done := Chan(os'.next);
      os' := Open(os', done);
      nd := Some(NdpSock(captureFd, pingFd, done, ifindex));
      up := true;
    }

    // ---------- solicitations ----------

    /** `sendOk` is the outcome of the send, if there is one. */
    method SolicitTimerFire(gen: nat, sendOk: bool, os: Os) returns (os': Os)
      modifies this
      ensures Svc(View(), os') == SolicitFire(old(View()), os, gen, sendOk)
    {
      os' := os;
      if rsTimerN != gen || router.None? || !master || !ra.Relay? {
        return;
      }
      var ll := GetLinkLocalAddr();
      if ll.None? {
        os' := AfterFunc(os', gen);
        return;
      }
      if !sendOk {
        os' := AfterFunc(os', gen);
        return;
      }
      os' := os'.(sent := os'.sent + multiset{Token(id, gen)});
      raSent := raSent + 1;
      if raSent < MAX_SOLICITATIONS {
        os' := AfterFunc(os', gen);
      }
    }
  }
}

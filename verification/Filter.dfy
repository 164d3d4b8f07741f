/** The classic-BPF programs of the capture socket, run by an interpreter (ndp.go). */
module Filter {
  import opened Common

  /** One instruction as it is handed to the kernel. */
  datatype SockFilter = SockFilter(code: int, jt: nat, jf: nat, k: nat)

  const LD_B_ABS: int := 0x30
  const JMP_JEQ_K: int := 0x15
  const RET_K: int := 0x06
  const ICMPV6: nat := 58
  const NEIGHBOR_SOLICIT: nat := 135

  const DROP_ALL: seq<SockFilter> := [SockFilter(RET_K, 0, 0, 0)]

  const NS_FILTER: seq<SockFilter> := [
    SockFilter(LD_B_ABS, 0, 0, 6),
    SockFilter(JMP_JEQ_K, 0, 3, ICMPV6),
    SockFilter(LD_B_ABS, 0, 0, 40),
    SockFilter(JMP_JEQ_K, 0, 1, NEIGHBOR_SOLICIT),
    SockFilter(RET_K, 0, 0, 0xffff_ffff),
    SockFilter(RET_K, 0, 0, 0)
  ]

  /** Runs a program from `pc`; running off the end, an out-of-range load or an unknown code rejects. */
  function Exec(prog: seq<SockFilter>, pc: nat, acc: int, pkt: seq<byte>): nat
    decreases |prog| - pc
  {
    if pc >= |prog| then 0
    else
      var i := prog[pc];
      if i.code == RET_K then i.k
      else if i.code == LD_B_ABS then
        if i.k >= |pkt| then 0 else Exec(prog, pc + 1, pkt[i.k] as int, pkt)
      else if i.code == JMP_JEQ_K then
        Exec(prog, pc + 1 + (if acc == i.k then i.jt else i.jf), acc, pkt)
      else 0
  }

  predicate Accepts(prog: seq<SockFilter>, pkt: seq<byte>) {
    Exec(prog, 0, 0, pkt) > 0
  }

  /** The filter passes exactly ICMPv6 packets whose type byte is that of a Neighbor Solicitation. */
  lemma NsFilterAccepts(pkt: seq<byte>)
    ensures Accepts(NS_FILTER, pkt) <==> |pkt| > 40 && pkt[6] == 58 && pkt[40] == 135
    ensures Accepts(NS_FILTER, pkt) ==> Exec(NS_FILTER, 0, 0, pkt) == 0xffff_ffff
  {
    if |pkt| > 6 {
      var nxt := pkt[6] as int;
      assert Exec(NS_FILTER, 0, 0, pkt) == Exec(NS_FILTER, 1, nxt, pkt);
      assert Exec(NS_FILTER, 5, nxt, pkt) == 0;
      if nxt == ICMPV6 && |pkt| > 40 {
        var typ := pkt[40] as int;
        assert Exec(NS_FILTER, 2, nxt, pkt) == Exec(NS_FILTER, 3, typ, pkt);
        assert Exec(NS_FILTER, 4, typ, pkt) == 0xffff_ffff && Exec(NS_FILTER, 5, typ, pkt) == 0;
      }
    }
  }

  /** Until the real filter is attached, nothing passes. */
  lemma DropAllRejects(pkt: seq<byte>)
    ensures !Accepts(DROP_ALL, pkt)
  {
  }
}

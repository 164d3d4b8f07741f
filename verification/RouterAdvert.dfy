/** Rewriting the Source Link-Layer Address options of a Router Advertisement in place (router.go). */
module RouterAdvert {
  import opened Common

  const RA_HEADER: nat := 16
  const SOURCE_LINK_ADDR: byte := 1

  /** An option starts at `off`: header and announced length (in units of eight bytes) lie inside the message. */
  predicate WellFormed(d: seq<byte>, off: nat) {
    off + 2 <= |d| && d[off + 1] != 0 && off + 8 * d[off + 1] as int <= |d|
  }

  /** Where the well-formed options start, from `off` on, up to the first malformed one. */
  function Offsets(d: seq<byte>, off: nat): (r: seq<nat>)
    ensures forall o :: o in r ==> off <= o && WellFormed(d, o)
    decreases |d| - off
  {
    if !WellFormed(d, off) then [] else [off] + Offsets(d, off + 8 * d[off + 1] as int)
  }

  /** Where the well-formed options end and the rest of the message, if any, begins. */
  function EndOf(d: seq<byte>, off: nat): (end: nat)
    requires off <= |d|
    ensures off <= end <= |d| && !WellFormed(d, end)
    ensures forall o :: o in Offsets(d, off) ==> o + 8 <= end
    decreases |d| - off
  {
    if !WellFormed(d, off) then off
    else
      var next := off + 8 * d[off + 1] as int;
      assert Offsets(d, off) == [off] + Offsets(d, next);
      EndOf(d, next)
  }

  function OptionStarts(d: seq<byte>): seq<nat> {
    if |d| < RA_HEADER then [] else Offsets(d, RA_HEADER)
  }

  /** Type and length of each option of the message. */
  function Shape(d: seq<byte>): (r: seq<(byte, byte)>)
    ensures |r| == |OptionStarts(d)|
  {
    var starts := OptionStarts(d);
    seq(|starts|, k requires 0 <= k < |starts| => assert starts[k] in starts; (d[starts[k]], d[starts[k] + 1]))
  }

  /** Byte `k` is one of the six address bytes of the type-1 option at `off`. */
  predicate InAddress(d: seq<byte>, off: nat, k: int) {
    off < |d| && d[off] == SOURCE_LINK_ADDR && off + 2 <= k < off + 8
  }

  /** `r` is `d` with `mac` in the address field of each type-1 option that starts at one of `starts`. */
  ghost predicate RewriteAt(d: seq<byte>, r: seq<byte>, mac: Mac, starts: seq<nat>) {
    && |r| == |d|
    && (forall off, k :: off in starts && InAddress(d, off, k) && k < |d| ==> r[k] == mac[k - off - 2])
    && (forall k :: 0 <= k < |d| && (forall off :: off in starts ==> !InAddress(d, off, k)) ==> r[k] == d[k])
  }

  /** What a rewrite is: all options of the message carry the MAC, nothing else changes. */
  ghost predicate IsRewrite(d: seq<byte>, r: seq<byte>, mac: Mac) {
    RewriteAt(d, r, mac, OptionStarts(d))
  }

  method CopyAddress(data: array<byte>, start: nat, mac: Mac, n: nat)
    requires n <= 6 && start + n <= data.Length
    modifies data
    ensures forall k :: 0 <= k < data.Length ==> data[k] == if start <= k < start + n then mac[k - start] else old(data[k])
  {
    forall k | 0 <= k < n {
      data[start + k] := mac[k];
    }
  }

  lemma NothingRewritten(d: seq<byte>, mac: Mac)
    ensures RewriteAt(d, d, mac, [])
    ensures OptionStarts(d) == if |d| < RA_HEADER then [] else [] + Offsets(d, RA_HEADER)
  {
  }

  /** The options met so far, and those still ahead, when the loop moves on. */
  lemma NextOption(d: seq<byte>, done: seq<nat>, opt: nat)
    requires OptionStarts(d) == done + Offsets(d, opt)
    ensures WellFormed(d, opt) ==> OptionStarts(d) == done + [opt] + Offsets(d, opt + 8 * d[opt + 1] as int)
    ensures !WellFormed(d, opt) ==> OptionStarts(d) == done
  {
    if WellFormed(d, opt) {
      var rest := Offsets(d, opt + 8 * d[opt + 1] as int);
      assert done + ([opt] + rest) == done + [opt] + rest;
    }
  }

  /** fixSourceLinkAddrOption. */
  method FixSourceLinkAddrOption(data: array<byte>, mac: Mac)
    modifies data
    ensures IsRewrite(old(data[..]), data[..], mac)
  {
    hide RewriteAt, OptionStarts, Offsets;
    ghost var d := data[..];
    NothingRewritten(d, mac);
    if data.Length < RA_HEADER {
      return;
    }
    ghost var done: seq<nat> := [];
    var opt := RA_HEADER;
    while opt + 2 <= data.Length
      invariant RA_HEADER <= opt <= data.Length
      invariant OptionStarts(d) == done + Offsets(d, opt)
      invariant forall off :: off in done ==> off + 8 <= opt
      invariant forall k :: opt <= k < data.Length ==> data[k] == d[k]
      invariant RewriteAt(d, data[..], mac, done)
    {
      var optType := data[opt];
      var optLen := data[opt + 1] as int * 8;
      NextOption(d, done, opt);
      if optLen == 0 || opt + optLen > data.Length {
        break;
      }
      label Before:
      if optType == SOURCE_LINK_ADDR {
        var addrLen := optLen - 2;
        var n := if addrLen > 6 then 6 else addrLen;
        CopyAddress(data, opt + 2, mac, n);
      }
      OneOption(d, old@Before(data[..]), data[..], mac, done, opt);
      done := done + [opt];
      opt := opt + optLen;
    }
    NextOption(d, done, opt);
  }

  /** Rewriting one more option, behind all those rewritten so far. */
  lemma OneOption(d: seq<byte>, before: seq<byte>, after: seq<byte>, mac: Mac, done: seq<nat>, opt: nat)
    requires RewriteAt(d, before, mac, done) && WellFormed(d, opt) && |after| == |d|
    requires forall off :: off in done ==> off + 8 <= opt
    requires forall k :: 0 <= k < |d| ==> after[k] == if InAddress(d, opt, k) then mac[k - opt - 2] else before[k]
    ensures RewriteAt(d, after, mac, done + [opt])
  {
    assert opt in done + [opt];
    forall off, k | off in done + [opt] && InAddress(d, off, k) && k < |d|
      ensures after[k] == mac[k - off - 2]
    {
      if off != opt { assert off in done && !InAddress(d, opt, k); }
    }
    forall k | 0 <= k < |d| && (forall off :: off in done + [opt] ==> !InAddress(d, off, k))
      ensures after[k] == d[k]
    {
      assert forall off :: off in done ==> off in done + [opt];
    }
  }

  /** Options do not overlap: each starts eight bytes or more behind the one before. */
  lemma {:induction false} StartsApart(d: seq<byte>, off: nat, i: nat, j: nat)
    requires i < j < |Offsets(d, off)|
    ensures Offsets(d, off)[i] + 8 <= Offsets(d, off)[j]
    decreases |d| - off
  {
    var next := off + 8 * d[off + 1] as int;
    assert Offsets(d, off)[1..] == Offsets(d, next);
    if i > 0 {
      StartsApart(d, next, i - 1, j - 1);
    } else {
      assert Offsets(d, off)[j] in Offsets(d, next);
    }
  }

  lemma AddressesApart(d: seq<byte>, a: nat, b: nat, k: int)
    requires a in OptionStarts(d) && b in OptionStarts(d) && InAddress(d, a, k) && 0 <= k - b < 8
    ensures a == b
  {
    var starts := OptionStarts(d);
    var i :| 0 <= i < |starts| && starts[i] == a;
    var j :| 0 <= j < |starts| && starts[j] == b;
    if i < j { StartsApart(d, RA_HEADER, i, j); } else if j < i { StartsApart(d, RA_HEADER, j, i); }
  }

  /** The type and length bytes of an option are never part of an address field. */
  lemma HeadersKept(d: seq<byte>, r: seq<byte>, mac: Mac, off: nat)
    requires IsRewrite(d, r, mac) && off in OptionStarts(d)
    ensures r[off] == d[off] && r[off + 1] == d[off + 1]
  {
    forall a, k | a in OptionStarts(d) && off <= k < off + 2 ensures !InAddress(d, a, k) {
      if InAddress(d, a, k) { AddressesApart(d, a, off, k); }
    }
  }

  /** Type and length bytes of the options that start at `starts` are the same. */
  ghost predicate SameHeaders(d: seq<byte>, r: seq<byte>, starts: seq<nat>) {
    forall k :: 0 <= k < |starts| ==>
      starts[k] + 1 < |d| && starts[k] + 1 < |r| && r[starts[k]] == d[starts[k]] && r[starts[k] + 1] == d[starts[k] + 1]
  }

  lemma {:induction false} SameOffsets(d: seq<byte>, r: seq<byte>, off: nat)
    requires |r| == |d| && off <= |d| && SameHeaders(d, r, Offsets(d, off))
    requires EndOf(d, off) + 2 <= |d| ==> r[EndOf(d, off) + 1] == d[EndOf(d, off) + 1]
    ensures Offsets(r, off) == Offsets(d, off)
    decreases |d| - off
  {
    if WellFormed(d, off) {
      var next := off + 8 * d[off + 1] as int;
      var rest := Offsets(d, next);
      var starts := Offsets(d, off);
      assert starts == [off] + rest;
      assert r[starts[0] + 1] == d[starts[0] + 1];
      assert SameHeaders(d, r, rest) by {
        forall k | 0 <= k < |rest| ensures starts[k + 1] == rest[k] { }
      }
      SameOffsets(d, r, next);
    }
  }

  /**
   * Rewriting commutes with parsing: length, header, the tail behind the last well-formed option, and the
   * sequence of option types and lengths stay; every well-formed type-1 option carries the MAC.
   */
  lemma RewriteKeepsParse(d: seq<byte>, r: seq<byte>, mac: Mac)
    requires IsRewrite(d, r, mac)
    ensures |r| == |d| && OptionStarts(r) == OptionStarts(d) && Shape(r) == Shape(d)
    ensures |d| >= RA_HEADER ==> r[..RA_HEADER] == d[..RA_HEADER] && r[EndOf(d, RA_HEADER)..] == d[EndOf(d, RA_HEADER)..]
    ensures |d| < RA_HEADER ==> r == d
    ensures forall off :: off in OptionStarts(r) && r[off] == SOURCE_LINK_ADDR ==> r[off + 2..off + 8] == mac
  {
    assert |r| == |d|;
    hide Offsets, OptionStarts, IsRewrite, Shape;
    AllHeadersKept(d, r, mac);
    if |d| < RA_HEADER {
      ShortKept(d, r, mac);
    } else {
      HeaderKept(d, r, mac);
      TailKept(d, r, mac);
    }
    SameStarts(d, r);
    SameShape(d, r);
    forall off | off in OptionStarts(r) && r[off] == SOURCE_LINK_ADDR ensures r[off + 2..off + 8] == mac {
      HeadersKept(d, r, mac, off);
      AddressSet(d, r, mac, off);
    }
  }

  lemma SameShape(d: seq<byte>, r: seq<byte>)
    requires |r| == |d| && SameHeaders(d, r, OptionStarts(d)) && OptionStarts(r) == OptionStarts(d)
    ensures Shape(r) == Shape(d)
  {
    hide Offsets, OptionStarts;
    forall k | 0 <= k < |OptionStarts(d)| ensures Shape(r)[k] == Shape(d)[k] {
      assert OptionStarts(d)[k] + 1 < |d|;
    }
  }

  lemma AllHeadersKept(d: seq<byte>, r: seq<byte>, mac: Mac)
    requires IsRewrite(d, r, mac)
    ensures SameHeaders(d, r, OptionStarts(d))
  {
    var starts := OptionStarts(d);
    forall k | 0 <= k < |starts|
      ensures starts[k] + 1 < |d| && r[starts[k]] == d[starts[k]] && r[starts[k] + 1] == d[starts[k] + 1]
    {
      assert starts[k] in starts;
      HeadersKept(d, r, mac, starts[k]);
    }
  }

  lemma SameStarts(d: seq<byte>, r: seq<byte>)
    requires |r| == |d| && SameHeaders(d, r, OptionStarts(d))
    requires |d| >= RA_HEADER ==> r[EndOf(d, RA_HEADER)..] == d[EndOf(d, RA_HEADER)..]
    ensures OptionStarts(r) == OptionStarts(d)
  {
    if |d| >= RA_HEADER {
      var end := EndOf(d, RA_HEADER);
      if end + 2 <= |d| { assert r[end + 1] == r[end..][1] == d[end..][1] == d[end + 1]; }
      SameOffsets(d, r, RA_HEADER);
    }
  }

  /** No address field reaches into the header or into the tail. */
  lemma OutsideAddresses(d: seq<byte>, k: nat)
    requires RA_HEADER <= |d| && (k < RA_HEADER || EndOf(d, RA_HEADER) <= k)
    ensures forall off :: off in OptionStarts(d) ==> !InAddress(d, off, k)
  {
    var end := EndOf(d, RA_HEADER);
    assert forall off :: off in Offsets(d, RA_HEADER) ==> RA_HEADER <= off && off + 8 <= end;
  }

  lemma HeaderKept(d: seq<byte>, r: seq<byte>, mac: Mac)
    requires IsRewrite(d, r, mac) && RA_HEADER <= |d|
    ensures r[..RA_HEADER] == d[..RA_HEADER]
  {
    hide Offsets, OptionStarts, InAddress;
    forall k | 0 <= k < RA_HEADER ensures r[k] == d[k] { OutsideAddresses(d, k); }
  }

  lemma TailKept(d: seq<byte>, r: seq<byte>, mac: Mac)
    requires IsRewrite(d, r, mac) && RA_HEADER <= |d|
    ensures r[EndOf(d, RA_HEADER)..] == d[EndOf(d, RA_HEADER)..]
  {
    var end := EndOf(d, RA_HEADER);
    hide Offsets, OptionStarts, InAddress, EndOf;
    forall k | end <= k < |d| ensures r[k] == d[k] { OutsideAddresses(d, k); }
  }

  /** A message too short for a header has no options, so nothing changes. */
  lemma ShortKept(d: seq<byte>, r: seq<byte>, mac: Mac)
    requires IsRewrite(d, r, mac) && |d| < RA_HEADER
    ensures r == d
  {
    hide InAddress;
    assert OptionStarts(d) == [];
  }

  lemma AddressSet(d: seq<byte>, r: seq<byte>, mac: Mac, off: nat)
    requires IsRewrite(d, r, mac) && off in OptionStarts(d) && d[off] == SOURCE_LINK_ADDR
    ensures r[off + 2..off + 8] == mac
  {
    forall k | 0 <= k < 6 ensures r[off + 2 + k] == mac[k] { assert InAddress(d, off, off + 2 + k); }
  }

  /** The result is determined by the message and the MAC. */
  lemma RewriteUnique(d: seq<byte>, r: seq<byte>, r2: seq<byte>, mac: Mac)
    requires IsRewrite(d, r, mac) && IsRewrite(d, r2, mac)
    ensures r == r2
  {
    forall k | 0 <= k < |d| ensures r[k] == r2[k] {
      if off :| off in OptionStarts(d) && InAddress(d, off, k) { }
    }
  }

  /** A later rewrite overrides an earlier one. */
  lemma LaterRewriteWins(d: seq<byte>, r: seq<byte>, r2: seq<byte>, mac: Mac, mac2: Mac)
    requires IsRewrite(d, r, mac) && IsRewrite(r, r2, mac2)
    ensures IsRewrite(d, r2, mac2)
  {
    RewriteKeepsParse(d, r, mac);
    forall off | off in OptionStarts(d) ensures r[off] == d[off] { HeadersKept(d, r, mac, off); }
    assert forall off, k :: off in OptionStarts(d) ==> InAddress(d, off, k) == InAddress(r, off, k);
  }

  // ---------- in bytes ----------

  /** Options read one after the other from `a` on, each inside the message; its second byte counts eights. */
  predicate Walk(d: seq<byte>, a: nat, ws: seq<nat>)
    decreases |ws|
  {
    && ws != [] && ws[0] == a && a + 2 <= |d| && d[a + 1] != 0 && a + 8 * d[a + 1] as int <= |d|
    && (|ws| > 1 ==> Walk(d, a + 8 * d[a + 1] as int, ws[1..]))
  }

  lemma {:induction false} WalkReaches(d: seq<byte>, a: nat, ws: seq<nat>)
    requires Walk(d, a, ws)
    ensures ws[|ws| - 1] in Offsets(d, a)
    decreases |ws|
  {
    if |ws| > 1 { WalkReaches(d, a + 8 * d[a + 1] as int, ws[1..]); }
  }

  lemma {:induction false} StartWalked(d: seq<byte>, a: nat, off: nat) returns (ws: seq<nat>)
    requires off in Offsets(d, a)
    ensures Walk(d, a, ws) && ws[|ws| - 1] == off
    decreases |d| - a
  {
    if off == a {
      ws := [a];
    } else {
      var rest := StartWalked(d, a + 8 * d[a + 1] as int, off);
      ws := [a] + rest;
      assert ws[1..] == rest;
    }
  }

  /** Reading options from byte 16 on comes to one of type 1 at `off`. */
  ghost predicate MacOptionAt(d: seq<byte>, off: nat) {
    off < |d| && d[off] == 1 && exists ws :: Walk(d, 16, ws) && ws[|ws| - 1] == off
  }

  lemma MacOptionIff(d: seq<byte>, off: nat)
    ensures MacOptionAt(d, off) <==> off in OptionStarts(d) && d[off] == SOURCE_LINK_ADDR
  {
    if MacOptionAt(d, off) {
      var ws :| Walk(d, 16, ws) && ws[|ws| - 1] == off;
      WalkReaches(d, 16, ws);
    }
    if off in OptionStarts(d) { var ws := StartWalked(d, 16, off); }
  }

  /**
   * A rewrite, in bytes: in each option of type 1 met by reading options from byte 16 on, the six bytes behind its
   * first two become the MAC; and no byte changes but those.
   */
  lemma RewriteBytes(d: seq<byte>, r: seq<byte>, mac: Mac)
    requires IsRewrite(d, r, mac)
    ensures |r| == |d|
    ensures forall off: nat :: MacOptionAt(d, off) ==> off + 8 <= |d| && r[off + 2..off + 8] == mac
    ensures forall k :: 0 <= k < |d| && r[k] != d[k] ==> exists off: nat :: MacOptionAt(d, off) && off + 2 <= k < off + 8
  {
    forall off: nat | MacOptionAt(d, off) ensures off + 8 <= |d| && r[off + 2..off + 8] == mac {
      MacOptionIff(d, off);
      AddressSet(d, r, mac, off);
    }
    forall k | 0 <= k < |d| && r[k] != d[k] ensures exists off: nat :: MacOptionAt(d, off) && off + 2 <= k < off + 8 {
      var off: nat :| off in OptionStarts(d) && InAddress(d, off, k);
      MacOptionIff(d, off);
    }
  }
}

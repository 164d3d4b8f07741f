/** DHCPv6 relay envelopes (dhcpv6.go): wrapping client messages, scanning and unwrapping Relay-replies. */
module Dhcpv6 {
  import opened Common
  import opened Addresses

  const CLIENT_PORT: int := 546
  const SERVER_PORT: int := 547
  const HOP_LIMIT: byte := 32
  const RELAY_FORW: byte := 12
  const RELAY_REPL: byte := 13
  const OPT_RELAY_MSG: int := 9
  const OPT_INTERFACE_ID: int := 18
  const HEADER: int := 34
  /** What a reader receives of one datagram. */
  const READ_BUFFER: nat := 8192

  // ---------- options ----------

  datatype Opt = Opt(code: int, data: seq<byte>)
  {
    predicate Fits() { 0 <= code < U16 && |data| < U16 }
    predicate IsInterfaceId() { code == OPT_INTERFACE_ID && |data| == 4 }
    predicate IsRelayMsg() { code == OPT_RELAY_MSG }
  }

  function Encode(o: Opt): seq<byte>
    requires 0 <= o.code
  {
    PutBE16(o.code) + PutBE16(|o.data|) + o.data
  }

  predicate AllFit(opts: seq<Opt>) {
    forall k :: 0 <= k < |opts| ==> opts[k].Fits()
  }

  function Serialize(opts: seq<Opt>): seq<byte>
    requires AllFit(opts)
  {
    if opts == [] then [] else Encode(opts[0]) + Serialize(opts[1..])
  }

  /** Too short for an option header, or for the length its header announces. */
  predicate Truncated(d: seq<byte>) {
    |d| < 4 || GetBE16(d[2..4]) > |d| - 4
  }

  /** The well-formed options at the start of a byte string. */
  function OptionsOf(d: seq<byte>): (opts: seq<Opt>)
    ensures AllFit(opts)
    decreases |d|
  {
    if Truncated(d) then []
    else
      var n := GetBE16(d[2..4]);
      [Opt(GetBE16(d[..2]), d[4..4 + n])] + OptionsOf(d[4 + n..])
  }

  function TailOf(d: seq<byte>): (t: seq<byte>)
    ensures Truncated(t)
    decreases |d|
  {
    if Truncated(d) then d else TailOf(d[4 + GetBE16(d[2..4])..])
  }

  lemma EncodeShape(o: Opt, rest: seq<byte>)
    requires o.Fits()
    ensures
      var d := Encode(o) + rest;
      && |d| == 4 + |o.data| + |rest| && GetBE16(d[..2]) == o.code && GetBE16(d[2..4]) == |o.data|
      && d[4..4 + |o.data|] == o.data && d[4 + |o.data|..] == rest
  {
    var d := Encode(o) + rest;
    assert d[..2] == PutBE16(o.code);
    assert d[2..4] == PutBE16(|o.data|);
  }

  lemma PutGetBE16(s: seq<byte>)
    requires |s| == 2
    ensures PutBE16(GetBE16(s)) == s
  {
    assert (s[0] as int * 256 + s[1] as int) / 256 == s[0] as int;
  }

  lemma SerializeOneMore(o: Opt, opts: seq<Opt>, tail: seq<byte>)
    requires o.Fits() && AllFit(opts) && AllFit([o] + opts)
    ensures Serialize([o] + opts) + tail == Encode(o) + (Serialize(opts) + tail)
  {
    hide Encode;
    assert ([o] + opts)[1..] == opts;
  }

  lemma FirstOption(d: seq<byte>)
    requires !Truncated(d)
    ensures
      var n := GetBE16(d[2..4]);
      Encode(Opt(GetBE16(d[..2]), d[4..4 + n])) + d[4 + n..] == d
  {
    PutGetBE16(d[..2]);
    PutGetBE16(d[2..4]);
    hide PutBE16, GetBE16;
    assert d[..2] + d[2..4] == d[..4];
  }

  /** Every byte string is a list of options followed by a truncated tail ... */
  lemma {:induction false} SerializeOptionsOf(d: seq<byte>)
    ensures Serialize(OptionsOf(d)) + TailOf(d) == d
    decreases |d|
  {
    if !Truncated(d) {
      var rest := d[4 + GetBE16(d[2..4])..];
      var o := Opt(GetBE16(d[..2]), d[4..4 + GetBE16(d[2..4])]);
      SerializeOptionsOf(rest);
      FirstOption(d);
      assert OptionsOf(d) == [o] + OptionsOf(rest) && TailOf(d) == TailOf(rest);
      hide Encode, GetBE16, Truncated, Serialize, OptionsOf, TailOf;
      SerializeOneMore(o, OptionsOf(rest), TailOf(rest));
    }
  }

  /** ... in exactly one way. */
  lemma {:induction false} OptionsOfSerialize(opts: seq<Opt>, tail: seq<byte>)
    requires AllFit(opts) && Truncated(tail)
    ensures OptionsOf(Serialize(opts) + tail) == opts && TailOf(Serialize(opts) + tail) == tail
  {
    if opts == [] {
      assert Serialize(opts) + tail == tail;
    } else {
      var rest := Serialize(opts[1..]) + tail;
      assert Serialize(opts) + tail == Encode(opts[0]) + rest;
      EncodeShape(opts[0], rest);
      OptionsOfSerialize(opts[1..], tail);
    }
  }

  // ---------- scanning a Relay-reply ----------

  datatype Scan = Scan(ifindex: Option<int>, payload: Option<seq<byte>>)
  const NOTHING: Scan := Scan(None, None)

  /** One option of the scan: a later one overrides, a misfit Interface-Id is passed over. */
  function Note(acc: Scan, o: Opt): Scan {
    if o.IsInterfaceId() then acc.(ifindex := Some(GetLE32Signed(o.data)))
    else if o.IsRelayMsg() then acc.(payload := Some(o.data))
    else acc
  }

  function NoteAll(acc: Scan, opts: seq<Opt>): Scan
    decreases |opts|
  {
    if opts == [] then acc else NoteAll(Note(acc, opts[0]), opts[1..])
  }

  /** The scanning loop of relayServerResponse over everything behind the fixed header. */
  method ScanReply(data: seq<byte>) returns (r: Scan)
    requires |data| >= HEADER
    ensures r == NoteAll(NOTHING, OptionsOf(data[HEADER..]))
  {
    hide NoteAll, OptionsOf;
    r := NOTHING;
    var off := HEADER;
    while off + 4 <= |data|
      invariant HEADER <= off <= |data|
      invariant NoteAll(NOTHING, OptionsOf(data[HEADER..])) == NoteAll(r, OptionsOf(data[off..]))
    {
      ScanStep(r, data, off);
      var otype := GetBE16(data[off..off + 2]);
      var olen := GetBE16(data[off + 2..off + 4]);
      var odata := data[off + 4..];
      if olen > |odata| {
        break;
      }
      odata := odata[..olen];
      assert odata == data[off + 4..off + 4 + olen];
      if otype == OPT_INTERFACE_ID {
        if olen == 4 {
          r := r.(ifindex := Some(GetLE32Signed(odata)));
        }
      } else if otype == OPT_RELAY_MSG {
        r := r.(payload := Some(odata));
      }
      off := off + 4 + olen;
    }
    if off + 4 > |data| { NothingToScan(r, data[off..]); }
  }

  /** One turn of the loop: the option at `off` is noted if all of it is there, and the scan ends if not. */
  lemma ScanStep(r: Scan, data: seq<byte>, off: nat)
    requires off + 4 <= |data|
    ensures
      var olen := GetBE16(data[off + 2..off + 4]);
      if off + 4 + olen > |data| then NoteAll(r, OptionsOf(data[off..])) == r
      else NoteAll(r, OptionsOf(data[off..]))
           == NoteAll(Note(r, Opt(GetBE16(data[off..off + 2]), data[off + 4..off + 4 + olen])), OptionsOf(data[off + 4 + olen..]))
  {
    var d := data[off..];
    var olen := GetBE16(data[off + 2..off + 4]);
    assert d[..2] == data[off..off + 2] && d[2..4] == data[off + 2..off + 4];
    hide Note;
    if off + 4 + olen <= |data| {
      assert d[4..4 + olen] == data[off + 4..off + 4 + olen] && d[4 + olen..] == data[off + 4 + olen..];
      NoteCons(r, Opt(GetBE16(d[..2]), d[4..4 + olen]), OptionsOf(d[4 + olen..]));
    }
  }

  lemma NoteCons(r: Scan, o: Opt, opts: seq<Opt>)
    ensures NoteAll(r, [o] + opts) == NoteAll(Note(r, o), opts)
  {
    assert ([o] + opts)[1..] == opts;
  }

  lemma NothingToScan(r: Scan, d: seq<byte>)
    requires |d| < 4
    ensures NoteAll(r, OptionsOf(d)) == r
  {
  }

  /** The last option satisfying `p`. */
  ghost predicate LastWhere(opts: seq<Opt>, p: Opt -> bool, k: int) {
    0 <= k < |opts| && p(opts[k]) && forall j :: k < j < |opts| ==> !p(opts[j])
  }

  /** The scan reports the last four-byte Interface-Id and the last Relay Message, whatever else there is. */
  lemma {:induction false} ScanReportsLast(acc: Scan, opts: seq<Opt>)
    ensures
      var r := NoteAll(acc, opts);
      && (forall k :: LastWhere(opts, (o: Opt) => o.IsInterfaceId(), k) ==> r.ifindex == Some(GetLE32Signed(opts[k].data)))
      && (forall k :: LastWhere(opts, (o: Opt) => o.IsRelayMsg(), k) ==> r.payload == Some(opts[k].data))
      && ((forall o :: o in opts ==> !o.IsInterfaceId()) ==> r.ifindex == acc.ifindex)
      && ((forall o :: o in opts ==> !o.IsRelayMsg()) ==> r.payload == acc.payload)
    decreases |opts|
  {
    if opts != [] {
      var rest := opts[1..];
      ScanReportsLast(Note(acc, opts[0]), rest);
      assert forall j :: 0 < j < |opts| ==> opts[j] == rest[j - 1];
      assert forall o :: o in rest ==> o in opts;
      var r := NoteAll(acc, opts);
      forall k | LastWhere(opts, (o: Opt) => o.IsInterfaceId(), k)
        ensures r.ifindex == Some(GetLE32Signed(opts[k].data))
      {
        if k > 0 {
          assert forall j :: k - 1 < j < |rest| ==> rest[j] == opts[j + 1];
          assert LastWhere(rest, (o: Opt) => o.IsInterfaceId(), k - 1);
        } else {
          assert forall o :: o in rest ==> !o.IsInterfaceId();
        }
      }
      forall k | LastWhere(opts, (o: Opt) => o.IsRelayMsg(), k)
        ensures r.payload == Some(opts[k].data)
      {
        if k > 0 {
          assert forall j :: k - 1 < j < |rest| ==> rest[j] == opts[j + 1];
          assert LastWhere(rest, (o: Opt) => o.IsRelayMsg(), k - 1);
        } else {
          assert forall o :: o in rest ==> !o.IsRelayMsg();
        }
      }
    }
  }

  /** With at most one distinct Interface-Id and Relay Message, the order of options does not matter. */
  lemma OrderIrrelevant(opts: seq<Opt>, opts2: seq<Opt>)
    requires forall o :: o in opts <==> o in opts2
    requires forall o, u :: o in opts && u in opts && o.IsInterfaceId() && u.IsInterfaceId() ==> o == u
    requires forall o, u :: o in opts && u in opts && o.IsRelayMsg() && u.IsRelayMsg() ==> o == u
    ensures NoteAll(NOTHING, opts) == NoteAll(NOTHING, opts2)
  {
    ScanReportsLast(NOTHING, opts);
    ScanReportsLast(NOTHING, opts2);
    if o :| o in opts && o.IsInterfaceId() {
      var j := LastIndex(opts, (o: Opt) => o.IsInterfaceId(), o);
      var k := LastIndex(opts2, (o: Opt) => o.IsInterfaceId(), o);
      assert opts[j] == opts2[k] by { assert opts2[k] in opts2; }
    }
    if o :| o in opts && o.IsRelayMsg() {
      var j := LastIndex(opts, (o: Opt) => o.IsRelayMsg(), o);
      var k := LastIndex(opts2, (o: Opt) => o.IsRelayMsg(), o);
      assert opts[j] == opts2[k] by { assert opts2[k] in opts2; }
    }
  }

  lemma {:induction false} LastIndex(opts: seq<Opt>, p: Opt -> bool, o: Opt) returns (k: int)
    requires o in opts && p(o)
    ensures LastWhere(opts, p, k)
  {
    k := |opts| - 1;
    while !p(opts[k])
      invariant 0 <= k < |opts|
      invariant forall j :: k < j < |opts| ==> !p(opts[j])
      invariant exists j :: 0 <= j <= k && p(opts[j])
      decreases k
    {
      k := k - 1;
    }
  }

  // ---------- unwrapping ----------

  /** What relayServerResponse sends, before the interface is looked up. */
  datatype Reply = Reply(ifindex: int, payload: seq<byte>, port: int, dest: Bytes16)

  function PortFor(payload: seq<byte>): int
    requires |payload| > 0
  {
    if payload[0] == RELAY_REPL then SERVER_PORT else CLIENT_PORT
  }

  /** `destAt` is the offset of the sixteen bytes taken as destination. */
  function UnwrapAt(data: seq<byte>, destAt: int): Option<Reply>
    requires 0 <= destAt <= HEADER - 16
  {
    if |data| < HEADER || data[0] != RELAY_REPL then None
    else
      var r := NoteAll(NOTHING, OptionsOf(data[HEADER..]));
      if r.ifindex.None? || r.payload.None? || |r.payload.value| < 4 then None
      else Some(Reply(r.ifindex.value, r.payload.value, PortFor(r.payload.value), data[destAt..destAt + 16]))
  }

  /** relayServerResponse as written: the destination is read from the link-address field. */
  function Unwrap(data: seq<byte>): Option<Reply> {
    UnwrapAt(data, 2)
  }

  /** The variant that reads the peer-address field. */
  function UnwrapToPeer(data: seq<byte>): Option<Reply> {
    UnwrapAt(data, 18)
  }

  method RelayServerResponse(data: seq<byte>) returns (r: Option<Reply>)
    ensures r == Unwrap(data)
  {
    if |data| < HEADER || data[0] != RELAY_REPL {
      return None;
    }
    var scan := ScanReply(data);
    if scan.ifindex.None? || scan.payload.None? || |scan.payload.value| < 4 {
      return None;
    }
    var payload := scan.payload.value;
    var targetPort := CLIENT_PORT;
    if payload[0] == RELAY_REPL {
      targetPort := SERVER_PORT;
    }
    return Some(Reply(scan.ifindex.value, payload, targetPort, data[2..18]));
  }

  /**
   * A Relay-reply, byte by byte: with type 13, an option 18 of four bytes and an option 9, it is answered by the
   * message of option 9, on the interface the four bytes number, to port 547 if that message is a Relay-reply again
   * and to port 546 otherwise. Nothing shorter than 34 bytes, and no other type, is answered.
   */
  lemma UnwrapBytes(hops: byte, link: Bytes16, peer: Bytes16, id: Bytes4, inner: seq<byte>)
    requires 4 <= |inner| < 0x1_0000
    ensures
      var reply := [13, hops] + link + peer + [0, 18, 0, 4] + id
                   + [0, 9, (|inner| / 256) as byte, (|inner| % 256) as byte] + inner;
      var number := id[0] as int + 0x100 * id[1] as int + 0x1_0000 * id[2] as int + 0x100_0000 * id[3] as int;
      var ifindex := if number < 0x8000_0000 then number else number - 0x1_0000_0000;
      Unwrap(reply) == Some(Reply(ifindex, inner, if inner[0] == 13 then 547 else 546, link))
    ensures forall d: seq<byte> :: |d| < 34 || d[0] != 13 ==> Unwrap(d) == None
  {
    var first, last := Opt(18, id), Opt(9, inner);
    var reply := [13, hops] + link + peer + [0, 18, 0, 4] + id
                 + [0, 9, (|inner| / 256) as byte, (|inner| % 256) as byte] + inner;
    EncodedId(id);
    EncodedMessage(inner);
    TwoOptions(first, last);
    assert reply[34..] == Encode(first) + Encode(last);
    assert reply[2..18] == link && reply[0] == 13 && |reply| >= 34;
    hide OptionsOf, NoteAll, Encode;
    NoteTwo(first, last);
  }

  lemma EncodedId(id: Bytes4)
    ensures Encode(Opt(18, id)) == [0, 18, 0, 4] + id
  {
  }

  lemma EncodedMessage(inner: seq<byte>)
    requires |inner| < 0x1_0000
    ensures Encode(Opt(9, inner)) == [0, 9, (|inner| / 256) as byte, (|inner| % 256) as byte] + inner
  {
  }

  lemma TwoOptions(first: Opt, last: Opt)
    requires first.Fits() && last.Fits()
    ensures OptionsOf(Encode(first) + Encode(last)) == [first, last]
  {
    hide Encode, OptionsOf;
    assert AllFit([first, last]) && [first, last][1..] == [last] && [last][1..] == [];
    assert Serialize([last]) == Encode(last) + [] == Encode(last);
    assert Serialize([first, last]) == Encode(first) + Encode(last);
    OptionsOfSerialize([first, last], []);
    assert Serialize([first, last]) + [] == Serialize([first, last]);
  }

  lemma NoteTwo(first: Opt, last: Opt)
    ensures NoteAll(NOTHING, [first, last]) == Note(Note(NOTHING, first), last)
  {
    assert [first, last][1..] == [last];
    assert NoteAll(Note(NOTHING, first), [last]) == NoteAll(Note(Note(NOTHING, first), last), []) by {
      assert [last][1..] == [];
    }
  }

  // ---------- wrapping ----------

  /** Messages that only servers send. Any other type, known or not, is relayed. */
  predicate FromServer(msgType: byte) {
    msgType == 2 || msgType == 7 || msgType == 10 || msgType == RELAY_REPL
  }

  /** The hop count an envelope around this message gets. */
  function Hops(data: seq<byte>): int
    requires |data| >= 2
  {
    if data[0] == RELAY_FORW then data[1] as int + 1 else 0
  }

  predicate Relayable(data: seq<byte>) {
    |data| >= 2 && !FromServer(data[0]) && Hops(data) <= HOP_LIMIT as int
  }

  /** The Relay-forward message: header, Interface-Id option, Relay Message option. */
  function Envelope(hops: byte, link: Bytes16, peer: Bytes16, ifindex: int, data: seq<byte>): seq<byte> {
    [RELAY_FORW, hops] + link + peer
    + Encode(Opt(OPT_INTERFACE_ID, PutLE32(ifindex))) + Encode(Opt(OPT_RELAY_MSG, data))
  }

  function Wrap(source: Bytes16, data: seq<byte>, link: Bytes16, ifindex: int): Option<seq<byte>> {
    if Relayable(data) then Some(Envelope(Hops(data) as byte, link, source, ifindex, data)) else None
  }

  /**
   * The wrapped message, byte by byte: type 12 and the hop count, link and peer address, option 18 with the index
   * in four bytes, the lowest first, and option 9 with the message. What is not wrapped is too short, of a server,
   * or has come over 32 relays.
   */
  lemma WrapBytes(source: Bytes16, data: seq<byte>, link: Bytes16, ifindex: nat)
    requires ifindex < 0x8000_0000
    ensures Wrap(source, data, link, ifindex).Some? <==>
              |data| >= 2 && data[0] !in {2, 7, 10, 13} && (data[0] == 12 ==> data[1] < 32)
    ensures Wrap(source, data, link, ifindex).Some? && |data| < 0x1_0000 ==>
      Wrap(source, data, link, ifindex).value
      == [12, if data[0] == 12 then data[1] + 1 else 0] + link + source
         + [0, 18, 0, 4, (ifindex % 256) as byte, (ifindex / 256 % 256) as byte,
            (ifindex / 0x1_0000 % 256) as byte, (ifindex / 0x100_0000) as byte]
         + [0, 9, (|data| / 256) as byte, (|data| % 256) as byte] + data
  {
    if Relayable(data) && |data| < 0x1_0000 {
      assert ifindex % U32 == ifindex;
      var id: seq<byte> := PutLE32(ifindex);
      assert Encode(Opt(OPT_INTERFACE_ID, id)) == [0, 18, 0, 4] + id;
      assert Encode(Opt(OPT_RELAY_MSG, data)) == [0, 9, (|data| / 256) as byte, (|data| % 256) as byte] + data;
    }
  }

  /**
   * There and back, in numbers: a server that answers the wrapped message with type 13, the header and the four
   * bytes of option 18 copied and `inner` in option 9, is heard on the interface the message came from, and `inner`
   * goes on to port 547 if it is of type 13 again and to port 546 otherwise.
   */
  lemma RelayRoundTrip(source: Bytes16, data: seq<byte>, link: Bytes16, ifindex: nat, inner: seq<byte>)
    requires |data| >= 2 && data[0] !in {2, 7, 10, 13} && (data[0] == 12 ==> data[1] < 32) && |data| < 0x1_0000
    requires 0 < ifindex < 0x8000_0000 && 4 <= |inner| < 0x1_0000
    ensures
      var r := Wrap(source, data, link, ifindex);
      && r.Some? && |r.value| == |data| + 46 && r.value[34..38] == [0, 18, 0, 4]
      && var reply := [13, r.value[1]] + r.value[2..18] + r.value[18..34] + [0, 18, 0, 4] + r.value[38..42]
                      + [0, 9, (|inner| / 256) as byte, (|inner| % 256) as byte] + inner;
         Unwrap(reply) == Some(Reply(ifindex, inner, if inner[0] == 13 then 547 else 546, link))
  {
    WrapSlices(source, data, link, ifindex);
    hide Wrap, Unwrap, IdBytes;
    UnwrapId(Wrap(source, data, link, ifindex).value[1], link, source, ifindex, inner);
  }

  /** An index in four bytes, the lowest first. */
  function IdBytes(ifindex: nat): Bytes4
    requires ifindex < 0x8000_0000
  {
    [(ifindex % 256) as byte, (ifindex / 256 % 256) as byte,
     (ifindex / 0x1_0000 % 256) as byte, (ifindex / 0x100_0000) as byte]
  }

  lemma WrapSlices(source: Bytes16, data: seq<byte>, link: Bytes16, ifindex: nat)
    requires |data| >= 2 && data[0] !in {2, 7, 10, 13} && (data[0] == 12 ==> data[1] < 32) && |data| < 0x1_0000
    requires ifindex < 0x8000_0000
    ensures
      var r := Wrap(source, data, link, ifindex);
      && r.Some? && |r.value| == |data| + 46 && r.value[2..18] == link && r.value[18..34] == source
      && r.value[34..38] == [0, 18, 0, 4] && r.value[38..42] == IdBytes(ifindex)
  {
    WrapBytes(source, data, link, ifindex);
    var d := Wrap(source, data, link, ifindex).value;
    var id: Bytes4 := IdBytes(ifindex);
    var rest := [0, 9, (|data| / 256) as byte, (|data| % 256) as byte] + data;
    hide Wrap;
    assert d == [d[0], d[1]] + link + source + ([0, 18, 0, 4] + id) + rest;
    EnvelopeSlices(d, link, source, id, rest);
  }

  lemma UnwrapId(hops: byte, link: Bytes16, peer: Bytes16, ifindex: nat, inner: seq<byte>)
    requires ifindex < 0x8000_0000 && 4 <= |inner| < 0x1_0000
    ensures
      var reply := [13, hops] + link + peer + [0, 18, 0, 4] + IdBytes(ifindex)
                   + [0, 9, (|inner| / 256) as byte, (|inner| % 256) as byte] + inner;
      Unwrap(reply) == Some(Reply(ifindex, inner, if inner[0] == 13 then 547 else 546, link))
  {
    hide Unwrap;
    IndexBytes(ifindex);
    UnwrapBytes(hops, link, peer, IdBytes(ifindex), inner);
  }

  lemma EnvelopeSlices(d: seq<byte>, link: Bytes16, source: Bytes16, id: Bytes4, rest: seq<byte>)
    requires |d| >= 2 && d == [d[0], d[1]] + link + source + ([0, 18, 0, 4] + id) + rest
    ensures |d| == 42 + |rest| && d[2..18] == link && d[18..34] == source && d[34..38] == [0, 18, 0, 4] && d[38..42] == id
  {
  }

  /** The four bytes of an index denote it. */
  lemma IndexBytes(ifindex: nat)
    requires ifindex < 0x8000_0000
    ensures ifindex / 0x100_0000 < 256
    ensures ifindex % 256 + 0x100 * (ifindex / 256 % 256) + 0x1_0000 * (ifindex / 0x1_0000 % 256)
            + 0x100_0000 * (ifindex / 0x100_0000) == ifindex
  {
    Digits(ifindex);
  }

  /** relayClientRequest up to sending: the envelope is appended field by field. */
  method RelayClientRequest(source: Bytes16, data: seq<byte>, link: Bytes16, ifindex: int)
    returns (r: Option<seq<byte>>)
    ensures r == Wrap(source, data, link, ifindex)
  {
    if |data| < 2 {
      return None;
    }
    var msgType := data[0];
    if FromServer(msgType) {
      return None;
    }
    var hopCount: byte := 0;
    if msgType == RELAY_FORW {
      if data[1] >= HOP_LIMIT {
        return None;
      }
      hopCount := data[1] + 1;
    }
    var envelope := [RELAY_FORW, hopCount];
    envelope := envelope + link;
    envelope := envelope + source;
    var ifaceIdHdr := PutBE16(OPT_INTERFACE_ID) + PutBE16(4) + PutLE32(ifindex);
    envelope := envelope + ifaceIdHdr;
    var relayHdr := PutBE16(OPT_RELAY_MSG) + PutBE16(|data|);
    envelope := envelope + relayHdr;
    envelope := envelope + data;
    assert envelope == Envelope(hopCount, link, source, ifindex, data);
    return Some(envelope);
  }

  function OptionsWrapped(ifindex: int, data: seq<byte>): seq<Opt> {
    [Opt(OPT_INTERFACE_ID, PutLE32(ifindex)), Opt(OPT_RELAY_MSG, data)]
  }

  lemma EnvelopeShape(hops: byte, link: Bytes16, peer: Bytes16, ifindex: int, data: seq<byte>)
    ensures
      var d := Envelope(hops, link, peer, ifindex, data);
      && |d| == |data| + 46 && d[0] == RELAY_FORW && d[1] == hops && d[2..18] == link && d[18..34] == peer
      && d[HEADER..] == Encode(Opt(OPT_INTERFACE_ID, PutLE32(ifindex))) + Encode(Opt(OPT_RELAY_MSG, data))
  {
  }

  /** What was wrapped parses back exactly when its length fits 16 bits; everything that is received does. */
  lemma EnvelopeParsesIff(hops: byte, link: Bytes16, peer: Bytes16, ifindex: int, data: seq<byte>)
    ensures OptionsOf(Envelope(hops, link, peer, ifindex, data)[HEADER..]) == OptionsWrapped(ifindex, data)
            <==> |data| < U16
    ensures |data| <= READ_BUFFER ==> |data| < U16
  {
    EnvelopeShape(hops, link, peer, ifindex, data);
    var first := Opt(OPT_INTERFACE_ID, PutLE32(ifindex));
    var last := Opt(OPT_RELAY_MSG, data);
    var d := Envelope(hops, link, peer, ifindex, data)[HEADER..];
    if |data| < U16 {
      assert Serialize([last]) == Encode(last);
      assert Serialize([first, last]) + [] == d by { assert [first, last][1..] == [last]; }
      OptionsOfSerialize([first, last], []);
    } else {
      assert AllFit(OptionsOf(d));
      assert !OptionsWrapped(ifindex, data)[1].Fits();
    }
  }

  // ---------- chains of relays ----------

  /** One relay agent on the way: the link address and interface it records, and the address it hears. */
  datatype Level = Level(link: Bytes16, source: Bytes16, ifindex: int)

  /** The message after the first `n` relay agents have wrapped it. */
  function WrapChain(levels: seq<Level>, n: nat, msg: seq<byte>): Option<seq<byte>>
    requires n <= |levels|
  {
    if n == 0 then Some(msg)
    else match WrapChain(levels, n - 1, msg)
         case None => None
         case Some(d) => Wrap(levels[n - 1].source, d, levels[n - 1].link, levels[n - 1].ifindex)
  }

  lemma WrapShape(source: Bytes16, data: seq<byte>, link: Bytes16, ifindex: int)
    ensures
      var r := Wrap(source, data, link, ifindex);
      && (r.Some? <==> Relayable(data))
      && (r.Some? ==> |r.value| == |data| + 46 && r.value[0] == RELAY_FORW && r.value[1] as int == Hops(data))
  {
    if Relayable(data) { EnvelopeShape(Hops(data) as byte, link, source, ifindex, data); }
    hide Envelope;
  }

  /**
   * A chain goes through exactly up to the hop limit, if the message may enter it at all: server messages, and
   * those too short to have a type and a hop count, may not. Every level adds 46 bytes and one hop.
   */
  lemma {:induction false} ChainShape(levels: seq<Level>, n: nat, msg: seq<byte>)
    requires n <= |levels|
    ensures
      var r := WrapChain(levels, n, msg);
      var hops := if |msg| >= 2 && msg[0] == 12 then msg[1] as int + 1 else 0;
      && (r.Some? <==> n == 0 || (|msg| >= 2 && msg[0] !in {2, 7, 10, 13} && hops + n - 1 <= 32))
      && (r.Some? ==> |r.value| == |msg| + 46 * n)
      && (r.Some? && n > 0 ==> r.value[0] == 12 && r.value[1] as int == hops + n - 1)
  {
    hide Wrap;
    if n > 0 {
      ChainShape(levels, n - 1, msg);
      if WrapChain(levels, n - 1, msg).Some? {
        WrapShape(levels[n - 1].source, WrapChain(levels, n - 1, msg).value, levels[n - 1].link, levels[n - 1].ifindex);
      }
    }
  }

  /**
   * `reply` is what a server may answer to the Relay-forward `fwd` with `inner` inside: a Relay-reply with
   * the same hop count and addresses, the Interface-Id copied, `inner` as Relay Message, and any other
   * options in any order, possibly followed by a truncated tail.
   */
  ghost predicate Answers(fwd: seq<byte>, inner: seq<byte>, reply: seq<byte>) {
    && HEADER <= |reply| && HEADER <= |fwd| && reply[0] == RELAY_REPL && reply[1..HEADER] == fwd[1..HEADER]
    && var opts := OptionsOf(reply[HEADER..]);
       && (forall o :: o in opts && o.IsInterfaceId() ==> o in OptionsOf(fwd[HEADER..]))
       && (exists o :: o in opts && o.IsInterfaceId())
       && (forall o :: o in opts && o.IsRelayMsg() ==> o.data == inner)
       && (exists o :: o in opts && o.IsRelayMsg())
  }

  lemma AnswerScans(ifindex: int, data: seq<byte>, inner: seq<byte>, opts: seq<Opt>)
    requires 0 < ifindex < 0x8000_0000
    requires forall o :: o in opts && o.IsInterfaceId() ==> o in OptionsWrapped(ifindex, data)
    requires exists o :: o in opts && o.IsInterfaceId()
    requires forall o :: o in opts && o.IsRelayMsg() ==> o.data == inner
    requires exists o :: o in opts && o.IsRelayMsg()
    ensures NoteAll(NOTHING, opts) == Scan(Some(ifindex), Some(inner))
  {
    hide PutLE32, GetLE32Signed;
    LE32RoundTrip(ifindex);
    ScanReportsLast(NOTHING, opts);
    var o :| o in opts && o.IsInterfaceId();
    var j := LastIndex(opts, (u: Opt) => u.IsInterfaceId(), o);
    assert opts[j] in opts && opts[j] == Opt(OPT_INTERFACE_ID, PutLE32(ifindex));
    var m :| m in opts && m.IsRelayMsg();
    var k := LastIndex(opts, (u: Opt) => u.IsRelayMsg(), m);
    assert opts[k] in opts && opts[k].data == inner;
  }

  /** One level: whatever else the server put into the reply, the recorded interface and the inner bytes come out. */
  lemma UnwrapAnswer(source: Bytes16, data: seq<byte>, link: Bytes16, ifindex: int, inner: seq<byte>, reply: seq<byte>)
    requires Relayable(data) && |data| < U16 && |inner| >= 4 && 0 < ifindex < 0x8000_0000
    requires Answers(Wrap(source, data, link, ifindex).value, inner, reply)
    ensures Unwrap(reply) == Some(Reply(ifindex, inner, PortFor(inner), link))
    ensures UnwrapToPeer(reply) == Some(Reply(ifindex, inner, PortFor(inner), source))
  {
    hide PutLE32, GetLE32Signed, NoteAll, OptionsOf;
    var hops := Hops(data) as byte;
    var fwd := Envelope(hops, link, source, ifindex, data);
    EnvelopeShape(hops, link, source, ifindex, data);
    EnvelopeParsesIff(hops, link, source, ifindex, data);
    hide Envelope;
    AnswerScans(ifindex, data, inner, OptionsOf(reply[HEADER..]));
    assert reply[2..18] == reply[1..HEADER][1..17] == fwd[1..HEADER][1..17] == fwd[2..18];
    assert reply[18..34] == reply[1..HEADER][17..33] == fwd[1..HEADER][17..33] == fwd[18..34];
  }

  /** The reply to the message after `j + 1` wraps carries the reply of the level below. */
  ghost predicate LevelAnswered(levels: seq<Level>, msg: seq<byte>, replies: seq<seq<byte>>, j: int)
    requires 0 <= j < |levels| && |replies| == |levels| + 1
  {
    WrapChain(levels, j + 1, msg).Some? && Answers(WrapChain(levels, j + 1, msg).value, replies[j], replies[j + 1])
  }

  /** The answers to a nest, innermost first. */
  ghost predicate AnswerChain(levels: seq<Level>, msg: seq<byte>, replies: seq<seq<byte>>) {
    |replies| == |levels| + 1 && forall j :: 0 <= j < |levels| ==> LevelAnswered(levels, msg, replies, j)
  }

  lemma ChainLink(levels: seq<Level>, j: nat, msg: seq<byte>)
    requires j < |levels| && WrapChain(levels, j + 1, msg).Some?
    ensures
      var d := WrapChain(levels, j, msg);
      d.Some? && Relayable(d.value)
      && WrapChain(levels, j + 1, msg) == Wrap(levels[j].source, d.value, levels[j].link, levels[j].ifindex)
  {
  }

  /** One level of the nest, the message of that level fitting its length field. */
  lemma FittingRoundTrip(levels: seq<Level>, msg: seq<byte>, replies: seq<seq<byte>>, j: nat)
    requires Relayable(msg) && AnswerChain(levels, msg, replies) && j < |levels|
    requires |msg| + 46 * j < U16 && |replies[0]| >= 4 && 0 < levels[j].ifindex < 0x8000_0000
    ensures |replies[j]| >= 4
    ensures Unwrap(replies[j + 1]) == Some(Reply(levels[j].ifindex, replies[j], PortFor(replies[j]), levels[j].link))
    ensures UnwrapToPeer(replies[j + 1]) == Some(Reply(levels[j].ifindex, replies[j], PortFor(replies[j]), levels[j].source))
    ensures j > 0 ==> PortFor(replies[j]) == SERVER_PORT
    ensures j == 0 && replies[0][0] != RELAY_REPL ==> PortFor(replies[j]) == CLIENT_PORT
  {
    hide Wrap, Unwrap, UnwrapToPeer;
    ChainShape(levels, j, msg);
    assert LevelAnswered(levels, msg, replies, j);
    if j > 0 { assert LevelAnswered(levels, msg, replies, j - 1); }
    var d := WrapChain(levels, j, msg).value;
    ChainLink(levels, j, msg);
    UnwrapAnswer(levels[j].source, d, levels[j].link, levels[j].ifindex, replies[j], replies[j + 1]);
  }

  /**
   * The nested round trip, for every message that a relay can receive: unwrapping the answers to a chain of wraps
   * level by level selects, at each level, the interface recorded there, yields exactly the next inner message,
   * and uses the server port for inner Relay-replies. The destination is the link address of the level, as the
   * code reads it. The hop limit keeps every level's message within its 16-bit length field.
   */
  lemma NestedRoundTrip(levels: seq<Level>, msg: seq<byte>, replies: seq<seq<byte>>, j: nat)
    requires Relayable(msg) && |msg| <= READ_BUFFER && AnswerChain(levels, msg, replies) && j < |levels|
    requires |replies[0]| >= 4 && 0 < levels[j].ifindex < 0x8000_0000
    ensures |replies[j]| >= 4
    ensures Unwrap(replies[j + 1]) == Some(Reply(levels[j].ifindex, replies[j], PortFor(replies[j]), levels[j].link))
    ensures UnwrapToPeer(replies[j + 1]) == Some(Reply(levels[j].ifindex, replies[j], PortFor(replies[j]), levels[j].source))
    ensures j > 0 ==> PortFor(replies[j]) == SERVER_PORT
    ensures j == 0 && replies[0][0] != RELAY_REPL ==> PortFor(replies[j]) == CLIENT_PORT
  {
    hide Wrap, Unwrap, UnwrapToPeer, Answers, WrapChain;
    assert LevelAnswered(levels, msg, replies, j);
    ChainShape(levels, j + 1, msg);
    FittingRoundTrip(levels, msg, replies, j);
  }

  /**
   * Where a reply goes: the code sends it to the client it came from exactly when the address it recorded
   * for the link is the client's own; reading the peer-address field instead would always do so.
   */
  lemma ReplyReachesClientIff(source: Bytes16, data: seq<byte>, link: Bytes16, ifindex: int,
                              inner: seq<byte>, reply: seq<byte>)
    requires Relayable(data) && |data| < U16 && |inner| >= 4 && 0 < ifindex < 0x8000_0000
    requires Answers(Wrap(source, data, link, ifindex).value, inner, reply)
    ensures Unwrap(reply).Some? && (Unwrap(reply).value.dest == source <==> link == source)
    ensures UnwrapToPeer(reply).Some? && UnwrapToPeer(reply).value.dest == source
  {
    hide Unwrap, UnwrapToPeer, Answers;
    UnwrapAnswer(source, data, link, ifindex, inner, reply);
  }

  /** A reply that misses its client: Solicit from fe80::1 on interface 2, link address 2001:db8::1. */
  lemma ReplyMissesClient()
    ensures
      var client: Bytes16 := [0xfe, 0x80, 0, 0, 0, 0, 0, 0, 0, 0, 0, 0, 0, 0, 0, 1];
      var link: Bytes16 := [0x20, 1, 0x0d, 0xb8, 0, 0, 0, 0, 0, 0, 0, 0, 0, 0, 0, 1];
      var fwd := Wrap(client, [1, 0, 0, 1], link, 2).value;
      var reply := [RELAY_REPL] + fwd[1..HEADER] + Serialize(OptionsWrapped(2, [2, 0, 0, 1]));
      Unwrap(reply).Some? && Unwrap(reply).value.dest != client
  {
    var client: Bytes16 := [0xfe, 0x80, 0, 0, 0, 0, 0, 0, 0, 0, 0, 0, 0, 0, 0, 1];
    var link: Bytes16 := [0x20, 1, 0x0d, 0xb8, 0, 0, 0, 0, 0, 0, 0, 0, 0, 0, 0, 1];
    var opts := OptionsWrapped(2, [2, 0, 0, 1]);
    var fwd := Envelope(0, link, client, 2, [1, 0, 0, 1]);
    var reply := [RELAY_REPL] + fwd[1..HEADER] + Serialize(opts);
    EnvelopeShape(0, link, client, 2, [1, 0, 0, 1]);
    EnvelopeParsesIff(0, link, client, 2, [1, 0, 0, 1]);
    OptionsOfSerialize(opts, []);
    assert reply[HEADER..] == Serialize(opts) + [];
    assert Answers(fwd, [2, 0, 0, 1], reply) by {
      assert opts[0].IsInterfaceId() && opts[1].IsRelayMsg() && opts[0] in opts && opts[1] in opts;
    }
    ReplyReachesClientIff(client, [1, 0, 0, 1], link, 2, [2, 0, 0, 1], reply);
    assert link[0] != client[0];
  }
}

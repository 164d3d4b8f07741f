/** IP addresses as the daemon classifies them, and the addresses cached per interface. */
module Addresses {
  import opened Common

  type Bytes16 = s: seq<byte> | |s| == 16 witness seq(16, _ => 0 as byte)
  type Bytes4 = s: seq<byte> | |s| == 4 witness seq(4, _ => 0 as byte)

  datatype Addr = V6(b6: Bytes16) | V4(b4: Bytes4)
  {
    predicate IsLinkLocalUnicast() {
      match this
      case V6(b) => b[0] == 0xfe && 0x80 <= b[1] < 0xc0
      case V4(b) => b[0] == 169 && b[1] == 254
    }

    predicate IsLoopback() {
      match this
      case V6(b) => b[..15] == seq(15, _ => 0 as byte) && b[15] == 1
      case V4(b) => b[0] == 127
    }

    predicate IsMulticast() {
      match this
      case V6(b) => b[0] == 0xff
      case V4(b) => 0xe0 <= b[0] < 0xf0
    }

    function As16(): Bytes16 {
      match this
      case V6(b) => b
      case V4(b) => seq(10, _ => 0 as byte) + [0xff, 0xff] + b
    }
  }

  /** Sixteen raw bytes as an address, an IPv4-mapped one becoming IPv4. */
  function Unmap(b: Bytes16): Addr {
    if b[..12] == seq(10, _ => 0 as byte) + [0xff as byte, 0xff] then V4(b[12..]) else V6(b)
  }

  /** An address the daemon may mirror as a learned downstream host. */
  predicate Mirrorable(a: Addr) {
    !a.IsLoopback() && !a.IsMulticast() && !a.IsLinkLocalUnicast()
  }

  const MAPPED_PREFIX: seq<byte> := [0, 0, 0, 0, 0, 0, 0, 0, 0, 0, 255, 255]

  /**
   * Sixteen bytes that denote an address of a host: neither loopback (::1, 127/8) nor multicast (ff00::/8, 224/4)
   * nor link-local (fe80::/10, 169.254/16).
   */
  predicate HostBytes(b: Bytes16) {
    if b[..12] == MAPPED_PREFIX
    then b[12] != 127 && !(224 <= b[12] < 240) && !(b[12] == 169 && b[13] == 254)
    else b[0] != 255 && !(b[0] == 254 && 128 <= b[1] < 192)
         && !((forall k :: 0 <= k < 15 ==> b[k] == 0) && b[15] == 1)
  }

  /** The address sixteen bytes denote is theirs, of the kind they show, and mirrorable if they are a host's. */
  lemma UnmapBytes(b: Bytes16)
    ensures Unmap(b).As16() == b && (Unmap(b).V4? <==> b[..12] == MAPPED_PREFIX)
    ensures Mirrorable(Unmap(b)) <==> HostBytes(b)
  {
    assert MAPPED_PREFIX == seq(10, _ => 0 as byte) + [0xff as byte, 0xff];
    if b[..12] == MAPPED_PREFIX {
      assert b == b[..12] + b[12..];
    } else {
      assert b[..15] == seq(15, _ => 0 as byte) <==> forall k :: 0 <= k < 15 ==> b[k] == 0;
    }
  }

  /** Link-local, by its leading bytes: fe80::/10 or 169.254/16. */
  predicate LinkLocalBytes(a: Addr) {
    match a
    case V6(b) => b[0] == 254 && 128 <= b[1] < 192
    case V4(b) => b[0] == 169 && b[1] == 254
  }

  const UNSPECIFIED: Addr := V6([0, 0, 0, 0, 0, 0, 0, 0, 0, 0, 0, 0, 0, 0, 0, 0])

  /** One cached address; a lifetime of 0 stands for "infinite". */
  datatype IPAddr = IPAddr(addr: Addr, preferredLT: nat, validLT: nat, tentative: bool)
}

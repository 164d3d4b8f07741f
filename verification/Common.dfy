/** Small shared vocabulary: optional values, bytes and the integer encodings the wire formats use. */
module Common {

  datatype Option<+T> = None | Some(value: T)

  newtype byte = b: int | 0 <= b < 256

  type Mac = s: seq<byte> | |s| == 6 witness [0, 0, 0, 0, 0, 0]

  const U16: int := 0x1_0000
  const U32: int := 0x1_0000_0000

  /** Big-endian 16-bit value; a larger number is truncated, as a Go uint16 conversion does. */
  function PutBE16(v: nat): (s: seq<byte>)
    ensures |s| == 2
    ensures v < U16 ==> GetBE16(s) == v
  {
    [(v / 256 % 256) as byte, (v % 256) as byte]
  }

  function GetBE16(s: seq<byte>): (v: nat)
    requires |s| == 2
    ensures v < U16
  {
    s[0] as int * 256 + s[1] as int
  }

  /** Little-endian 32-bit value of a Go int, truncated to 32 bits (two's complement). */
  function PutLE32(v: int): (s: seq<byte>)
    ensures |s| == 4
  {
    var u := v % U32;
    [(u % 256) as byte, (u / 0x100 % 256) as byte, (u / 0x1_0000 % 256) as byte, (u / 0x100_0000 % 256) as byte]
  }

  /** The signed 32-bit number a little-endian quadruple denotes. */
  function GetLE32Signed(s: seq<byte>): (v: int)
    requires |s| == 4
    ensures -0x8000_0000 <= v < 0x8000_0000
  {
    var u := s[0] as int + 0x100 * s[1] as int + 0x1_0000 * s[2] as int + 0x100_0000 * s[3] as int;
    if u < 0x8000_0000 then u else u - U32
  }

  lemma LE32RoundTrip(v: int)
    requires -0x8000_0000 <= v < 0x8000_0000
    ensures GetLE32Signed(PutLE32(v)) == v
  {
    var u := v % U32;
    assert u == if v < 0 then v + U32 else v;
    Digits(u);
  }

  /** A 32-bit number is the sum of its four bytes. */
  lemma Digits(u: nat)
    requires u < U32
    ensures u == u % 256 + 0x100 * (u / 0x100 % 256) + 0x1_0000 * (u / 0x1_0000 % 256) + 0x100_0000 * (u / 0x100_0000 % 256)
  {
    assert u / 0x1_0000 == u / 0x100 / 0x100;
    assert u / 0x100_0000 == u / 0x1_0000 / 0x100;
    assert u / 0x100_0000 < 256;
  }

  /** True when no element occurs twice. */
  ghost predicate Distinct<T>(s: seq<T>) {
    forall i, j :: 0 <= i < j < |s| ==> s[i] != s[j]
  }

  ghost function Elements<T>(s: seq<T>): set<T> {
    set x | x in s
  }
}

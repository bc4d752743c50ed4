/** The address arithmetic of Go's net package that the encoders use. */
module Net {
  import opened Types

  predicate IsMapped(ip: seq<byte>) {
    |ip| == 16 && ip[..10] == Zeros(10) && ip[10] == 255 && ip[11] == 255
  }

  /** net.IP.To4. */
  function To4(ip: seq<byte>): (r: Option<seq<byte>>)
    ensures r.Some? ==> |r.value| == 4
  {
    if |ip| == 4 then Some(ip) else if IsMapped(ip) then Some(ip[12..]) else None
  }

  /** net.IP.To16. */
  function To16(ip: seq<byte>): (r: Option<seq<byte>>)
    ensures r.Some? ==> |r.value| == 16
  {
    if |ip| == 4 then Some(Zeros(10) + [255, 255] + ip) else if |ip| == 16 then Some(ip) else None
  }

  /** Section 2.5.5.2 of RFC 4291: an IPv4 address in 16 bytes stands behind ten
      zeros and two bytes of ones, and nothing else is one. */
  lemma {:induction false} MappedExact(ip: seq<byte>)
    requires |ip| == 16
    ensures To4(ip) == if ip[..12] == [0, 0, 0, 0, 0, 0, 0, 0, 0, 0, 255, 255] then Some(ip[12..]) else None
    ensures To4(ip).Some? ==> To16(ip[12..]) == Some(ip)
  {
    var p: seq<byte> := ip[..12];
    assert ip[..10] == p[..10] && ip[10] == p[10] && ip[11] == p[11] && ip == p + ip[12..];
    assert Zeros(10) == [0, 0, 0, 0, 0, 0, 0, 0, 0, 0];
    assert IsMapped(ip) ==> p == Zeros(10) + [255, 255];
  }

  predicate IsValidIP(ip: seq<byte>) { To16(ip).Some? }

  predicate IsIPv6(ip: seq<byte>) { IsValidIP(ip) && To4(ip).None? }

  /** The shortest form of an address: 4 bytes for IPv4 and IPv4-in-IPv6. */
  function Normal(ip: seq<byte>): seq<byte> { To4(ip).GetOr(ip) }

  /** The endpoint as the kernel knows it: shortest address form, no zone. */
  function NormalAddr(a: UDPAddr): UDPAddr { UDPAddr(Normal(a.ip), a.port, "") }

  // ----- masks

  /** The byte with its n highest bits set. */
  function HighBits(n: nat): byte
    requires n <= 8
  {
    [0, 128, 192, 224, 240, 248, 252, 254, 255][n]
  }

  /** net.CIDRMask(ones, 8 * bytes). */
  function CIDRMask(ones: nat, bytes: nat): (m: seq<byte>)
    requires ones <= 8 * bytes
    ensures |m| == bytes
  {
    if bytes == 0 then []
    else if ones >= 8 then [255] + CIDRMask(ones - 8, bytes - 1)
    else [HighBits(ones)] + Zeros(bytes - 1)
  }

  /** How many leading bits of a byte are set, if those are all that are. */
  function LeadingOnes(b: byte): Option<nat> {
    if b == 0 then Some(0) else if b == 128 then Some(1) else if b == 192 then Some(2)
    else if b == 224 then Some(3) else if b == 240 then Some(4) else if b == 248 then Some(5)
    else if b == 252 then Some(6) else if b == 254 then Some(7) else if b == 255 then Some(8)
    else None
  }

  /** simpleMaskLength: None when the mask is not a run of ones. */
  function MaskLength(m: seq<byte>): (r: Option<nat>)
    ensures r.Some? ==> r.value <= 8 * |m|
  {
    if m == [] then Some(0)
    else if m[0] == 255 then
      match MaskLength(m[1..])
      case Some(n) => Some(8 + n)
      case None => None
    else if m[1..] == Zeros(|m| - 1) then LeadingOnes(m[0])
    else None
  }

  /** The first result of net.IPMask.Size: 0 for a mask that is not canonical. */
  function MaskOnes(m: seq<byte>): (ones: nat)
    ensures ones <= 8 * |m|
  {
    MaskLength(m).GetOr(0)
  }

  /** A canonical mask is determined by its length. */
  lemma {:induction false} MaskCanonical(m: seq<byte>)
    requires MaskLength(m).Some?
    ensures CIDRMask(MaskLength(m).value, |m|) == m
  {
    if m != [] {
      if m[0] == 255 {
        MaskCanonical(m[1..]);
        assert m == [255] + m[1..];
      } else {
        assert HighBits(LeadingOnes(m[0]).value) == m[0];
        assert m == [m[0]] + m[1..];
      }
    }
  }

  /** The byte with all but its n highest bits cleared. */
  function KeepHigh(b: byte, n: nat): byte
    requires n < 8
  {
    if n == 0 then 0
    else if n == 1 then b - b % 128
    else if n == 2 then b - b % 64
    else if n == 3 then b - b % 32
    else if n == 4 then b - b % 16
    else if n == 5 then b - b % 8
    else if n == 6 then b - b % 4
    else b - b % 2
  }

  /** The address with everything after its first `ones` bits cleared. */
  function Masked(addr: seq<byte>, ones: nat): (m: seq<byte>)
    ensures |m| == |addr|
  {
    if addr == [] then []
    else if ones >= 8 then [addr[0]] + Masked(addr[1..], ones - 8)
    else [KeepHigh(addr[0], ones)] + Zeros(|addr| - 1)
  }

  /** Bit i of a byte, the highest first. */
  function BitOf(b: byte, i: nat): nat
    requires i < 8
  {
    b / [128, 64, 32, 16, 8, 4, 2, 1][i] % 2
  }

  /** Bit i of an address or mask. */
  function Bit(b: seq<byte>, i: nat): nat
    requires i < 8 * |b|
  {
    BitOf(b[i / 8], i % 8)
  }

  lemma {:induction false} HighBitsExact(n: nat, i: nat)
    requires n < 8 && i < 8
    ensures BitOf(HighBits(n), i) == if i < n then 1 else 0
    ensures BitOf(0, i) == 0 && BitOf(255, i) == 1
  {}

  /** A mask of n ones has exactly its first n bits set. */
  lemma {:induction false} MaskBits(ones: nat, bytes: nat, i: nat)
    requires ones <= 8 * bytes && i < 8 * bytes
    ensures Bit(CIDRMask(ones, bytes), i) == if i < ones then 1 else 0
  {
    hide BitOf, HighBits, Zeros;
    HighBitsExact(if ones < 8 then ones else 0, i % 8);
    if i >= 8 && ones >= 8 {
      MaskBits(ones - 8, bytes - 1, i - 8);
    }
  }

  /** m is the multiple of w next below b. */
  predicate Floored(b: byte, m: byte, w: nat)
    requires w > 0
  {
    m % w == 0 && m <= b && b - m < w
  }

  /** Keeping n bits leaves the multiple of 2^(8 - n) next below. */
  lemma {:induction false} KeepHighExact(b: byte)
    ensures KeepHigh(b, 0) == 0 && Floored(b, KeepHigh(b, 1), 128) && Floored(b, KeepHigh(b, 2), 64)
    ensures Floored(b, KeepHigh(b, 3), 32) && Floored(b, KeepHigh(b, 4), 16) && Floored(b, KeepHigh(b, 5), 8)
    ensures Floored(b, KeepHigh(b, 6), 4) && Floored(b, KeepHigh(b, 7), 2)
  {}

  /** Of the bytes of a masked address, those before the end of the mask stay,
      those behind it are zero, and the one in which it ends keeps its high bits. */
  lemma {:induction false} MaskedExact(addr: seq<byte>, ones: nat, i: nat)
    requires i < |addr|
    ensures Masked(addr, ones)[i] ==
            if 8 * i + 8 <= ones then addr[i] else if ones <= 8 * i then 0 else KeepHigh(addr[i], ones - 8 * i)
  {
    if ones >= 8 && i > 0 {
      MaskedExact(addr[1..], ones - 8, i - 1);
    }
  }

  /** A routing table entry: the masked address, of either family, with the
      number of bits that count. */
  datatype Route = Route(addr: seq<byte>, ones: nat)

  /** The routing table entry an allowed IP denotes. */
  function RouteOf(n: IPNet): Route {
    Route(Masked(Normal(n.ip), MaskOnes(n.mask)), MaskOnes(n.mask))
  }
}

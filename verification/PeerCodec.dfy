/** How a peer is encoded for the kernel (internal/wglinux/configure_linux.go)
    and how a reported peer is decoded (internal/wglinux/parse_linux.go). */
module PeerCodec {
  import opened Types
  import opened Net
  import opened Attributes
  import Text

  const AF_INET := 2
  const AF_INET6 := 10

  const PEER_PUBLIC_KEY := 1
  const PEER_PRESHARED_KEY := 2
  const PEER_FLAGS := 3
  const PEER_ENDPOINT := 4
  const PEER_KEEPALIVE := 5
  const PEER_LAST_HANDSHAKE := 6
  const PEER_RX_BYTES := 7
  const PEER_TX_BYTES := 8
  const PEER_ALLOWEDIPS := 9
  const PEER_PROTOCOL_VERSION := 10
  const PEER_ADVANCED_SECURITY := 11
  const PEER_AWG_FLAGS := 12

  const IP_FAMILY := 1
  const IP_ADDR := 2
  const IP_MASK := 3

  // ----- socket addresses

  /** sockaddrPort: the port with its bytes in network order on this host. */
  function SockaddrPort(e: Endian, port: int): nat {
    GetUint16(Big, PutUint16(e, ToUint16(port)))
  }

  /** In memory the port stands in network order, and converting twice gives it
      back, whatever the host's byte order. */
  lemma {:induction false} SockaddrPortIsInvolution(e: Endian, port: nat)
    requires port < 0x1_0000
    ensures SockaddrPort(e, port) < 0x1_0000
    ensures PutUint16(e, SockaddrPort(e, port)) == PutUint16(Big, port)
    ensures SockaddrPort(e, SockaddrPort(e, port)) == port
  {
    hide PutUint16, GetUint16;
    BytesSwap(e, port);
    BytesSwap(e, SockaddrPort(e, port));
  }

  /** Bytes read in network order and written in the host's order are the bytes
      of the number in network order. */
  lemma {:induction false} BytesSwap(e: Endian, v: nat)
    requires v < 0x1_0000
    ensures |PutUint16(e, v)| == 2
    ensures var w := GetUint16(Big, PutUint16(e, v));
            PutUint16(e, w) == PutUint16(Big, v) && GetUint16(Big, PutUint16(e, w)) == v
  {}

  /** encodeSockaddr: the bytes of a sockaddr_in or sockaddr_in6. */
  function EncodeSockaddr(e: Endian, a: UDPAddr): Option<seq<byte>> {
    if !IsValidIP(a.ip) then None
    else if IsIPv6(a.ip) then
      Some(PutUint16(e, AF_INET6) + PutUint16(e, SockaddrPort(e, a.port)) + Zeros(4) + To16(a.ip).value + Zeros(4))
    else
      Some(PutUint16(e, AF_INET) + PutUint16(e, SockaddrPort(e, a.port)) + To4(a.ip).value + Zeros(8))
  }

  /** parseSockaddr. */
  function DecodeSockaddr(e: Endian, b: seq<byte>): Option<UDPAddr> {
    if |b| == 16 then Some(UDPAddr(b[4..8], SockaddrPort(e, GetUint16(e, b[2..4])), ""))
    else if |b| == 28 then Some(UDPAddr(b[8..24], SockaddrPort(e, GetUint16(e, b[2..4])), ""))
    else None
  }

  lemma {:induction false} SockaddrRoundTrip(e: Endian, a: UDPAddr)
    requires IsValidIP(a.ip) && 0 <= a.port <= 0xffff
    ensures EncodeSockaddr(e, a).Some?
    ensures DecodeSockaddr(e, EncodeSockaddr(e, a).value) == Some(NormalAddr(a))
    ensures EncodeSockaddr(e, a).value[..2] == PutUint16(e, if |Normal(a.ip)| == 4 then 2 else 10)
  {
    hide PutUint16, GetUint16, SockaddrPort;
    SockaddrPortIsInvolution(e, a.port);
    var b := EncodeSockaddr(e, a).value;
    var port := PutUint16(e, SockaddrPort(e, a.port));
    Uint16RoundTrip(e, SockaddrPort(e, a.port));
    assert b[2..4] == port;
    if IsIPv6(a.ip) {
      assert b[8..24] == a.ip;
    } else {
      assert b[4..8] == Normal(a.ip);
    }
  }

  // ----- allowed IPs

  /** One entry of encodeAllowedIPs; None for an invalid address. */
  function EncodeIP(e: Endian, index: nat, n: IPNet): Option<Attr> {
    if !IsValidIP(n.ip) then None
    else
      var family := if IsIPv6(n.ip) then AF_INET6 else AF_INET;
      Some(Nest(ToUint16(index), [
        Leaf(IP_FAMILY, PutUint16(e, family)),
        Leaf(IP_ADDR, Normal(n.ip)),
        Leaf(IP_MASK, [ToUint8(MaskOnes(n.mask))])]))
  }

  function EncodeIPs(e: Endian, from: nat, ips: seq<IPNet>): Option<seq<Attr>>
    decreases |ips|
  {
    if ips == [] then Some([])
    else
      match (EncodeIP(e, from, ips[0]), EncodeIPs(e, from + 1, ips[1..]))
      case (Some(a), Some(rest)) => Some([a] + rest)
      case _ => None
  }

  /** What was encoded before, followed by the rest, if that can be encoded. */
  function Behind(ae: seq<Attr>, rest: Option<seq<Attr>>): Option<seq<Attr>> {
    if rest.Some? then Some(ae + rest.value) else None
  }

  lemma {:induction false} BehindOne(ae: seq<Attr>, a: Attr, rest: Option<seq<Attr>>)
    ensures Behind(ae, Behind([a], rest)) == Behind(ae + [a], rest)
    ensures Behind([], rest) == rest
    ensures Behind(ae, Some([])) == Some(ae)
  {
    if rest.Some? {
      assert ae + ([a] + rest.value) == ae + [a] + rest.value;
      assert [] + rest.value == rest.value;
    }
    assert ae + [] == ae;
  }

  /** The loop of encodeAllowedIPs. */
  method EncodeAllowedIPs(e: Endian, ips: seq<IPNet>) returns (r: Option<seq<Attr>>)
    ensures r == EncodeIPs(e, 0, ips)
  {
    hide EncodeIP;
    var ae: seq<Attr> := [];
    BehindOne([], Leaf(0, []), EncodeIPs(e, 0, ips));
    assert ips[0..] == ips;
    for i := 0 to |ips|
      invariant EncodeIPs(e, 0, ips) == Behind(ae, EncodeIPs(e, i, ips[i..]))
    {
      assert ips[i..][1..] == ips[i + 1..];
      var a := EncodeIP(e, i, ips[i]);
      if a.None? {
        return None;
      }
      BehindOne(ae, a.value, EncodeIPs(e, i + 1, ips[i + 1..]));
      ae := ae + [a.value];
    }
    assert ips[|ips|..] == [];
    BehindOne(ae, Leaf(0, []), Some([]));
    return Some(ae);
  }

  /** What the decoder has seen of one allowed IP. */
  datatype Found = Found(ip: seq<byte>, mask: nat, family: nat)

  /** parseAllowedIPs, inner loop. */
  function DecodeIPAttrs(e: Endian, f: Found, attrs: seq<Attr>): Option<Found>
    decreases |attrs|
  {
    if attrs == [] then Some(f)
    else if !attrs[0].Leaf? then None
    else
      var b := attrs[0].bytes;
      if attrs[0].typ == IP_ADDR then
        if |b| == 4 || |b| == 16 then DecodeIPAttrs(e, f.(ip := b), attrs[1..]) else None
      else if attrs[0].typ == IP_MASK then
        if |b| == 1 then DecodeIPAttrs(e, f.(mask := b[0]), attrs[1..]) else None
      else if attrs[0].typ == IP_FAMILY then
        if |b| == 2 then DecodeIPAttrs(e, f.(family := GetUint16(e, b)), attrs[1..]) else None
      else DecodeIPAttrs(e, f, attrs[1..])
  }

  /** net.CIDRMask with its bounds check: nil when there are too many ones. */
  function MaskFor(ones: nat, bytes: nat): seq<byte> {
    if ones <= 8 * bytes then CIDRMask(ones, bytes) else []
  }

  lemma {:induction false} MaskForExact(ones: nat, bytes: nat, i: nat)
    ensures |MaskFor(ones, bytes)| == if ones <= 8 * bytes then bytes else 0
    ensures i < 8 * |MaskFor(ones, bytes)| ==> Bit(MaskFor(ones, bytes), i) == if i < ones then 1 else 0
  {
    if ones <= 8 * bytes && i < 8 * bytes {
      MaskBits(ones, bytes, i);
    }
  }

  function DecodeIP(e: Endian, a: Attr): Option<IPNet> {
    if !a.Nest? then None
    else
      match DecodeIPAttrs(e, Found([], 0, 0), a.attrs)
      case None => None
      case Some(f) =>
        Some(IPNet(f.ip, if f.family == AF_INET then MaskFor(f.mask, 4)
                         else if f.family == AF_INET6 then MaskFor(f.mask, 16) else []))
  }

  function DecodeIPs(e: Endian, attrs: seq<Attr>): Option<seq<IPNet>> {
    if attrs == [] then Some([])
    else
      match (DecodeIP(e, attrs[0]), DecodeIPs(e, attrs[1..]))
      case (Some(n), Some(rest)) => Some([n] + rest)
      case _ => None
  }

  /** A value of an allowed IP, of the size its type asks for. */
  predicate IPAttrOk(a: Attr) {
    && a.Leaf?
    && (a.typ == 1 ==> |a.bytes| == 2)
    && (a.typ == 2 ==> |a.bytes| == 4 || |a.bytes| == 16)
    && (a.typ == 3 ==> |a.bytes| == 1)
  }

  predicate IPAttrsOk(attrs: seq<Attr>) { forall a :: a in attrs ==> IPAttrOk(a) }

  /** The address stands under type 2, the length of the mask under 3, the family
      under 1; of several, the last counts. */
  function Gathered(e: Endian, f: Found, attrs: seq<Attr>): Found {
    Found(LastLeaf(attrs, 2).GetOr(f.ip), Uint8Of(LastLeaf(attrs, 3)).GetOr(f.mask),
          Uint16Of(e, LastLeaf(attrs, 1)).GetOr(f.family))
  }

  lemma {:induction false} IPAttrsGathered(e: Endian, f: Found, attrs: seq<Attr>)
    ensures DecodeIPAttrs(e, f, attrs) == if IPAttrsOk(attrs) then Some(Gathered(e, f, attrs)) else None
    decreases |attrs|
  {
    hide GetUint16;
    if attrs != [] {
      var a, rest := attrs[0], attrs[1..];
      assert attrs == [a] + rest;
      SaidByOne(a);
      SaidAppend([a], rest, 1);
      SaidAppend([a], rest, 2);
      SaidAppend([a], rest, 3);
      SaidIsThere(rest, 1);
      SaidIsThere(rest, 3);
      hide LastLeaf;
      if IPAttrOk(a) {
        IPAttrsGathered(e, Gathered(e, f, [a]), rest);
      }
    }
  }

  /** The allowed IP that nested attributes report: an IPv4 mask under family 2,
      an IPv6 mask under family 10. */
  function ReportedIP(e: Endian, attrs: seq<Attr>): IPNet {
    var f := Gathered(e, Found([], 0, 0), attrs);
    IPNet(f.ip, if f.family == 2 then MaskFor(f.mask, 4) else if f.family == 10 then MaskFor(f.mask, 16) else [])
  }

  lemma {:induction false} IPIsReported(e: Endian, a: Attr)
    ensures DecodeIP(e, a) == if a.Nest? && IPAttrsOk(a.attrs) then Some(ReportedIP(e, a.attrs)) else None
  {
    hide IPAttrsOk, DecodeIPAttrs, LastLeaf;
    if a.Nest? {
      IPAttrsGathered(e, Found([], 0, 0), a.attrs);
    }
  }

  /** An allowed IP with a mask of ones followed by zeros, as long as the
      address in its shortest form. */
  predicate Canonical(n: IPNet) {
    IsValidIP(n.ip) && MaskLength(n.mask).Some? && |n.mask| == |Normal(n.ip)|
  }

  function NormalIP(n: IPNet): IPNet { IPNet(Normal(n.ip), n.mask) }

  lemma {:induction false} IPAttrsRead(e: Endian, family: nat, ip: seq<byte>, mask: byte)
    requires family < 0x1_0000 && (|ip| == 4 || |ip| == 16)
    ensures DecodeIPAttrs(e, Found([], 0, 0), [
              Leaf(IP_FAMILY, PutUint16(e, family)), Leaf(IP_ADDR, ip), Leaf(IP_MASK, [mask])])
            == Some(Found(ip, mask, family))
  {
    hide GetUint16, PutUint16;
    Uint16RoundTrip(e, family);
    var a := [Leaf(IP_FAMILY, PutUint16(e, family)), Leaf(IP_ADDR, ip), Leaf(IP_MASK, [mask])];
    assert a[1..] == [a[1], a[2]] && a[1..][1..] == [a[2]] && a[1..][1..][1..] == [];
    assert DecodeIPAttrs(e, Found(ip, 0, family), [a[2]]) == Some(Found(ip, mask, family));
    assert DecodeIPAttrs(e, Found([], 0, family), a[1..]) == Some(Found(ip, mask, family));
  }

  /** The length and family of a canonical allowed IP, and its mask. */
  lemma {:induction false} CanonicalIP(n: IPNet)
    requires Canonical(n)
    ensures |Normal(n.ip)| == (if IsIPv6(n.ip) then 16 else 4)
    ensures MaskOnes(n.mask) <= 128 && MaskFor(MaskOnes(n.mask), |Normal(n.ip)|) == n.mask
  {
    hide CIDRMask;
    MaskCanonical(n.mask);
  }

  lemma {:induction false} IPRoundTrip(e: Endian, index: nat, n: IPNet)
    requires Canonical(n)
    ensures EncodeIP(e, index, n).Some?
    ensures DecodeIP(e, EncodeIP(e, index, n).value) == Some(NormalIP(n))
  {
    hide GetUint16, PutUint16, MaskFor, MaskOnes, MaskLength, DecodeIPAttrs, Normal, IsIPv6;
    CanonicalIP(n);
    IPAttrsRead(e, if IsIPv6(n.ip) then AF_INET6 else AF_INET, Normal(n.ip), MaskOnes(n.mask));
  }

  function NormalIPs(ips: seq<IPNet>): seq<IPNet> {
    seq(|ips|, i requires 0 <= i < |ips| => NormalIP(ips[i]))
  }

  lemma {:induction false} IPsRoundTrip(e: Endian, from: nat, ips: seq<IPNet>)
    requires forall i :: 0 <= i < |ips| ==> Canonical(ips[i])
    ensures EncodeIPs(e, from, ips).Some?
    ensures DecodeIPs(e, EncodeIPs(e, from, ips).value) == Some(NormalIPs(ips))
    decreases |ips|
  {
    hide EncodeIP, DecodeIP, Canonical, NormalIP;
    if ips != [] {
      IPRoundTrip(e, from, ips[0]);
      IPsRoundTrip(e, from + 1, ips[1..]);
      var as_ := EncodeIPs(e, from, ips).value;
      assert as_[1..] == EncodeIPs(e, from + 1, ips[1..]).value;
      assert NormalIPs(ips) == [NormalIP(ips[0])] + NormalIPs(ips[1..]);
    }
  }

  // ----- peers

  function FlagBits(p: PeerConfig): (flags: nat)
    ensures flags < 16
  {
    (if p.remove then 1 else 0)
    + (if p.replaceAllowedIPs then 2 else 0)
    + (if p.updateOnly then 4 else 0)
    + (if p.advancedSecurity || p.disableAdvancedSecurity then 8 else 0)
  }

  predicate HasBit(flags: nat, bit: nat)
    requires bit > 0
  {
    flags / bit % 2 == 1
  }

  /** Each flag of a peer is set exactly when the configuration asks for it. */
  lemma {:induction false} FlagBitsRead(p: PeerConfig)
    ensures var f := FlagBits(p);
            && (HasBit(f, 1) <==> p.remove)
            && (HasBit(f, 2) <==> p.replaceAllowedIPs)
            && (HasBit(f, 4) <==> p.updateOnly)
            && (HasBit(f, 8) <==> p.advancedSecurity || p.disableAdvancedSecurity)
  {}

  function FlagAttrs(e: Endian, p: PeerConfig): seq<Attr> {
    (if FlagBits(p) != 0 then [Leaf(PEER_FLAGS, PutUint32(e, FlagBits(p)))] else [])
    + (if p.advancedSecurity then [Leaf(PEER_ADVANCED_SECURITY, [])] else [])
  }

  function PskAttrs(p: PeerConfig): seq<Attr> {
    if p.presharedKey.Some? then [Leaf(PEER_PRESHARED_KEY, p.presharedKey.value)] else []
  }

  function EndpointAttrs(e: Endian, p: PeerConfig): Option<seq<Attr>> {
    if p.endpoint.None? then Some([])
    else
      match EncodeSockaddr(e, p.endpoint.value)
      case Some(b) => Some([Leaf(PEER_ENDPOINT, b)])
      case None => None
  }

  function KeepaliveAttrs(e: Endian, p: PeerConfig): seq<Attr> {
    if p.keepalive.Some? then [Leaf(PEER_KEEPALIVE, PutUint16(e, ToUint16(WholeSeconds(p.keepalive.value))))] else []
  }

  function AllowedAttrs(e: Endian, p: PeerConfig): Option<seq<Attr>> {
    if p.allowedIPs == [] then Some([])
    else
      match EncodeIPs(e, 0, p.allowedIPs)
      case Some(ips) => Some([Nest(PEER_ALLOWEDIPS, ips)])
      case None => None
  }

  /** The attributes of a peer; None when an address is invalid. */
  function PeerAttrs(e: Endian, p: PeerConfig): Option<seq<Attr>> {
    match (EndpointAttrs(e, p), AllowedAttrs(e, p))
    case (Some(endpoint), Some(allowed)) =>
      Some([Leaf(PEER_PUBLIC_KEY, p.publicKey)] + FlagAttrs(e, p) + PskAttrs(p) + endpoint
           + KeepaliveAttrs(e, p) + allowed)
    case _ => None
  }

  /** encodePeer. */
  method EncodePeer(e: Endian, p: PeerConfig) returns (r: Option<seq<Attr>>)
    ensures r == PeerAttrs(e, p)
  {
    hide PutUint16, PutUint32, EncodeSockaddr, EncodeIPs;
    var ae := [Leaf(PEER_PUBLIC_KEY, p.publicKey)];
    var flags := 0;
    if p.remove {
      flags := flags + 1;
    }
    if p.replaceAllowedIPs {
      flags := flags + 2;
    }
    if p.updateOnly {
      flags := flags + 4;
    }
    if p.advancedSecurity || p.disableAdvancedSecurity {
      flags := flags + 8;
    }
    assert flags == FlagBits(p);
    var fs := [];
    if flags != 0 {
      fs := fs + [Leaf(PEER_FLAGS, PutUint32(e, flags))];
    }
    if p.advancedSecurity {
      fs := fs + [Leaf(PEER_ADVANCED_SECURITY, [])];
    }
    assert fs == FlagAttrs(e, p);
    hide FlagAttrs, FlagBits;
    ae := ae + fs;
    ae := ae + PskAttrs(p);
    var endpoint := EndpointAttrs(e, p);
    if endpoint.None? {
      return None;
    }
    ae := ae + endpoint.value + KeepaliveAttrs(e, p);
    if |p.allowedIPs| > 0 {
      var ips := EncodeAllowedIPs(e, p.allowedIPs);
      if ips.None? {
        return None;
      }
      ae := ae + [Nest(PEER_ALLOWEDIPS, ips.value)];
    } else {
      assert ae + [] == ae;
    }
    return Some(ae);
  }

  /** The handshake time of a kernel timespec of either size; the inner None
      leaves the time as it is. */
  function DecodeTimespec(e: Endian, b: seq<byte>): Option<Option<(int, int)>> {
    if |b| == 8 then Some(PositiveTime(ToInt32(GetUint32(e, b[..4])), ToInt32(GetUint32(e, b[4..]))))
    else if |b| == 16 then
      Some(PositiveTime(Text.WrapInt64(GetUint64(e, b[..8])), Text.WrapInt64(GetUint64(e, b[8..]))))
    else None
  }

  function PositiveTime(sec: int, nsec: int): Option<(int, int)> {
    if sec > 0 || nsec > 0 then Some(Text.UnixTime(sec, nsec)) else None
  }

  function SetTime(p: Peer, t: Option<(int, int)>): Peer {
    if t.Some? then p.(lastHandshake := t) else p
  }

  function SetAwgFlags(p: Peer, flags: nat): Peer {
    p.(awgPeerFlagsKnown := true, fixedHeaders := flags % 2 == 1, noS4 := flags / 2 % 2 == 1)
  }

  /** One round of parsePeer's loop. */
  function DecodePeerAttr(e: Endian, p: Peer, a: Attr): Option<Peer> {
    if a.Nest? then
      if a.typ == PEER_ALLOWEDIPS then
        match DecodeIPs(e, a.attrs)
        case Some(ips) => Some(p.(allowedIPs := ips))
        case None => None
      else Some(p)
    else if a.typ == PEER_PUBLIC_KEY then
      if |a.bytes| == KEY_LEN then Some(p.(publicKey := a.bytes)) else None
    else if a.typ == PEER_PRESHARED_KEY then
      if |a.bytes| == KEY_LEN then Some(p.(presharedKey := a.bytes)) else None
    else if a.typ == PEER_ENDPOINT then
      match DecodeSockaddr(e, a.bytes)
      case Some(addr) => Some(p.(endpoint := Some(addr)))
      case None => None
    else if a.typ == PEER_KEEPALIVE then
      if |a.bytes| == 2 then Some(p.(keepalive := GetUint16(e, a.bytes) * SECOND)) else None
    else if a.typ == PEER_LAST_HANDSHAKE then
      match DecodeTimespec(e, a.bytes)
      case Some(t) => Some(SetTime(p, t))
      case None => None
    else if a.typ == PEER_RX_BYTES then
      if |a.bytes| == 8 then Some(p.(receiveBytes := Text.WrapInt64(GetUint64(e, a.bytes)))) else None
    else if a.typ == PEER_TX_BYTES then
      if |a.bytes| == 8 then Some(p.(transmitBytes := Text.WrapInt64(GetUint64(e, a.bytes)))) else None
    else if a.typ == PEER_PROTOCOL_VERSION then
      if |a.bytes| == 4 then Some(p.(protocolVersion := GetUint32(e, a.bytes))) else None
    else if a.typ == PEER_ADVANCED_SECURITY then Some(p.(advancedSecurity := true))
    else if a.typ == PEER_AWG_FLAGS then
      if |a.bytes| == 4 then Some(SetAwgFlags(p, GetUint32(e, a.bytes))) else None
    else Some(p)
  }

  function DecodePeerAttrs(e: Endian, p: Peer, attrs: seq<Attr>): Option<Peer>
    decreases |attrs|
  {
    if attrs == [] then Some(p)
    else
      match DecodePeerAttr(e, p, attrs[0])
      case Some(q) => DecodePeerAttrs(e, q, attrs[1..])
      case None => None
  }

  /** parsePeer. */
  method ParsePeer(e: Endian, attrs: seq<Attr>) returns (r: Option<Peer>)
    ensures r == DecodePeerAttrs(e, NewPeer(ZERO_KEY), attrs)
  {
    hide DecodePeerAttr;
    var p := NewPeer(ZERO_KEY);
    for i := 0 to |attrs|
      invariant DecodePeerAttrs(e, p, attrs[i..]) == DecodePeerAttrs(e, NewPeer(ZERO_KEY), attrs)
    {
      assert attrs[i..][1..] == attrs[i + 1..];
      var q := DecodePeerAttr(e, p, attrs[i]);
      if q.None? {
        return None;
      }
      p := q.value;
    }
    assert attrs[|attrs|..] == [];
    return Some(p);
  }

  lemma {:induction false} DecodeMore(e: Endian, p: Peer, attrs: seq<Attr>, a: Attr)
    ensures DecodePeerAttrs(e, p, attrs + [a]) ==
            match DecodePeerAttrs(e, p, attrs)
            case Some(q) => DecodePeerAttr(e, q, a)
            case None => None
    decreases |attrs|
  {
    hide DecodePeerAttr;
    if attrs == [] {
      assert ([a])[1..] == [];
      if DecodePeerAttr(e, p, a).Some? {
        assert DecodePeerAttrs(e, DecodePeerAttr(e, p, a).value, []) == DecodePeerAttr(e, p, a);
      }
      assert attrs + [a] == [a];
    } else {
      assert (attrs + [a])[1..] == attrs[1..] + [a];
      match DecodePeerAttr(e, p, attrs[0]) {
        case Some(q) => DecodeMore(e, q, attrs[1..], a);
        case None =>
      }
    }
  }

  // ----- what a report says

  /** A value of the size its type asks for: 32 bytes for a key, and so on. */
  predicate PeerAttrOk(e: Endian, a: Attr) {
    match a
    case Nest(typ, attrs) => typ == 9 ==> DecodeIPs(e, attrs).Some?
    case Leaf(typ, b) =>
      && (typ == 1 || typ == 2 ==> |b| == 32)
      && (typ == 4 ==> |b| == 16 || |b| == 28)
      && (typ == 5 ==> |b| == 2)
      && (typ == 6 ==> |b| == 8 || |b| == 16)
      && (typ == 7 || typ == 8 ==> |b| == 8)
      && (typ == 10 || typ == 12 ==> |b| == 4)
  }

  predicate PeerAttrsOk(e: Endian, attrs: seq<Attr>) { forall a :: a in attrs ==> PeerAttrOk(e, a) }

  /** The last handshake time reported that is not zero. */
  function LastTime(e: Endian, attrs: seq<Attr>): Option<(int, int)> {
    if attrs == [] then None
    else
      var a := attrs[|attrs| - 1];
      var t := if a.Leaf? && a.typ == 6 then DecodeTimespec(e, a.bytes) else None;
      if t.Some? && t.value.Some? then t.value else LastTime(e, attrs[..|attrs| - 1])
  }

  function AddrOf(e: Endian, b: Option<seq<byte>>): Option<UDPAddr> {
    if b.Some? then DecodeSockaddr(e, b.value) else None
  }

  function IPsOf(e: Endian, attrs: Option<seq<Attr>>): seq<IPNet> {
    if attrs.Some? then DecodeIPs(e, attrs.value).GetOr([]) else []
  }

  /** The peer a report describes: each value stands under the number the kernel
      gives it, and of several the last counts. */
  function Reported(e: Endian, attrs: seq<Attr>): Peer {
    var flags := Uint32Of(e, LastLeaf(attrs, 12));
    Peer(
      KeyIn(LastLeaf(attrs, 1)).GetOr(ZERO_KEY),
      KeyIn(LastLeaf(attrs, 2)).GetOr(ZERO_KEY),
      AddrOf(e, LastLeaf(attrs, 4)),
      Uint16Of(e, LastLeaf(attrs, 5)).GetOr(0) * 1_000_000_000,
      LastTime(e, attrs),
      Text.WrapInt64(Uint64Of(e, LastLeaf(attrs, 7)).GetOr(0)),
      Text.WrapInt64(Uint64Of(e, LastLeaf(attrs, 8)).GetOr(0)),
      IPsOf(e, LastNest(attrs, 9)),
      Uint32Of(e, LastLeaf(attrs, 10)).GetOr(0),
      LastLeaf(attrs, 11).Some?,
      flags.Some?, HasBit(flags.GetOr(0), 1), HasBit(flags.GetOr(0), 2))
  }

  lemma {:induction false} LastTimeMore(e: Endian, attrs: seq<Attr>, a: Attr)
    ensures LastTime(e, attrs + [a]) ==
            var t := if a.Leaf? && a.typ == 6 then DecodeTimespec(e, a.bytes) else None;
            if t.Some? && t.value.Some? then t.value else LastTime(e, attrs)
  {
    assert (attrs + [a])[..|attrs|] == attrs;
  }

  /** One value more is reported exactly as it is decoded. */
  predicate SaysMore(e: Endian, attrs: seq<Attr>, a: Attr) {
    DecodePeerAttr(e, Reported(e, attrs), a) == if PeerAttrOk(e, a) then Some(Reported(e, attrs + [a])) else None
  }

  lemma {:induction false} OneMoreNumber(e: Endian, attrs: seq<Attr>, a: Attr)
    requires a.Leaf? && (a.typ == 5 || a.typ == 7 || a.typ == 8 || a.typ == 10 || a.typ == 12)
    ensures SaysMore(e, attrs, a)
  {
    hide LastLeaf, LastNest, LastTime, GetUint16, GetUint32, GetUint64, DecodeTimespec, DecodeIPs, DecodeSockaddr;
    hide Text.WrapInt64;
    SaidByMore(attrs, a);
    LastTimeMore(e, attrs, a);
  }

  lemma {:induction false} OneMoreValue(e: Endian, attrs: seq<Attr>, a: Attr)
    requires a.Leaf? && (a.typ == 1 || a.typ == 2 || a.typ == 4 || a.typ == 6)
    ensures SaysMore(e, attrs, a)
  {
    hide LastLeaf, LastNest, LastTime, GetUint16, GetUint32, GetUint64, PositiveTime, DecodeIPs, SockaddrPort;
    hide Text.WrapInt64, HasBit;
    SaidByMore(attrs, a);
    LastTimeMore(e, attrs, a);
  }

  lemma {:induction false} OneMoreOther(e: Endian, attrs: seq<Attr>, a: Attr)
    requires a.Leaf? ==> a.typ == 0 || a.typ == 3 || a.typ == 9 || a.typ == 11 || a.typ > 12
    ensures SaysMore(e, attrs, a)
  {
    hide LastLeaf, LastNest, LastTime, GetUint16, GetUint32, GetUint64, DecodeTimespec, DecodeIPs, DecodeSockaddr;
    hide Text.WrapInt64, HasBit;
    SaidByMore(attrs, a);
    LastTimeMore(e, attrs, a);
  }

  lemma {:induction false} OneMoreSaid(e: Endian, attrs: seq<Attr>, a: Attr)
    ensures SaysMore(e, attrs, a)
  {
    hide SaysMore;
    if a.Leaf? && (a.typ == 5 || a.typ == 7 || a.typ == 8 || a.typ == 10 || a.typ == 12) {
      OneMoreNumber(e, attrs, a);
    } else if a.Leaf? && (a.typ == 1 || a.typ == 2 || a.typ == 4 || a.typ == 6) {
      OneMoreValue(e, attrs, a);
    } else {
      OneMoreOther(e, attrs, a);
    }
  }

  /** A timespec of either size is read as its seconds and nanoseconds, and not
      at all when neither is positive. */
  lemma {:induction false} TimespecExact(e: Endian, sec: int, nsec: int)
    requires -0x8000_0000_0000_0000 <= sec < 0x8000_0000_0000_0000
    requires -0x8000_0000_0000_0000 <= nsec < 0x8000_0000_0000_0000
    ensures var time := if sec > 0 || nsec > 0 then Some(Text.UnixTime(sec, nsec)) else None;
            && DecodeTimespec(e, PutUint64(e, sec % 0x1_0000_0000_0000_0000) +
                                 PutUint64(e, nsec % 0x1_0000_0000_0000_0000)) == Some(time)
            && (-0x8000_0000 <= sec < 0x8000_0000 && -0x8000_0000 <= nsec < 0x8000_0000 ==>
                  DecodeTimespec(e, PutUint32(e, sec % 0x1_0000_0000) + PutUint32(e, nsec % 0x1_0000_0000)) == Some(time))
  {
    hide PutUint64, GetUint64, PutUint32, GetUint32, Text.UnixTime;
    WideTimespec(e, sec, nsec);
    if -0x8000_0000 <= sec < 0x8000_0000 && -0x8000_0000 <= nsec < 0x8000_0000 {
      var a, b := PutUint32(e, sec % 0x1_0000_0000), PutUint32(e, nsec % 0x1_0000_0000);
      Uint32RoundTrip(e, sec % 0x1_0000_0000);
      Uint32RoundTrip(e, nsec % 0x1_0000_0000);
      assert (a + b)[..4] == a && (a + b)[4..] == b;
    }
  }

  lemma {:induction false} WideTimespec(e: Endian, sec: int, nsec: int)
    requires -0x8000_0000_0000_0000 <= sec < 0x8000_0000_0000_0000
    requires -0x8000_0000_0000_0000 <= nsec < 0x8000_0000_0000_0000
    ensures DecodeTimespec(e, PutUint64(e, sec % 0x1_0000_0000_0000_0000) + PutUint64(e, nsec % 0x1_0000_0000_0000_0000))
            == Some(PositiveTime(sec, nsec))
  {
    hide PutUint64, GetUint64, PositiveTime;
    var m := 0x1_0000_0000_0000_0000;
    var a, b := PutUint64(e, sec % m), PutUint64(e, nsec % m);
    Uint64RoundTrip(e, sec % m);
    Uint64RoundTrip(e, nsec % m);
    assert (a + b)[..8] == a && (a + b)[8..] == b;
    assert Text.WrapInt64(sec % m) == sec && Text.WrapInt64(nsec % m) == nsec;
  }

  /** Decoding succeeds exactly when every value has its size, and gives the peer
      the report describes. */
  lemma {:induction false} PeerIsReported(e: Endian, attrs: seq<Attr>)
    ensures DecodePeerAttrs(e, NewPeer(ZERO_KEY), attrs) ==
            if PeerAttrsOk(e, attrs) then Some(Reported(e, attrs)) else None
    decreases |attrs|
  {
    hide DecodePeerAttr, PeerAttrOk;
    if attrs == [] {
      NothingReported(e);
    } else {
      var init, a := attrs[..|attrs| - 1], attrs[|attrs| - 1];
      assert attrs == init + [a];
      PeerIsReported(e, init);
      DecodeMore(e, NewPeer(ZERO_KEY), init, a);
      OneMoreSaid(e, init, a);
      hide Reported;
    }
  }

  lemma {:induction false} NothingReported(e: Endian)
    ensures Reported(e, []) == NewPeer(ZERO_KEY)
  {
    assert Text.WrapInt64(0) == 0;
  }

  /** A peer configuration whose addresses and keepalive are in order. */
  predicate Encodable(p: PeerConfig) {
    && (p.endpoint.Some? ==> IsValidIP(p.endpoint.value.ip) && 0 <= p.endpoint.value.port <= 0xffff)
    && (p.keepalive.Some? ==> 0 <= p.keepalive.value <= 0xffff * SECOND)
    && forall i :: 0 <= i < |p.allowedIPs| ==> Canonical(p.allowedIPs[i])
  }

  /** The peer the kernel is told about: shortest address forms, no zone, whole
      seconds. */
  function Told(p: PeerConfig): Peer {
    NewPeer(p.publicKey).(
      presharedKey := p.presharedKey.GetOr(ZERO_KEY),
      endpoint := if p.endpoint.Some? then Some(NormalAddr(p.endpoint.value)) else None,
      keepalive := (if p.keepalive.Some? then p.keepalive.value / SECOND else 0) * SECOND,
      allowedIPs := NormalIPs(p.allowedIPs),
      advancedSecurity := p.advancedSecurity)
  }

  // ----- what a request says

  /** What an encoded peer says under each number. */
  function SaidOfPeer(e: Endian, p: PeerConfig, typ: nat): Option<seq<byte>> {
    if typ == 1 then Some(p.publicKey)
    else if typ == 2 then if p.presharedKey.Some? then Some(p.presharedKey.value) else None
    else if typ == 3 then if FlagBits(p) != 0 then Some(PutUint32(e, FlagBits(p))) else None
    else if typ == 4 then if p.endpoint.Some? then EncodeSockaddr(e, p.endpoint.value) else None
    else if typ == 5 then
      if p.keepalive.Some? then Some(PutUint16(e, ToUint16(WholeSeconds(p.keepalive.value)))) else None
    else if typ == 11 then if p.advancedSecurity then Some([]) else None
    else None
  }

  /** A list that says at most one thing. */
  predicate SaysOne(attrs: seq<Attr>, typ: nat, b: Option<seq<byte>>) {
    attrs == if b.Some? then [Leaf(typ, b.value)] else []
  }

  lemma {:induction false} SaysOneSaid(attrs: seq<Attr>, typ: nat, b: Option<seq<byte>>, t: nat)
    requires SaysOne(attrs, typ, b)
    ensures LastLeaf(attrs, t) == (if t == typ then b else None) && LastNest(attrs, t) == None
  {
    SaidByOne(Leaf(typ, b.GetOr([])));
  }

  lemma {:induction false} PeerSays(e: Endian, p: PeerConfig, t: nat)
    requires PeerAttrs(e, p).Some?
    ensures LastLeaf(PeerAttrs(e, p).value, t) == SaidOfPeer(e, p, t)
    ensures LastNest(PeerAttrs(e, p).value, t) ==
            if t == 9 && p.allowedIPs != [] then EncodeIPs(e, 0, p.allowedIPs) else None
  {
    var first, flags := [Leaf(PEER_PUBLIC_KEY, p.publicKey)], FlagAttrs(e, p);
    var psk, ep, ka, ips := PskAttrs(p), EndpointAttrs(e, p).value, KeepaliveAttrs(e, p), AllowedAttrs(e, p).value;
    FlagsSay(e, p, t);
    PartsSay(e, p, t);
    NothingElseSaid(e, p, t);
    hide LastLeaf, LastNest, FlagAttrs, PskAttrs, EndpointAttrs, KeepaliveAttrs, AllowedAttrs, EncodeIPs, SaidOfPeer;
    SaidAppend(first, flags, t);
    SaidAppend(first + flags, psk, t);
    SaidAppend(first + flags + psk, ep, t);
    SaidAppend(first + flags + psk + ep, ka, t);
    SaidAppend(first + flags + psk + ep + ka, ips, t);
  }

  lemma {:induction false} NothingElseSaid(e: Endian, p: PeerConfig, t: nat)
    ensures t !in {1, 2, 3, 4, 5, 11} ==> SaidOfPeer(e, p, t) == None
  {}

  lemma {:induction false} PartsSay(e: Endian, p: PeerConfig, t: nat)
    requires PeerAttrs(e, p).Some?
    ensures var first := [Leaf(PEER_PUBLIC_KEY, p.publicKey)];
            LastLeaf(first, t) == (if t == 1 then SaidOfPeer(e, p, 1) else None) && LastNest(first, t) == None
    ensures var psk := PskAttrs(p);
            LastLeaf(psk, t) == (if t == 2 then SaidOfPeer(e, p, 2) else None) && LastNest(psk, t) == None
    ensures var ep := EndpointAttrs(e, p).value;
            LastLeaf(ep, t) == (if t == 4 then SaidOfPeer(e, p, 4) else None) && LastNest(ep, t) == None
    ensures var ka := KeepaliveAttrs(e, p);
            LastLeaf(ka, t) == (if t == 5 then SaidOfPeer(e, p, 5) else None) && LastNest(ka, t) == None
    ensures var ips := AllowedAttrs(e, p).value;
            && LastLeaf(ips, t) == None
            && LastNest(ips, t) == if t == 9 && p.allowedIPs != [] then EncodeIPs(e, 0, p.allowedIPs) else None
  {
    hide LastLeaf, LastNest, EncodeIPs, EncodeSockaddr, PutUint16, PutUint32, FlagBits;
    SaysOneSaid([Leaf(PEER_PUBLIC_KEY, p.publicKey)], 1, Some(p.publicKey), t);
    SaysOneSaid(PskAttrs(p), 2, SaidOfPeer(e, p, 2), t);
    SaysOneSaid(EndpointAttrs(e, p).value, 4, SaidOfPeer(e, p, 4), t);
    SaysOneSaid(KeepaliveAttrs(e, p), 5, SaidOfPeer(e, p, 5), t);
    SaidByOne(Nest(PEER_ALLOWEDIPS, EncodeIPs(e, 0, p.allowedIPs).GetOr([])));
    SaysOneSaid([], 0, None, t);
  }

  lemma {:induction false} FlagsSay(e: Endian, p: PeerConfig, t: nat)
    ensures LastLeaf(FlagAttrs(e, p), t) == (if t == 3 || t == 11 then SaidOfPeer(e, p, t) else None)
    ensures LastNest(FlagAttrs(e, p), t) == None
  {
    hide FlagBits, PutUint32;
    var xs := if FlagBits(p) != 0 then [Leaf(PEER_FLAGS, PutUint32(e, FlagBits(p)))] else [];
    var ys := if p.advancedSecurity then [Leaf(PEER_ADVANCED_SECURITY, [])] else [];
    SaysOneSaid(xs, 3, SaidOfPeer(e, p, 3), t);
    SaysOneSaid(ys, 11, SaidOfPeer(e, p, 11), t);
    SaidAppend(xs, ys, t);
  }

  lemma {:induction false} NoTime(e: Endian, attrs: seq<Attr>)
    requires LastLeaf(attrs, 6).None?
    ensures LastTime(e, attrs) == None
    decreases |attrs|
  {
    if attrs != [] {
      NoTime(e, attrs[..|attrs| - 1]);
    }
  }

  lemma {:induction false} PeerSaysAll(e: Endian, p: PeerConfig)
    requires PeerAttrs(e, p).Some?
    ensures forall t: nat :: LastLeaf(PeerAttrs(e, p).value, t) == SaidOfPeer(e, p, t)
    ensures forall t: nat :: LastNest(PeerAttrs(e, p).value, t) ==
                             if t == 9 && p.allowedIPs != [] then EncodeIPs(e, 0, p.allowedIPs) else None
  {
    hide PeerAttrs, LastLeaf, LastNest, SaidOfPeer, EncodeIPs;
    forall t: nat
      ensures LastLeaf(PeerAttrs(e, p).value, t) == SaidOfPeer(e, p, t)
      ensures LastNest(PeerAttrs(e, p).value, t) ==
              if t == 9 && p.allowedIPs != [] then EncodeIPs(e, 0, p.allowedIPs) else None
    {
      PeerSays(e, p, t);
    }
  }

  lemma {:induction false} EndpointArrives(e: Endian, c: PeerConfig)
    requires Encodable(c)
    ensures EndpointAttrs(e, c).Some? && PeerAttrsOk(e, EndpointAttrs(e, c).value)
    ensures AddrOf(e, SaidOfPeer(e, c, 4)) == if c.endpoint.Some? then Some(NormalAddr(c.endpoint.value)) else None
  {
    hide Canonical, DecodeIPs, EncodeSockaddr, NormalAddr;
    if c.endpoint.Some? {
      SockaddrRoundTrip(e, c.endpoint.value);
    }
  }

  lemma {:induction false} AllowedArrive(e: Endian, c: PeerConfig)
    requires Encodable(c)
    ensures AllowedAttrs(e, c).Some? && PeerAttrsOk(e, AllowedAttrs(e, c).value)
    ensures IPsOf(e, if c.allowedIPs != [] then EncodeIPs(e, 0, c.allowedIPs) else None) == NormalIPs(c.allowedIPs)
  {
    hide Canonical, EncodeIPs, DecodeIPs, NormalIP;
    IPsRoundTrip(e, 0, c.allowedIPs);
  }

  lemma {:induction false} KeepaliveArrives(e: Endian, c: PeerConfig)
    requires Encodable(c)
    ensures Uint16Of(e, SaidOfPeer(e, c, 5)) == if c.keepalive.Some? then Some(c.keepalive.value / SECOND) else None
  {
    hide Canonical, PutUint16, GetUint16, EncodeSockaddr, FlagBits;
    if c.keepalive.Some? {
      assert ToUint16(c.keepalive.value / SECOND) == c.keepalive.value / SECOND;
      Uint16RoundTrip(e, c.keepalive.value / SECOND);
    }
  }

  lemma {:induction false} FlagsArrive(e: Endian, c: PeerConfig)
    ensures Uint32Of(e, SaidOfPeer(e, c, 3)).GetOr(0) == FlagBits(c)
  {
    hide PutUint32, GetUint32, EncodeSockaddr, FlagBits;
    Uint32RoundTrip(e, FlagBits(c));
  }

  lemma {:induction false} EncodedIsOk(e: Endian, c: PeerConfig)
    requires Encodable(c)
    ensures PeerAttrs(e, c).Some? && PeerAttrsOk(e, PeerAttrs(e, c).value)
  {
    hide Encodable, PeerAttrsOk, FlagAttrs, PskAttrs, EndpointAttrs, KeepaliveAttrs, AllowedAttrs;
    var first := [Leaf(PEER_PUBLIC_KEY, c.publicKey)];
    EndpointArrives(e, c);
    AllowedArrive(e, c);
    SimpleAttrsOk(e, c);
    var flags, psk, ep, ka := FlagAttrs(e, c), PskAttrs(c), EndpointAttrs(e, c).value, KeepaliveAttrs(e, c);
    OkAppend(e, first, flags);
    OkAppend(e, first + flags, psk);
    OkAppend(e, first + flags + psk, ep);
    OkAppend(e, first + flags + psk + ep, ka);
    OkAppend(e, first + flags + psk + ep + ka, AllowedAttrs(e, c).value);
  }

  lemma {:induction false} OkAppend(e: Endian, xs: seq<Attr>, ys: seq<Attr>)
    ensures PeerAttrsOk(e, xs + ys) <==> PeerAttrsOk(e, xs) && PeerAttrsOk(e, ys)
  {
    hide PeerAttrOk;
    assert forall a :: a in xs + ys <==> a in xs || a in ys;
  }

  lemma {:induction false} SimpleAttrsOk(e: Endian, c: PeerConfig)
    ensures PeerAttrsOk(e, [Leaf(PEER_PUBLIC_KEY, c.publicKey)]) && PeerAttrsOk(e, FlagAttrs(e, c))
    ensures PeerAttrsOk(e, PskAttrs(c)) && PeerAttrsOk(e, KeepaliveAttrs(e, c))
  {
    hide PutUint16, PutUint32, FlagBits, DecodeIPs;
  }

  /** Decoding an encoded peer restores it, on a host of either byte order, up to
      the normal form of its addresses: no value is narrowed on the way. */
  lemma {:induction false} PeerRoundTrip(e: Endian, c: PeerConfig)
    requires Encodable(c)
    ensures PeerAttrs(e, c).Some?
    ensures DecodePeerAttrs(e, NewPeer(ZERO_KEY), PeerAttrs(e, c).value) == Some(Told(c))
  {
    hide PeerAttrs, PeerAttrsOk, DecodePeerAttrs, LastLeaf, LastNest, LastTime, EncodeIPs, EncodeSockaddr;
    hide DecodeSockaddr;
    hide PutUint16, PutUint32, GetUint16, GetUint32, GetUint64, Encodable, NormalIPs, NormalAddr, DecodeIPs, FlagBits;
    EncodedIsOk(e, c);
    PeerIsReported(e, PeerAttrs(e, c).value);
    PeerSaysAll(e, c);
    NoTime(e, PeerAttrs(e, c).value);
    EndpointArrives(e, c);
    KeepaliveArrives(e, c);
    AllowedArrive(e, c);
    KeepaliveTold(c);
    assert Text.WrapInt64(0) == 0;
  }

  lemma {:induction false} KeepaliveTold(c: PeerConfig)
    requires Encodable(c)
    ensures WholeSeconds(c.keepalive.GetOr(0)) == c.keepalive.GetOr(0) / SECOND
  {
    hide Canonical;
  }

  /** What the kernel is asked by nested attributes, by the numbers it gives
      them: the flags stand under 3, bit by bit. */
  function Asked(e: Endian, attrs: seq<Attr>): PeerConfig {
    var flags := Uint32Of(e, LastLeaf(attrs, 3)).GetOr(0);
    var seconds := Uint16Of(e, LastLeaf(attrs, 5));
    PeerConfig(
      KeyIn(LastLeaf(attrs, 1)).GetOr(ZERO_KEY),
      HasBit(flags, 1),
      HasBit(flags, 4),
      KeyIn(LastLeaf(attrs, 2)),
      AddrOf(e, LastLeaf(attrs, 4)),
      if seconds.Some? then Some(seconds.value * 1_000_000_000) else None,
      HasBit(flags, 2),
      IPsOf(e, LastNest(attrs, 9)),
      LastLeaf(attrs, 11).Some?,
      HasBit(flags, 8) && LastLeaf(attrs, 11).None?)
  }

  /** The peer configuration in the form it is sent in: shortest addresses
      without a zone, whole seconds. */
  function NormalPeer(p: PeerConfig): PeerConfig {
    p.(endpoint := if p.endpoint.Some? then Some(NormalAddr(p.endpoint.value)) else None,
       keepalive := if p.keepalive.Some? then Some(WholeSeconds(p.keepalive.value) * SECOND) else None,
       allowedIPs := NormalIPs(p.allowedIPs))
  }

  /** The kernel is asked for exactly what the configuration asks, settings and
      flags alike. */
  lemma {:induction false} PeerIsAsked(e: Endian, c: PeerConfig)
    requires Encodable(c) && !(c.advancedSecurity && c.disableAdvancedSecurity)
    ensures PeerAttrs(e, c).Some? && Asked(e, PeerAttrs(e, c).value) == NormalPeer(c)
  {
    hide PeerAttrs, PeerAttrsOk, LastLeaf, LastNest, EncodeIPs, EncodeSockaddr, DecodeSockaddr, PutUint16, PutUint32;
    hide GetUint16, GetUint32, Encodable, NormalIPs, NormalAddr, DecodeIPs, FlagBits, HasBit;
    EncodedIsOk(e, c);
    PeerSaysAll(e, c);
    EndpointArrives(e, c);
    KeepaliveArrives(e, c);
    AllowedArrive(e, c);
    FlagsArrive(e, c);
    KeepaliveTold(c);
    FlagBitsRead(c);
  }
}

/** The record buffer of the Windows driver: how a configuration is laid out
    (internal/wgwindows/client_windows.go, internal/ioctl) and how a reader walks
    over it. */
module Windows {
  import opened Types
  import opened Text
  import opened Net
  import opened Attributes
  import opened PeerCodec

  const AF_INET := 2
  const AF_INET6 := 23

  const INTERFACE_SIZE := 80
  const PEER_SIZE := 136
  const ALLOWED_IP_SIZE := 24

  const INTERFACE_HAS_PUBLIC_KEY := 1
  const INTERFACE_HAS_PRIVATE_KEY := 2
  const INTERFACE_HAS_LISTEN_PORT := 4
  const INTERFACE_REPLACE_PEERS := 8

  const PEER_HAS_PUBLIC_KEY := 1
  const PEER_HAS_PRESHARED_KEY := 2
  const PEER_HAS_KEEPALIVE := 4
  const PEER_HAS_ENDPOINT := 8
  const PEER_HAS_PROTOCOL_VERSION := 16
  const PEER_REPLACE_ALLOWED_IPS := 32
  const PEER_REMOVE := 64
  const PEER_UPDATE_ONLY := 128

  function Put16(v: nat): (b: seq<byte>)
    requires v < 0x1_0000
    ensures |b| == 2
  {
    PutUint16(Little, v)
  }

  function Put32(v: nat): (b: seq<byte>)
    requires v < 0x1_0000_0000
    ensures |b| == 4
  {
    PutUint32(Little, v)
  }

  function Put64(v: nat): (b: seq<byte>)
    requires v < 0x1_0000_0000_0000_0000
    ensures |b| == 8
  {
    PutUint64(Little, v)
  }

  function Get16(b: seq<byte>): nat
    requires |b| == 2
  {
    GetUint16(Little, b)
  }

  function Get32(b: seq<byte>): nat
    requires |b| == 4
  {
    GetUint32(Little, b)
  }

  function Get64(b: seq<byte>): nat
    requires |b| == 8
  {
    GetUint64(Little, b)
  }

  // ----- the records

  /** RawSockaddrInet after SetIP: 28 bytes, the port in network order. An
      address of neither family leaves it zero. */
  function SockaddrBytes(a: UDPAddr): (b: seq<byte>)
    ensures |b| == 28
  {
    var port := PutUint16(Big, ToUint16(a.port));
    if To4(a.ip).Some? then Put16(AF_INET) + port + To4(a.ip).value + Zeros(20)
    else if To16(a.ip).Some? then Put16(AF_INET6) + port + Zeros(4) + To16(a.ip).value + Zeros(4)
    else Zeros(28)
  }

  function PeerFlags(p: PeerConfig): (flags: nat)
    ensures flags < 256
  {
    PEER_HAS_PUBLIC_KEY
    + (if p.replaceAllowedIPs then PEER_REPLACE_ALLOWED_IPS else 0)
    + (if p.updateOnly then PEER_UPDATE_ONLY else 0)
    + (if p.remove then PEER_REMOVE else 0)
    + (if p.presharedKey.Some? then PEER_HAS_PRESHARED_KEY else 0)
    + (if p.endpoint.Some? then PEER_HAS_ENDPOINT else 0)
    + (if p.keepalive.Some? then PEER_HAS_KEEPALIVE else 0)
  }

  /** ioctl.Peer, a record of 136 bytes. */
  datatype Record = Record(
    flags: nat,
    version: nat,
    publicKey: Key,
    presharedKey: Key,
    keepalive: nat,
    endpoint: seq<byte>,
    txBytes: nat,
    rxBytes: nat,
    lastHandshake: nat,
    allowedIPsCount: nat)
  {
    predicate Fits() {
      && flags < 0x1_0000_0000 && version < 0x1_0000_0000 && keepalive < 0x1_0000 && |endpoint| == 28
      && txBytes < 0x1_0000_0000_0000_0000 && rxBytes < 0x1_0000_0000_0000_0000
      && lastHandshake < 0x1_0000_0000_0000_0000 && allowedIPsCount < 0x1_0000_0000
    }
  }

  function RecordHead(r: Record): (b: seq<byte>)
    requires r.Fits()
    ensures |b| == 72
  {
    Put32(r.flags) + Put32(r.version) + r.publicKey + r.presharedKey
  }

  function RecordMiddle(r: Record): (b: seq<byte>)
    requires r.Fits()
    ensures |b| == 32
  {
    Put16(r.keepalive) + Zeros(2) + r.endpoint
  }

  function RecordCounters(r: Record): (b: seq<byte>)
    requires r.Fits()
    ensures |b| == 24
  {
    Put64(r.txBytes) + Put64(r.rxBytes) + Put64(r.lastHandshake)
  }

  /** The fields in the order of their declaration, aligned. */
  function RecordBytes(r: Record): (b: seq<byte>)
    requires r.Fits()
    ensures |b| == PEER_SIZE
  {
    RecordHead(r) + RecordMiddle(r) + RecordCounters(r) + (Put32(r.allowedIPsCount) + Zeros(4))
  }

  /** The record as the configuration sets it. */
  function RecordOf(p: PeerConfig): (r: Record)
    ensures r.Fits()
  {
    Record(
      PeerFlags(p), 0, p.publicKey, p.presharedKey.GetOr(ZERO_KEY),
      ToUint16(WholeSeconds(p.keepalive.GetOr(0))),
      if p.endpoint.Some? then SockaddrBytes(p.endpoint.value) else Zeros(28),
      0, 0, 0, ToUint32(|p.allowedIPs|))
  }

  function PeerBytes(p: PeerConfig): (b: seq<byte>)
    ensures |b| == PEER_SIZE
  {
    RecordBytes(RecordOf(p))
  }

  function Family(n: IPNet): nat {
    if To4(n.ip).Some? then AF_INET else if To16(n.ip).Some? then AF_INET6 else 0
  }

  /** The first 16 bytes of an address, padded with zeros. */
  function Address16(ip: seq<byte>): (b: seq<byte>)
    ensures |b| == 16
  {
    if |ip| <= 16 then ip + Zeros(16 - |ip|) else ip[..16]
  }

  /** ioctl.AllowedIP. */
  function AllowedBytes(n: IPNet): (b: seq<byte>)
    ensures |b| == ALLOWED_IP_SIZE
  {
    Address16(Normal(n.ip)) + Put16(Family(n)) + [ToUint8(MaskOnes(n.mask))] + Zeros(5)
  }

  function AllAllowedBytes(ips: seq<IPNet>): (b: seq<byte>)
    ensures |b| == ALLOWED_IP_SIZE * |ips|
  {
    if ips == [] then [] else AllowedBytes(ips[0]) + AllAllowedBytes(ips[1..])
  }

  function PeerBlock(p: PeerConfig): (b: seq<byte>)
    ensures |b| == PEER_SIZE + ALLOWED_IP_SIZE * |p.allowedIPs|
  {
    PeerBytes(p) + AllAllowedBytes(p.allowedIPs)
  }

  function AllPeerBlocks(ps: seq<PeerConfig>): seq<byte> {
    if ps == [] then [] else PeerBlock(ps[0]) + AllPeerBlocks(ps[1..])
  }

  function InterfaceFlags(cfg: Config): (flags: nat)
    ensures flags < 16
  {
    (if cfg.replacePeers then INTERFACE_REPLACE_PEERS else 0)
    + (if cfg.privateKey.Some? then INTERFACE_HAS_PRIVATE_KEY else 0)
    + (if cfg.listenPort.Some? then INTERFACE_HAS_LISTEN_PORT else 0)
  }

  /** ioctl.Interface, a record of 80 bytes. */
  datatype Interface = Interface(flags: nat, listenPort: nat, privateKey: Key, publicKey: Key, peerCount: nat) {
    predicate Fits() { flags < 0x1_0000_0000 && listenPort < 0x1_0000 && peerCount < 0x1_0000_0000 }
  }

  function InterfaceRecord(f: Interface): (b: seq<byte>)
    requires f.Fits()
    ensures |b| == INTERFACE_SIZE
  {
    Put32(f.flags) + Put16(f.listenPort) + f.privateKey + f.publicKey + Zeros(2) + Put32(f.peerCount) + Zeros(4)
  }

  /** The interface as the configuration sets it. */
  function InterfaceOf(cfg: Config): (f: Interface)
    ensures f.Fits()
  {
    Interface(InterfaceFlags(cfg), ToUint16(cfg.listenPort.GetOr(0)), cfg.privateKey.GetOr(ZERO_KEY), ZERO_KEY,
              ToUint32(|cfg.peers|))
  }

  function InterfaceBytes(cfg: Config): (b: seq<byte>)
    ensures |b| == INTERFACE_SIZE
  {
    InterfaceRecord(InterfaceOf(cfg))
  }

  /** The whole buffer. */
  function ConfigBytes(cfg: Config): seq<byte> {
    InterfaceBytes(cfg) + AllPeerBlocks(cfg.peers)
  }

  // ----- the builder

  function SizeOf(ps: seq<PeerConfig>): nat {
    if ps == [] then 0 else PEER_SIZE + ALLOWED_IP_SIZE * |ps[0].allowedIPs| + SizeOf(ps[1..])
  }

  lemma {:induction false} BlocksSize(ps: seq<PeerConfig>)
    ensures |AllPeerBlocks(ps)| == SizeOf(ps)
  {
    if ps != [] {
      BlocksSize(ps[1..]);
    }
  }

  /** What the preallocation adds up to. */
  function Preallocation(cfg: Config): nat {
    INTERFACE_SIZE + SizeOf(cfg.peers)
  }

  class ConfigBuilder {
    var buffer: seq<byte>
    var capacity: nat

    constructor ()
      ensures buffer == [] && capacity == 0
    {
      buffer, capacity := [], 0;
    }

    method Preallocate(size: nat)
      modifies this`capacity
      ensures capacity == if buffer == [] then size else old(capacity)
    {
      if buffer == [] {
        capacity := size;
      }
    }

    method AppendInterface(bytes: seq<byte>)
      requires |bytes| == INTERFACE_SIZE
      modifies this`buffer
      ensures buffer == old(buffer) + bytes
    {
      buffer := buffer + bytes;
    }

    method AppendPeer(bytes: seq<byte>)
      requires |bytes| == PEER_SIZE
      modifies this`buffer
      ensures buffer == old(buffer) + bytes
    {
      buffer := buffer + bytes;
    }

    method AppendAllowedIP(bytes: seq<byte>)
      requires |bytes| == ALLOWED_IP_SIZE
      modifies this`buffer
      ensures buffer == old(buffer) + bytes
    {
      buffer := buffer + bytes;
    }
  }

  /** The preallocated size, added up over the peers. */
  method Preallocate(cfg: Config) returns (size: nat)
    ensures size == Preallocation(cfg)
  {
    size := INTERFACE_SIZE + |cfg.peers| * PEER_SIZE;
    for i := 0 to |cfg.peers|
      invariant size + SizeOf(cfg.peers[i..]) == Preallocation(cfg) + (|cfg.peers| - i) * PEER_SIZE
    {
      assert cfg.peers[i..][1..] == cfg.peers[i + 1..];
      size := size + |cfg.peers[i].allowedIPs| * ALLOWED_IP_SIZE;
    }
    assert cfg.peers[|cfg.peers|..] == [];
  }

  /** One peer record and its allowed IPs. */
  method AppendBlock(b: ConfigBuilder, p: PeerConfig)
    modifies b`buffer
    ensures b.buffer == old(b.buffer) + PeerBlock(p)
  {
    hide PeerBytes, AllowedBytes;
    ghost var all := b.buffer + PeerBlock(p);
    b.AppendPeer(PeerBytes(p));
    for j := 0 to |p.allowedIPs|
      invariant b.buffer + AllAllowedBytes(p.allowedIPs[j..]) == all
    {
      assert p.allowedIPs[j..][1..] == p.allowedIPs[j + 1..];
      b.AppendAllowedIP(AllowedBytes(p.allowedIPs[j]));
    }
    assert p.allowedIPs[|p.allowedIPs|..] == [];
  }

  /** The buffer ConfigureDevice hands to the driver. Its length is exactly the
      preallocated capacity up to 4 GiB, and only then. */
  method BuildBuffer(cfg: Config) returns (buffer: seq<byte>, capacity: nat)
    ensures buffer == ConfigBytes(cfg)
    ensures capacity == |buffer| <==> |buffer| < 0x1_0000_0000
  {
    hide InterfaceBytes, PeerBlock, SizeOf;
    var size := Preallocate(cfg);
    var b := new ConfigBuilder();
    b.Preallocate(ToUint32(size));
    b.AppendInterface(InterfaceBytes(cfg));
    for i := 0 to |cfg.peers|
      invariant b.buffer + AllPeerBlocks(cfg.peers[i..]) == ConfigBytes(cfg)
      invariant b.capacity == ToUint32(size)
    {
      assert cfg.peers[i..][1..] == cfg.peers[i + 1..];
      AppendBlock(b, cfg.peers[i]);
    }
    assert cfg.peers[|cfg.peers|..] == [];
    BlocksSize(cfg.peers);
    return b.buffer, b.capacity;
  }

  // ----- the reader

  predicate HasFlag(flags: nat, bit: nat)
    requires bit > 0
  {
    flags / bit % 2 == 1
  }

  /** RawSockaddrInet.IP and Port. */
  function ReadSockaddr(b: seq<byte>): UDPAddr
    requires |b| == 28
  {
    var family := Get16(b[..2]);
    if family == AF_INET then UDPAddr(b[4..8], GetUint16(Big, b[2..4]), "")
    else if family == AF_INET6 then UDPAddr(b[8..24], GetUint16(Big, b[2..4]), "")
    else UDPAddr([], 0, "")
  }

  /** The handshake time, counted from 1601 in units of 100 ns. */
  function ReadHandshake(t: nat): Option<(int, int)> {
    if t == 0 then None else Some(UnixTime(0, WrapInt64((t - 116444736000000000) * 100)))
  }

  /** A peer record, without its allowed IPs. */
  function ReadPeer(b: seq<byte>): Peer
    requires |b| == PEER_SIZE
  {
    var flags := Get32(b[..4]);
    Peer(
      if HasFlag(flags, PEER_HAS_PUBLIC_KEY) then b[8..40] else ZERO_KEY,
      if HasFlag(flags, PEER_HAS_PRESHARED_KEY) then b[40..72] else ZERO_KEY,
      if HasFlag(flags, PEER_HAS_ENDPOINT) then Some(ReadSockaddr(b[76..104])) else None,
      if HasFlag(flags, PEER_HAS_KEEPALIVE) then Get16(b[72..74]) * SECOND else 0,
      ReadHandshake(Get64(b[120..128])),
      WrapInt64(Get64(b[112..120])),
      WrapInt64(Get64(b[104..112])),
      [],
      if HasFlag(flags, PEER_HAS_PROTOCOL_VERSION) then Get32(b[4..8]) else 0,
      false, false, false, false)
  }

  function ReadCount(b: seq<byte>): nat
    requires |b| == PEER_SIZE
  {
    Get32(b[128..132])
  }

  function ReadAllowed(b: seq<byte>): IPNet
    requires |b| == ALLOWED_IP_SIZE
  {
    var family := Get16(b[16..18]);
    if family == AF_INET then IPNet(b[..4], MaskFor(b[18], 4))
    else if family == AF_INET6 then IPNet(b[..16], MaskFor(b[18], 16))
    else IPNet([], [])
  }

  /** n allowed IPs from an offset on; None if the walk leaves the buffer. */
  function WalkIPs(buf: seq<byte>, at: nat, n: nat): Option<seq<IPNet>>
    decreases n
  {
    if n == 0 then Some([])
    else if at + ALLOWED_IP_SIZE > |buf| then None
    else
      match WalkIPs(buf, at + ALLOWED_IP_SIZE, n - 1)
      case Some(rest) => Some([ReadAllowed(buf[at..at + ALLOWED_IP_SIZE])] + rest)
      case None => None
  }

  /** n peers from an offset on; None if the walk leaves the buffer. */
  function WalkPeers(buf: seq<byte>, at: nat, n: nat): Option<seq<Peer>>
    decreases n
  {
    if n == 0 then Some([])
    else if at + PEER_SIZE > |buf| then None
    else
      var record := buf[at..at + PEER_SIZE];
      match (WalkIPs(buf, at + PEER_SIZE, ReadCount(record)),
             WalkPeers(buf, at + PEER_SIZE + ReadCount(record) * ALLOWED_IP_SIZE, n - 1))
      case (Some(ips), Some(rest)) => Some([ReadPeer(record).(allowedIPs := ips)] + rest)
      case _ => None
  }

  /** Where NextPeer goes from the record at an offset. */
  function AfterPeer(buf: seq<byte>, at: nat): nat
    requires at + PEER_SIZE <= |buf|
  {
    at + PEER_SIZE + ReadCount(buf[at..at + PEER_SIZE]) * ALLOWED_IP_SIZE
  }

  /** The peer at an offset, with its allowed IPs. */
  function PeerAt(buf: seq<byte>, at: nat): Peer
    requires at + PEER_SIZE <= |buf|
    requires WalkIPs(buf, at + PEER_SIZE, ReadCount(buf[at..at + PEER_SIZE])).Some?
  {
    var record := buf[at..at + PEER_SIZE];
    ReadPeer(record).(allowedIPs := WalkIPs(buf, at + PEER_SIZE, ReadCount(record)).value)
  }

  function PeerCount(buf: seq<byte>): nat
    requires |buf| >= INTERFACE_SIZE
  {
    Get32(buf[72..76])
  }

  /** The device a reader starts from: its own keys and port, no peers yet. */
  function ReadInterface(b: seq<byte>): Device
    requires |b| == INTERFACE_SIZE
  {
    var flags := Get32(b[..4]);
    Device(
      "",
      if HasFlag(flags, INTERFACE_HAS_PUBLIC_KEY) then b[38..70] else ZERO_KEY,
      false,
      ZERO_FIELDS.(
        privateKey := if HasFlag(flags, INTERFACE_HAS_PRIVATE_KEY) then b[6..38] else ZERO_KEY,
        listenPort := if HasFlag(flags, INTERFACE_HAS_LISTEN_PORT) then Get16(b[4..6]) else 0),
      [])
  }

  function Walk(buf: seq<byte>): Option<seq<Peer>> {
    if |buf| < INTERFACE_SIZE then None else WalkPeers(buf, INTERFACE_SIZE, PeerCount(buf))
  }

  // ----- the walk undoes the builder

  lemma {:induction false} SliceMiddle(a: seq<byte>, b: seq<byte>, c: seq<byte>)
    ensures (a + b + c)[|a|..|a| + |b|] == b
  {}

  /** What a reader finds for an allowed IP. */
  function FoundIP(n: IPNet): IPNet {
    if !IsValidIP(n.ip) then IPNet([], [])
    else IPNet(Normal(n.ip), MaskFor(ToUint8(MaskOnes(n.mask)), |Normal(n.ip)|))
  }

  function FoundIPs(ips: seq<IPNet>): seq<IPNet> {
    seq(|ips|, i requires 0 <= i < |ips| => FoundIP(ips[i]))
  }

  /** What a reader finds for a peer. */
  function FoundPeer(p: PeerConfig): Peer {
    NewPeer(p.publicKey).(
      presharedKey := p.presharedKey.GetOr(ZERO_KEY),
      endpoint := if p.endpoint.Some? then Some(FoundAddr(p.endpoint.value)) else None,
      keepalive := ToUint16(WholeSeconds(p.keepalive.GetOr(0))) * SECOND,
      allowedIPs := FoundIPs(p.allowedIPs))
  }

  function FoundAddr(a: UDPAddr): UDPAddr {
    if IsValidIP(a.ip) then UDPAddr(Normal(a.ip), ToUint16(a.port), "") else UDPAddr([], 0, "")
  }

  function FoundPeers(ps: seq<PeerConfig>): seq<Peer> {
    seq(|ps|, i requires 0 <= i < |ps| => FoundPeer(ps[i]))
  }

  lemma {:induction false} AllowedRead(n: IPNet)
    ensures ReadAllowed(AllowedBytes(n)) == FoundIP(n)
    ensures Get16(AllowedBytes(n)[16..18]) == if To4(n.ip).Some? then 2 else if IsValidIP(n.ip) then 23 else 0
  {
    hide PutUint16, GetUint16, MaskOnes, MaskFor, ToUint8;
    var b := AllowedBytes(n);
    var address, family := Address16(Normal(n.ip)), Put16(Family(n));
    Uint16RoundTrip(Little, Family(n));
    assert b[16..18] == family;
    assert b[18] == ToUint8(MaskOnes(n.mask));
    assert b[..16] == address;
    assert b[..4] == address[..4];
  }

  lemma {:induction false} SockaddrRead(a: UDPAddr)
    ensures ReadSockaddr(SockaddrBytes(a)) == FoundAddr(a)
    ensures IsValidIP(a.ip) ==> SockaddrBytes(a)[2..4] == [ToUint16(a.port) / 0x100, ToUint16(a.port) % 0x100]
    ensures Get16(SockaddrBytes(a)[..2]) == if To4(a.ip).Some? then 2 else if IsValidIP(a.ip) then 23 else 0
  {
    Uint16RoundTrip(Big, ToUint16(a.port));
    Uint16RoundTrip(Little, AF_INET);
    Uint16RoundTrip(Little, AF_INET6);
    var b := SockaddrBytes(a);
    if !IsValidIP(a.ip) {
      assert b[..2] == [0, 0];
      assert Get16([0, 0]) == 0;
    } else {
      hide PutUint16, GetUint16;
      assert b[..2] == Put16(if To4(a.ip).Some? then AF_INET else AF_INET6);
      assert b[2..4] == PutUint16(Big, ToUint16(a.port));
      assert To4(a.ip).Some? ==> b[4..8] == Normal(a.ip);
      assert To4(a.ip).None? ==> b[8..24] == a.ip;
    }
  }

  lemma {:induction false} PartsAt(r: Record)
    requires r.Fits()
    ensures var b := RecordBytes(r);
            && b[..72] == RecordHead(r) && b[72..104] == RecordMiddle(r) && b[104..128] == RecordCounters(r)
            && b[128..132] == Put32(r.allowedIPsCount)
  {
    hide RecordHead, RecordMiddle, RecordCounters, Put32, Zeros;
    var a, m, c, end := RecordHead(r), RecordMiddle(r), RecordCounters(r), Put32(r.allowedIPsCount) + Zeros(4);
    assert a + m + c + end == a + m + (c + end);
    SliceMiddle(a, m, c + end);
    SliceMiddle(a + m, c, end);
    assert a + m + c + end == (a + m + c) + Put32(r.allowedIPsCount) + Zeros(4);
    SliceMiddle(a + m + c, Put32(r.allowedIPsCount), Zeros(4));
  }

  lemma {:induction false} HeadFields(r: Record)
    requires r.Fits()
    ensures var b := RecordHead(r);
            && Get32(b[..4]) == r.flags && Get32(b[4..8]) == r.version
            && b[8..40] == r.publicKey && b[40..72] == r.presharedKey
  {
    hide PutUint32, GetUint32;
    Uint32RoundTrip(Little, r.flags);
    Uint32RoundTrip(Little, r.version);
    var b, f, v := RecordHead(r), Put32(r.flags), Put32(r.version);
    assert b == f + v + (r.publicKey + r.presharedKey);
    SliceMiddle(f, v, r.publicKey + r.presharedKey);
    SliceMiddle(f + v, r.publicKey, r.presharedKey);
    assert b[..4] == f;
    assert b[40..72] == r.presharedKey;
  }

  lemma {:induction false} MiddleFields(r: Record)
    requires r.Fits()
    ensures var b := RecordMiddle(r); Get16(b[..2]) == r.keepalive && b[4..32] == r.endpoint
  {
    hide PutUint16, GetUint16, Zeros;
    Uint16RoundTrip(Little, r.keepalive);
    assert RecordMiddle(r)[..2] == Put16(r.keepalive);
    assert RecordMiddle(r)[4..32] == r.endpoint;
  }

  lemma {:induction false} CounterFields(r: Record)
    requires r.Fits()
    ensures var b := RecordCounters(r);
            Get64(b[..8]) == r.txBytes && Get64(b[8..16]) == r.rxBytes && Get64(b[16..24]) == r.lastHandshake
  {
    hide PutUint64, GetUint64;
    Uint64RoundTrip(Little, r.txBytes);
    Uint64RoundTrip(Little, r.rxBytes);
    Uint64RoundTrip(Little, r.lastHandshake);
    var b, x, y, z := RecordCounters(r), Put64(r.txBytes), Put64(r.rxBytes), Put64(r.lastHandshake);
    assert b[..8] == x;
    SliceMiddle(x, y, z);
    assert b[16..24] == z;
  }

  /** Every field of a record is found where the structure has it. */
  lemma {:induction false} RecordFields(r: Record)
    requires r.Fits()
    ensures var b := RecordBytes(r);
            && Get32(b[..4]) == r.flags && Get32(b[4..8]) == r.version
            && b[8..40] == r.publicKey && b[40..72] == r.presharedKey
            && Get16(b[72..74]) == r.keepalive && b[76..104] == r.endpoint
            && Get64(b[104..112]) == r.txBytes && Get64(b[112..120]) == r.rxBytes
            && Get64(b[120..128]) == r.lastHandshake && Get32(b[128..132]) == r.allowedIPsCount
  {
    hide RecordBytes, RecordHead, RecordMiddle, RecordCounters, PutUint32, GetUint32, Get16, Get64;
    PartsAt(r);
    HeadFields(r);
    MiddleFields(r);
    CounterFields(r);
    Uint32RoundTrip(Little, r.allowedIPsCount);
    var b := RecordBytes(r);
    assert b[..4] == b[..72][..4] && b[4..8] == b[..72][4..8];
    assert b[8..40] == b[..72][8..40] && b[40..72] == b[..72][40..72];
    assert b[72..74] == b[72..104][..2] && b[76..104] == b[72..104][4..32];
    assert b[104..112] == b[104..128][..8] && b[112..120] == b[104..128][8..16] && b[120..128] == b[104..128][16..24];
  }

  /** What the driver reports in a record is what the reader finds: each value
      under its flag, traffic as signed 64-bit numbers, times since 1601. */
  lemma {:induction false} RecordRead(r: Record)
    requires r.Fits()
    ensures ReadPeer(RecordBytes(r)) == Peer(
              if HasFlag(r.flags, 1) then r.publicKey else ZERO_KEY,
              if HasFlag(r.flags, 2) then r.presharedKey else ZERO_KEY,
              if HasFlag(r.flags, 8) then Some(ReadSockaddr(r.endpoint)) else None,
              if HasFlag(r.flags, 4) then r.keepalive * 1_000_000_000 else 0,
              ReadHandshake(r.lastHandshake),
              WrapInt64(r.rxBytes), WrapInt64(r.txBytes),
              [],
              if HasFlag(r.flags, 16) then r.version else 0,
              false, false, false, false)
    ensures ReadCount(RecordBytes(r)) == r.allowedIPsCount
  {
    hide RecordBytes, Get32, Get16, Get64, HasFlag, ReadSockaddr, ReadHandshake, WrapInt64;
    RecordFields(r);
  }

  /** The time of a handshake t * 100 ns after the start of 1601, which is
      11644473600 s before the start of 1970. */
  lemma {:induction false} HandshakeExact(t: nat)
    requires t > 0 && -0x8000_0000_0000_0000 <= (t - 116444736000000000) * 100 < 0x8000_0000_0000_0000
    ensures ReadHandshake(0) == None
    ensures ReadHandshake(t).Some?
    ensures var (s, n) := ReadHandshake(t).value;
            0 <= n < 1_000_000_000 && (s + 11_644_473_600) * 1_000_000_000 + n == t * 100
  {
    hide UnixTime, WrapInt64;
    var ns := (t - 116444736000000000) * 100;
    WrapExact(ns);
    UnixExact(0, ns);
  }

  /** Each flag of a peer record, bit by bit. */
  lemma {:induction false} FlagsRead(p: PeerConfig)
    ensures var f := PeerFlags(p);
            && HasFlag(f, 1)
            && (HasFlag(f, 2) <==> p.presharedKey.Some?)
            && (HasFlag(f, 4) <==> p.keepalive.Some?)
            && (HasFlag(f, 8) <==> p.endpoint.Some?)
            && !HasFlag(f, 16)
            && (HasFlag(f, 32) <==> p.replaceAllowedIPs)
            && (HasFlag(f, 64) <==> p.remove)
            && (HasFlag(f, 128) <==> p.updateOnly)
  {}

  lemma {:induction false} PeerRead(p: PeerConfig)
    ensures ReadPeer(PeerBytes(p)).(allowedIPs := FoundIPs(p.allowedIPs)) == FoundPeer(p)
    ensures |p.allowedIPs| < 0x1_0000_0000 ==> ReadCount(PeerBytes(p)) == |p.allowedIPs|
  {
    hide ReadPeer, ReadCount, RecordBytes, PeerFlags, SockaddrBytes, FoundIPs, FoundAddr, HasFlag, ReadSockaddr;
    hide UnixTime;
    hide WrapInt64;
    WrapExact(0);
    FlagsRead(p);
    RecordRead(RecordOf(p));
    if p.endpoint.Some? {
      SockaddrRead(p.endpoint.value);
    }
  }

  /** What a record asks of the driver, by the bits of its flags. */
  function AskedPeer(b: seq<byte>, ips: seq<IPNet>): PeerConfig
    requires |b| == PEER_SIZE
  {
    var flags := Get32(b[..4]);
    PeerConfig(
      b[8..40], HasFlag(flags, 64), HasFlag(flags, 128),
      if HasFlag(flags, 2) then Some(b[40..72]) else None,
      if HasFlag(flags, 8) then Some(ReadSockaddr(b[76..104])) else None,
      if HasFlag(flags, 4) then Some(Get16(b[72..74]) * 1_000_000_000) else None,
      HasFlag(flags, 32), ips, false, false)
  }

  /** The driver is asked for exactly what the configuration asks, settings and
      flags alike; it has no AmneziaWG flag. */
  lemma {:induction false} PeerIsAsked(p: PeerConfig)
    ensures AskedPeer(PeerBytes(p), FoundIPs(p.allowedIPs)) == p.(
              endpoint := if p.endpoint.Some? then Some(FoundAddr(p.endpoint.value)) else None,
              keepalive := if p.keepalive.Some? then Some(ToUint16(WholeSeconds(p.keepalive.value)) * SECOND) else None,
              allowedIPs := FoundIPs(p.allowedIPs), advancedSecurity := false, disableAdvancedSecurity := false)
  {
    hide RecordBytes, PeerFlags, SockaddrBytes, FoundIPs, FoundAddr, HasFlag, ReadSockaddr, WholeSeconds, Get32, Get16;
    FlagsRead(p);
    RecordFields(RecordOf(p));
    if p.endpoint.Some? {
      SockaddrRead(p.endpoint.value);
    }
  }

  /** One step of the allowed-IP walk. */
  lemma {:induction false} WalkIPsStep(buf: seq<byte>, at: nat, n: nat)
    requires n > 0
    ensures WalkIPs(buf, at, n).Some? <==>
              at + ALLOWED_IP_SIZE <= |buf| && WalkIPs(buf, at + ALLOWED_IP_SIZE, n - 1).Some?
    ensures WalkIPs(buf, at, n).Some? ==>
              WalkIPs(buf, at, n).value
              == [ReadAllowed(buf[at..at + ALLOWED_IP_SIZE])] + WalkIPs(buf, at + ALLOWED_IP_SIZE, n - 1).value
  {
    hide ReadAllowed;
  }

  lemma {:induction false} WalksEnd(buf: seq<byte>, at: nat)
    ensures WalkIPs(buf, at, 0) == Some([])
    ensures WalkPeers(buf, at, 0) == Some([])
  {}

  /** One step of the peer walk. */
  lemma {:induction false} WalkPeersStep(buf: seq<byte>, at: nat, n: nat)
    requires n > 0
    ensures WalkPeers(buf, at, n).Some? ==>
              && at + PEER_SIZE <= |buf|
              && WalkIPs(buf, at + PEER_SIZE, ReadCount(buf[at..at + PEER_SIZE])).Some?
              && WalkPeers(buf, AfterPeer(buf, at), n - 1).Some?
    ensures at + PEER_SIZE <= |buf|
            && WalkIPs(buf, at + PEER_SIZE, ReadCount(buf[at..at + PEER_SIZE])).Some?
            && WalkPeers(buf, AfterPeer(buf, at), n - 1).Some?
            ==> && WalkPeers(buf, at, n).Some?
                && WalkPeers(buf, at, n).value
                   == [PeerAt(buf, at)] + WalkPeers(buf, AfterPeer(buf, at), n - 1).value
  {
    hide ReadCount, ReadPeer, WalkIPs;
  }

  lemma {:induction false} FoundIPsStep(ips: seq<IPNet>)
    ensures ips == [] ==> FoundIPs(ips) == [] && AllAllowedBytes(ips) == []
    ensures ips != [] ==>
              && FoundIPs(ips) == [FoundIP(ips[0])] + FoundIPs(ips[1..])
              && AllAllowedBytes(ips) == AllowedBytes(ips[0]) + AllAllowedBytes(ips[1..])
  {
    hide FoundIP, AllowedBytes;
  }

  lemma {:induction false} IPsWalk(before: seq<byte>, ips: seq<IPNet>, later: seq<byte>)
    ensures WalkIPs(before + AllAllowedBytes(ips) + later, |before|, |ips|) == Some(FoundIPs(ips))
    decreases |ips|
  {
    hide AllowedBytes, ReadAllowed, FoundIP, FoundIPs, WalkIPs, AllAllowedBytes;
    FoundIPsStep(ips);
    var buf := before + AllAllowedBytes(ips) + later;
    if ips == [] {
      WalksEnd(buf, |before|);
    } else {
      var a, rest := AllowedBytes(ips[0]), AllAllowedBytes(ips[1..]);
      assert buf == before + a + (rest + later);
      SliceMiddle(before, a, rest + later);
      assert buf == (before + a) + rest + later;
      IPsWalk(before + a, ips[1..], later);
      AllowedRead(ips[0]);
      WalkIPsStep(buf, |before|, |ips|);
    }
  }

  /** The counts fit 32 bits. */
  predicate Layoutable(ps: seq<PeerConfig>) {
    forall i :: 0 <= i < |ps| ==> |ps[i].allowedIPs| < 0x1_0000_0000
  }

  lemma {:induction false} FoundPeersStep(ps: seq<PeerConfig>)
    ensures ps == [] ==> FoundPeers(ps) == [] && AllPeerBlocks(ps) == []
    ensures ps != [] ==>
              && FoundPeers(ps) == [FoundPeer(ps[0])] + FoundPeers(ps[1..])
              && AllPeerBlocks(ps) == PeerBytes(ps[0]) + AllAllowedBytes(ps[0].allowedIPs) + AllPeerBlocks(ps[1..])
  {
    hide FoundPeer, PeerBytes, AllAllowedBytes;
  }

  lemma {:induction false} PeersWalk(before: seq<byte>, ps: seq<PeerConfig>)
    requires Layoutable(ps)
    ensures WalkPeers(before + AllPeerBlocks(ps), |before|, |ps|) == Some(FoundPeers(ps))
    decreases |ps|
  {
    hide PeerBytes, ReadPeer, ReadCount, FoundPeer, FoundPeers, FoundIPs;
    hide WalkIPs, WalkPeers, AllAllowedBytes, AllPeerBlocks;
    FoundPeersStep(ps);
    var buf := before + AllPeerBlocks(ps);
    if ps == [] {
      WalksEnd(buf, |before|);
    } else {
      var p := ps[0];
      var record, ips, later := PeerBytes(p), AllAllowedBytes(p.allowedIPs), AllPeerBlocks(ps[1..]);
      PeerRead(p);
      assert buf == before + record + (ips + later);
      SliceMiddle(before, record, ips + later);
      assert buf == (before + record) + ips + later;
      IPsWalk(before + record, p.allowedIPs, later);
      assert buf == (before + record + ips) + later;
      PeersWalk(before + record + ips, ps[1..]);
      WalkPeersStep(buf, |before|, |ps|);
    }
  }

  /** The interface record stands at the front of the buffer. */
  lemma {:induction false} InFront(cfg: Config, i: nat, j: nat)
    requires i <= j <= INTERFACE_SIZE
    ensures ConfigBytes(cfg)[i..j] == InterfaceBytes(cfg)[i..j]
  {
    hide InterfaceBytes, AllPeerBlocks;
  }

  lemma {:induction false} CountRead(cfg: Config)
    requires |cfg.peers| < 0x1_0000_0000
    ensures PeerCount(ConfigBytes(cfg)) == |cfg.peers|
  {
    hide Get32, InterfaceRecord, AllPeerBlocks, InterfaceFlags;
    InterfaceFields(InterfaceOf(cfg));
    InFront(cfg, 72, 76);
  }

  lemma {:induction false} InterfacePieces(f: Interface)
    requires f.Fits()
    ensures var b := InterfaceRecord(f);
            && b[..4] == Put32(f.flags) && b[4..6] == Put16(f.listenPort)
            && b[6..38] == f.privateKey && b[38..70] == f.publicKey && b[72..76] == Put32(f.peerCount)
  {
    hide Put16, Put32, Zeros, InterfaceRecord;
    InterfaceStart(f);
    InterfaceEnd(f);
  }

  lemma {:induction false} InterfaceStart(f: Interface)
    requires f.Fits()
    ensures var b := InterfaceRecord(f);
            b[..4] == Put32(f.flags) && b[4..6] == Put16(f.listenPort) && b[6..38] == f.privateKey
  {
    hide Put16, Put32, Zeros;
    var a, port, key: seq<byte> := Put32(f.flags), Put16(f.listenPort), f.privateKey;
    var rest := f.publicKey + Zeros(2) + Put32(f.peerCount) + Zeros(4);
    var b := InterfaceRecord(f);
    assert b == a + port + (key + rest);
    SliceMiddle(a, port, key + rest);
    assert b == (a + port) + key + rest;
    SliceMiddle(a + port, key, rest);
  }

  lemma {:induction false} InterfaceEnd(f: Interface)
    requires f.Fits()
    ensures var b := InterfaceRecord(f); b[38..70] == f.publicKey && b[72..76] == Put32(f.peerCount)
  {
    hide Put16, Put32, Zeros;
    var front, pub: seq<byte> := Put32(f.flags) + Put16(f.listenPort) + f.privateKey, f.publicKey;
    var n := Put32(f.peerCount);
    var b := InterfaceRecord(f);
    assert b == front + pub + (Zeros(2) + n + Zeros(4));
    SliceMiddle(front, pub, Zeros(2) + n + Zeros(4));
    SliceMiddle(front + pub + Zeros(2), n, Zeros(4));
  }

  /** Every field of the interface record is found where the structure has it. */
  lemma {:induction false} InterfaceFields(f: Interface)
    requires f.Fits()
    ensures var b := InterfaceRecord(f);
            && Get32(b[..4]) == f.flags && Get16(b[4..6]) == f.listenPort
            && b[6..38] == f.privateKey && b[38..70] == f.publicKey && Get32(b[72..76]) == f.peerCount
  {
    hide InterfaceRecord, PutUint16, GetUint16, PutUint32, GetUint32;
    InterfacePieces(f);
    Uint32RoundTrip(Little, f.flags);
    Uint16RoundTrip(Little, f.listenPort);
    Uint32RoundTrip(Little, f.peerCount);
  }

  /** The interface's flags, bit by bit. */
  lemma {:induction false} InterfaceFlagsRead(cfg: Config)
    ensures var f := InterfaceFlags(cfg);
            && !HasFlag(f, 1)
            && (HasFlag(f, 2) <==> cfg.privateKey.Some?)
            && (HasFlag(f, 4) <==> cfg.listenPort.Some?)
            && (HasFlag(f, 8) <==> cfg.replacePeers)
  {}

  /** What a reader finds for the device itself. */
  function FoundInterface(cfg: Config): Device {
    ZERO_DEVICE.(fields := ZERO_FIELDS.(
      privateKey := cfg.privateKey.GetOr(ZERO_KEY),
      listenPort := ToUint16(cfg.listenPort.GetOr(0))))
  }

  /** What the driver reports of the interface is what the reader finds. */
  lemma {:induction false} InterfaceReported(f: Interface)
    requires f.Fits()
    ensures ReadInterface(InterfaceRecord(f)) == ZERO_DEVICE.(
              publicKey := if HasFlag(f.flags, 1) then f.publicKey else ZERO_KEY,
              fields := ZERO_FIELDS.(
                privateKey := if HasFlag(f.flags, 2) then f.privateKey else ZERO_KEY,
                listenPort := if HasFlag(f.flags, 4) then f.listenPort else 0))
  {
    hide InterfaceRecord, Get32, Get16, HasFlag;
    InterfaceFields(f);
  }

  lemma {:induction false} InterfaceRead(cfg: Config)
    ensures ReadInterface(InterfaceBytes(cfg)) == FoundInterface(cfg)
  {
    hide InterfaceRecord, ReadInterface, InterfaceFlags, HasFlag;
    InterfaceReported(InterfaceOf(cfg));
    InterfaceFlagsRead(cfg);
  }

  /** What the interface record asks of the driver. */
  function AskedInterface(b: seq<byte>): Config
    requires |b| == INTERFACE_SIZE
  {
    var flags := Get32(b[..4]);
    NO_CONFIG.(
      privateKey := if HasFlag(flags, 2) then Some(b[6..38]) else None,
      listenPort := if HasFlag(flags, 4) then Some(Get16(b[4..6])) else None,
      replacePeers := HasFlag(flags, 8))
  }

  /** The driver is asked for the key and the port that are set, and to replace
      the peers exactly when the configuration asks it. */
  lemma {:induction false} InterfaceIsAsked(cfg: Config)
    ensures AskedInterface(InterfaceBytes(cfg)) == NO_CONFIG.(
              privateKey := cfg.privateKey,
              listenPort := if cfg.listenPort.Some? then Some(ToUint16(cfg.listenPort.value)) else None,
              replacePeers := cfg.replacePeers)
  {
    hide InterfaceRecord, InterfaceFlags, HasFlag, Get32, Get16;
    InterfaceFields(InterfaceOf(cfg));
    InterfaceFlagsRead(cfg);
  }

  lemma {:induction false} SizeBounds(ps: seq<PeerConfig>)
    ensures PEER_SIZE * |ps| <= SizeOf(ps)
    ensures forall i :: 0 <= i < |ps| ==> ALLOWED_IP_SIZE * |ps[i].allowedIPs| <= SizeOf(ps)
  {
    if ps != [] {
      SizeBounds(ps[1..]);
      forall i | 0 <= i < |ps| ensures ALLOWED_IP_SIZE * |ps[i].allowedIPs| <= SizeOf(ps) {
        assert i > 0 ==> ps[i] == ps[1..][i - 1];
      }
    }
  }

  /** For every configuration whose buffer is smaller than 4 GiB: a reader finds
      the key and port that were set, its walk by offsets stays inside the
      buffer, and it visits exactly the appended peers and allowed IPs, in
      order. */
  lemma {:induction false} WalkFindsAll(cfg: Config)
    requires Preallocation(cfg) < 0x1_0000_0000
    ensures Walk(ConfigBytes(cfg)) == Some(FoundPeers(cfg.peers))
    ensures ReadInterface(ConfigBytes(cfg)[..INTERFACE_SIZE]) == FoundInterface(cfg)
  {
    hide InterfaceBytes, SizeOf, ReadInterface, FoundInterface, PeerCount, WalkPeers, AllPeerBlocks, FoundPeers;
    SizeBounds(cfg.peers);
    CountRead(cfg);
    InterfaceRead(cfg);
    PeersWalk(InterfaceBytes(cfg), cfg.peers);
    InFront(cfg, 0, INTERFACE_SIZE);
  }

  lemma {:induction false} FoundIPsAreNormal(ips: seq<IPNet>)
    requires forall i :: 0 <= i < |ips| ==> Canonical(ips[i])
    ensures FoundIPs(ips) == NormalIPs(ips)
  {
    hide MaskLength, CIDRMask;
    forall i | 0 <= i < |ips| ensures FoundIP(ips[i]) == NormalIP(ips[i]) {
      MaskCanonical(ips[i].mask);
      assert ToUint8(MaskOnes(ips[i].mask)) == MaskOnes(ips[i].mask);
    }
  }

  /** For a peer whose addresses and keepalive are in order, the Windows reader
      finds what the netlink decoder finds, but for the AmneziaWG flag this
      driver does not have. */
  lemma {:induction false} FoundAsTold(p: PeerConfig)
    requires Encodable(p)
    ensures FoundPeer(p) == Told(p).(advancedSecurity := false)
  {
    hide FoundIPs, NormalIPs, Canonical;
    FoundIPsAreNormal(p.allowedIPs);
  }

  // ----- Device: the walk as the code does it

  /** The allowed IPs of the peer record that ends at `first`. */
  method ReadIPs(buf: seq<byte>, first: nat, count: nat) returns (ips: seq<IPNet>)
    requires WalkIPs(buf, first, count).Some?
    ensures Some(ips) == WalkIPs(buf, first, count)
  {
    hide ReadAllowed, WalkIPs;
    ghost var all := WalkIPs(buf, first, count).value;
    ips := [];
    var a: Option<nat> := None;
    for j := 0 to count
      invariant a == if j == 0 then None else Some(first + (j - 1) * ALLOWED_IP_SIZE)
      invariant var left := WalkIPs(buf, first + j * ALLOWED_IP_SIZE, count - j);
                left.Some? && all == ips + left.value
    {
      if a.None? {
        a := Some(first);
      } else {
        a := Some(a.value + ALLOWED_IP_SIZE);
      }
      WalkIPsStep(buf, a.value, count - j);
      ips := ips + [ReadAllowed(buf[a.value..a.value + ALLOWED_IP_SIZE])];
    }
    WalksEnd(buf, first + count * ALLOWED_IP_SIZE);
    assert ips + [] == ips;
  }

  /** The peer records from `first` on. */
  method ReadPeers(buf: seq<byte>, first: nat, count: nat) returns (peers: seq<Peer>)
    requires WalkPeers(buf, first, count).Some?
    ensures Some(peers) == WalkPeers(buf, first, count)
  {
    hide ReadCount, ReadPeer, WalkIPs, WalkPeers;
    ghost var all := WalkPeers(buf, first, count).value;
    peers := [];
    var p: Option<nat> := None;
    ghost var next := first;
    for i := 0 to count
      invariant i == 0 <==> p.None?
      invariant p.Some? ==> p.value + PEER_SIZE <= |buf|
      invariant next == if p.Some? then AfterPeer(buf, p.value) else first
      invariant WalkPeers(buf, next, count - i).Some?
      invariant all == peers + WalkPeers(buf, next, count - i).value
    {
      p := if p.None? then Some(first) else Some(AfterPeer(buf, p.value));
      WalkPeersStep(buf, p.value, count - i);
      next := AfterPeer(buf, p.value);
      var record := buf[p.value..p.value + PEER_SIZE];
      var ips := ReadIPs(buf, p.value + PEER_SIZE, ReadCount(record));
      peers := peers + [ReadPeer(record).(allowedIPs := ips)];
    }
    WalksEnd(buf, next);
    assert peers + [] == peers;
  }

  /** The device in a buffer the driver filled. Each step reads inside the
      buffer as long as the walk by its counts stays in it. */
  method ReadDevice(buf: seq<byte>) returns (d: Device)
    requires Walk(buf).Some?
    ensures Some(d.peers) == Walk(buf)
    ensures d.(peers := []) == ReadInterface(buf[..INTERFACE_SIZE])
  {
    hide PeerCount, Get32, Get16, HasFlag, WalkPeers;
    d := ReadInterface(buf[..INTERFACE_SIZE]);
    var peers := ReadPeers(buf, INTERFACE_SIZE, PeerCount(buf));
    d := d.(peers := peers);
  }
}

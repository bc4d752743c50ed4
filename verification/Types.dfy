/** The configuration and device records of package wgtypes.

    Go's optional pointers become `Option`, byte arrays become sequences of
    `byte`, durations are whole numbers of nanoseconds. */
module Types {
  datatype Option<+T> = None | Some(value: T) {
    function GetOr(default: T): T {
      match this
      case Some(v) => v
      case None => default
    }
  }

  type byte = x: int | 0 <= x < 256

  const KEY_LEN := 32
  type Key = k: seq<byte> | |k| == KEY_LEN witness Zeros(KEY_LEN)
  const ZERO_KEY: Key := Zeros(KEY_LEN)

  function Zeros(n: nat): (z: seq<byte>)
    ensures |z| == n && forall i :: 0 <= i < n ==> z[i] == 0
  {
    if n == 0 then [] else [0] + Zeros(n - 1)
  }

  /** Nanoseconds in a second: the unit of time.Duration. */
  const SECOND := 1_000_000_000

  /** A duration in whole seconds: Go's division drops the fraction towards zero. */
  function WholeSeconds(d: int): int {
    if d >= 0 then d / SECOND else -(-d / SECOND)
  }

  /** Truncation: less than a second is lost, and the sign stays. */
  lemma {:induction false} WholeSecondsExact(d: int)
    ensures -1_000_000_000 < d - WholeSeconds(d) * 1_000_000_000 < 1_000_000_000
    ensures if d >= 0 then 0 <= WholeSeconds(d) * 1_000_000_000 <= d else d <= WholeSeconds(d) * 1_000_000_000 <= 0
  {}

  /** net.IPNet: an address of 4 or 16 bytes with its mask bytes. */
  datatype IPNet = IPNet(ip: seq<byte>, mask: seq<byte>)

  datatype UDPAddr = UDPAddr(ip: seq<byte>, port: int, zone: string)

  datatype PeerConfig = PeerConfig(
    publicKey: Key,
    remove: bool,
    updateOnly: bool,
    presharedKey: Option<Key>,
    endpoint: Option<UDPAddr>,
    keepalive: Option<int>,
    replaceAllowedIPs: bool,
    allowedIPs: seq<IPNet>,
    advancedSecurity: bool,
    disableAdvancedSecurity: bool)

  datatype Config = Config(
    privateKey: Option<Key>,
    listenPort: Option<int>,
    firewallMark: Option<int>,
    replacePeers: bool,
    peers: seq<PeerConfig>,
    jc: Option<int>, jmin: Option<int>, jmax: Option<int>,
    s1: Option<int>, s2: Option<int>, s3: Option<int>, s4: Option<int>,
    h1: Option<string>, h2: Option<string>, h3: Option<string>, h4: Option<string>,
    i1: Option<string>, i2: Option<string>, i3: Option<string>, i4: Option<string>, i5: Option<string>)

  /** The configuration that sets nothing. */
  const NO_CONFIG := Config(None, None, None, false, [],
                            None, None, None, None, None, None, None,
                            None, None, None, None, None, None, None, None, None)

  /** The device-wide values a configuration can set. */
  datatype Fields = Fields(
    privateKey: Key,
    listenPort: int,
    firewallMark: int,
    jc: int, jmin: int, jmax: int,
    s1: int, s2: int, s3: int, s4: int,
    h1: string, h2: string, h3: string, h4: string,
    i1: string, i2: string, i3: string, i4: string, i5: string)

  const ZERO_FIELDS := Fields(ZERO_KEY, 0, 0, 0, 0, 0, 0, 0, 0, 0, "", "", "", "", "", "", "", "", "")

  /** A peer as a device reports it. `lastHandshake` is None for the zero
      time, and else Unix seconds and nanoseconds. */
  datatype Peer = Peer(
    publicKey: Key,
    presharedKey: Key,
    endpoint: Option<UDPAddr>,
    keepalive: int,
    lastHandshake: Option<(int, int)>,
    receiveBytes: int,
    transmitBytes: int,
    allowedIPs: seq<IPNet>,
    protocolVersion: int,
    advancedSecurity: bool,
    awgPeerFlagsKnown: bool,
    fixedHeaders: bool,
    noS4: bool)

  /** The zero Peer with a public key. */
  function NewPeer(key: Key): Peer {
    Peer(key, ZERO_KEY, None, 0, None, 0, 0, [], 0, false, false, false, false)
  }

  datatype Device = Device(
    name: string,
    publicKey: Key,
    isAmnezia: bool,
    fields: Fields,
    peers: seq<Peer>)

  const ZERO_DEVICE := Device("", ZERO_KEY, false, ZERO_FIELDS, [])

  /** What a device's fields become when `cfg` is applied: a field that is set
      takes the new value, any other keeps the current one. */
  function ApplyFields(f: Fields, cfg: Config): Fields {
    Fields(
      cfg.privateKey.GetOr(f.privateKey),
      cfg.listenPort.GetOr(f.listenPort),
      cfg.firewallMark.GetOr(f.firewallMark),
      cfg.jc.GetOr(f.jc), cfg.jmin.GetOr(f.jmin), cfg.jmax.GetOr(f.jmax),
      cfg.s1.GetOr(f.s1), cfg.s2.GetOr(f.s2), cfg.s3.GetOr(f.s3), cfg.s4.GetOr(f.s4),
      cfg.h1.GetOr(f.h1), cfg.h2.GetOr(f.h2), cfg.h3.GetOr(f.h3), cfg.h4.GetOr(f.h4),
      cfg.i1.GetOr(f.i1), cfg.i2.GetOr(f.i2), cfg.i3.GetOr(f.i3), cfg.i4.GetOr(f.i4), cfg.i5.GetOr(f.i5))
  }
}

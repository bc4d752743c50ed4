/** parseDevice and deviceParser (internal/wguser/parse.go): a device is put
    together line by line. */
module UapiParse {
  import opened Types
  import opened Text
  import opened UapiLines

  /** What the parser calls outside this package: Curve25519 and the text forms
      of addresses. */
  datatype Host = Host(
    publicKeyOf: Key -> Key,
    printAddr: UDPAddr -> string,
    parseAddr: string -> Option<UDPAddr>,
    printCIDR: IPNet -> string,
    parseCIDR: string -> Option<IPNet>)

  /** The first error a parser meets. */
  datatype Failure =
    | Errno(n: int)
    | BadInt(text: string)
    | BadKey(text: string)
    | BadAddr(text: string)
    | BadCIDR(text: string)

  // ----- the keywords

  /** The keys of device lines, and of peer lines. */
  datatype DeviceKey =
    | PrivateKey | ListenPort | Fwmark
    | Jc | Jmin | Jmax | S1 | S2 | S3 | S4
    | H1 | H2 | H3 | H4 | I1 | I2 | I3 | I4 | I5
    | OtherDeviceKey

  datatype PeerKey =
    | PresharedKey | Endpoint | HandshakeSec | HandshakeNsec | TxBytes | RxBytes
    | Keepalive | AllowedIP | ProtocolVersion
    | OtherPeerKey

  function DeviceKeyOf(key: string): DeviceKey {
    if key == "private_key" then PrivateKey
    else if key == "listen_port" then ListenPort
    else if key == "fwmark" then Fwmark
    else if key == "jc" then Jc
    else if key == "jmin" then Jmin
    else if key == "jmax" then Jmax
    else if key == "s1" then S1
    else if key == "s2" then S2
    else if key == "s3" then S3
    else if key == "s4" then S4
    else if key == "h1" then H1
    else if key == "h2" then H2
    else if key == "h3" then H3
    else if key == "h4" then H4
    else if key == "i1" then I1
    else if key == "i2" then I2
    else if key == "i3" then I3
    else if key == "i4" then I4
    else if key == "i5" then I5
    else OtherDeviceKey
  }

  function PeerKeyOf(key: string): PeerKey {
    if key == "preshared_key" then PresharedKey
    else if key == "endpoint" then Endpoint
    else if key == "last_handshake_time_sec" then HandshakeSec
    else if key == "last_handshake_time_nsec" then HandshakeNsec
    else if key == "tx_bytes" then TxBytes
    else if key == "rx_bytes" then RxBytes
    else if key == "persistent_keepalive_interval" then Keepalive
    else if key == "allowed_ip" then AllowedIP
    else if key == "protocol_version" then ProtocolVersion
    else OtherPeerKey
  }

  // ----- one step of the parser

  /** The parser's fields. */
  datatype State = State(
    d: Device,
    err: Option<Failure>,
    parsePeers: bool,
    peers: nat,
    hsSec: int,
    hsNano: int)

  const START := State(ZERO_DEVICE, None, false, 0, 0, 0)

  /** The current peer exists, and peers are being parsed when there is one. */
  predicate Sound(s: State) {
    s.peers == |s.d.peers| && (s.parsePeers <==> s.peers > 0)
  }

  /** The sticky-error helpers: once there is an error they parse nothing. */
  function Fail(s: State, f: Failure): State {
    if s.err.Some? then s else s.(err := Some(f))
  }

  /** parseInt and parseInt64: on a 64-bit platform they are the same. */
  function IntIn(s: State, v: string): int {
    if s.err.Some? then 0 else Atoi(v).GetOr(0)
  }

  function AfterInt(s: State, v: string): State {
    if Atoi(v).Some? then s else Fail(s, BadInt(v))
  }

  function KeyIn(s: State, v: string): Key {
    if s.err.Some? then ZERO_KEY else ParseHexKey(v).GetOr(ZERO_KEY)
  }

  function AfterKey(s: State, v: string): State {
    if ParseHexKey(v).Some? then s else Fail(s, BadKey(v))
  }

  function AddrIn(t: Host, s: State, v: string): Option<UDPAddr> {
    if s.err.Some? then None else t.parseAddr(v)
  }

  function AfterAddr(t: Host, s: State, v: string): State {
    if t.parseAddr(v).Some? then s else Fail(s, BadAddr(v))
  }

  function CIDRIn(t: Host, s: State, v: string): Option<IPNet> {
    if s.err.Some? then None else t.parseCIDR(v)
  }

  function AfterCIDR(t: Host, s: State, v: string): State {
    if t.parseCIDR(v).Some? then s else Fail(s, BadCIDR(v))
  }

  function SetFields(s: State, f: Fields): State { s.(d := s.d.(fields := f)) }

  predicate IsIntKey(k: DeviceKey) {
    k.ListenPort? || k.Fwmark? || k.Jc? || k.Jmin? || k.Jmax? || k.S1? || k.S2? || k.S3? || k.S4?
  }

  predicate IsTextKey(k: DeviceKey) {
    k.H1? || k.H2? || k.H3? || k.H4? || k.I1? || k.I2? || k.I3? || k.I4? || k.I5?
  }

  function SetInt(f: Fields, k: DeviceKey, n: int): Fields {
    match k
    case ListenPort => f.(listenPort := n)
    case Fwmark => f.(firewallMark := n)
    case Jc => f.(jc := n)
    case Jmin => f.(jmin := n)
    case Jmax => f.(jmax := n)
    case S1 => f.(s1 := n)
    case S2 => f.(s2 := n)
    case S3 => f.(s3 := n)
    case S4 => f.(s4 := n)
    case _ => f
  }

  function SetText(f: Fields, k: DeviceKey, s: string): Fields {
    match k
    case H1 => f.(h1 := s)
    case H2 => f.(h2 := s)
    case H3 => f.(h3 := s)
    case H4 => f.(h4 := s)
    case I1 => f.(i1 := s)
    case I2 => f.(i2 := s)
    case I3 => f.(i3 := s)
    case I4 => f.(i4 := s)
    case I5 => f.(i5 := s)
    case _ => f
  }

  /** A device line; Jc also tells that this is an AmneziaWG device. */
  function DeviceStep(s: State, key: DeviceKey, v: string): (r: State)
    ensures r.d.peers == s.d.peers && r.peers == s.peers && r.parsePeers == s.parsePeers
  {
    var f := s.d.fields;
    if key.PrivateKey? then SetFields(AfterKey(s, v), f.(privateKey := KeyIn(s, v)))
    else if IsIntKey(key) then
      var r := SetFields(AfterInt(s, v), SetInt(f, key, IntIn(s, v)));
      if key.Jc? then r.(d := r.d.(isAmnezia := true)) else r
    else if IsTextKey(key) then SetFields(s, SetText(f, key, v))
    else s
  }

  function SetPeer(s: State, p: Peer): State
    requires Sound(s) && s.peers > 0
  {
    s.(d := s.d.(peers := s.d.peers[s.peers - 1 := p]))
  }

  /** setHandshakeTime: both zero means no handshake yet. */
  function HandshakeTime(sec: int, nano: int): Option<(int, int)> {
    if sec == 0 && nano == 0 then None else Some(UnixTime(sec, nano))
  }

  predicate IsCountKey(k: PeerKey) { k.TxBytes? || k.RxBytes? || k.Keepalive? || k.ProtocolVersion? }

  function SetCount(p: Peer, k: PeerKey, n: int): Peer {
    match k
    case TxBytes => p.(transmitBytes := n)
    case RxBytes => p.(receiveBytes := n)
    case Keepalive => p.(keepalive := WrapInt64(n * SECOND))
    case ProtocolVersion => p.(protocolVersion := n)
    case _ => p
  }

  function AddAllowed(p: Peer, cidr: Option<IPNet>): Peer {
    if cidr.Some? then p.(allowedIPs := p.allowedIPs + [cidr.value]) else p
  }

  /** A line of the current peer. */
  function PeerStep(t: Host, s: State, key: PeerKey, v: string): (r: State)
    requires Sound(s) && s.peers > 0
    ensures Sound(r) && r.peers == s.peers
  {
    var p := s.d.peers[s.peers - 1];
    match key
    case PresharedKey => SetPeer(AfterKey(s, v), p.(presharedKey := KeyIn(s, v)))
    case Endpoint => SetPeer(AfterAddr(t, s, v), p.(endpoint := AddrIn(t, s, v)))
    case HandshakeSec =>
      var sec := IntIn(s, v);
      SetPeer(AfterInt(s, v), p.(lastHandshake := HandshakeTime(sec, s.hsNano))).(hsSec := sec)
    case HandshakeNsec =>
      var nano := IntIn(s, v);
      SetPeer(AfterInt(s, v), p.(lastHandshake := HandshakeTime(s.hsSec, nano))).(hsNano := nano)
    case AllowedIP => SetPeer(AfterCIDR(t, s, v), AddAllowed(p, CIDRIn(t, s, v)))
    case OtherPeerKey => s
    case _ => SetPeer(AfterInt(s, v), SetCount(p, key, IntIn(s, v)))
  }

  /** One call of Parse. */
  function Step(t: Host, s: State, l: Line): (r: State)
    requires Sound(s)
    ensures Sound(r)
  {
    if l.key == "errno" && IntIn(s, l.value) != 0 then s.(err := Some(Errno(IntIn(s, l.value))))
    else if l.key == "errno" then AfterInt(s, l.value)
    else if l.key == "public_key" then
      AfterKey(s, l.value).(
        parsePeers := true, peers := s.peers + 1, hsSec := 0, hsNano := 0,
        d := s.d.(peers := s.d.peers + [NewPeer(KeyIn(s, l.value))]))
    else if s.parsePeers then PeerStep(t, s, PeerKeyOf(l.key), l.value)
    else DeviceStep(s, DeviceKeyOf(l.key), l.value)
  }

  function StepAll(t: Host, s: State, lines: seq<Line>): (r: State)
    requires Sound(s)
    ensures Sound(r)
    decreases |lines|
  {
    if lines == [] then s else StepAll(t, Step(t, s, lines[0]), lines[1..])
  }

  /** Device(): the device, its public key computed, or the first error. */
  datatype Outcome = Unreadable | NotAPair | Failed(failure: Failure) | Parsed(device: Device)

  function Finish(t: Host, s: State): Outcome {
    match s.err
    case Some(f) => Failed(f)
    case None => Parsed(s.d.(publicKey := t.publicKeyOf(s.d.fields.privateKey)))
  }

  /** What parseDevice makes of a text. */
  function ParseText(t: Host, text: string): Outcome {
    match ScanText(text)
    case TooLong => Unreadable
    case Malformed => NotAPair
    case Scanned(lines) => Finish(t, StepAll(t, START, lines))
  }

  // ----- the parser object

  class DeviceParser {
    const t: Host
    var d: Device
    var err: Option<Failure>
    var parsePeers: bool
    var peers: nat
    var hsSec: int
    var hsNano: int

    ghost function Fields(): State
      reads this
    {
      State(d, err, parsePeers, peers, hsSec, hsNano)
    }

    ghost predicate Valid()
      reads this
    {
      Sound(Fields())
    }

    constructor (t: Host)
      ensures Valid() && Fields() == START && this.t == t
    {
      this.t := t;
      d, err, parsePeers, peers, hsSec, hsNano := ZERO_DEVICE, None, false, 0, 0, 0;
    }

    method Device() returns (o: Outcome)
      ensures o == Finish(t, Fields())
    {
      if err.Some? {
        return Failed(err.value);
      }
      return Parsed(d.(publicKey := t.publicKeyOf(d.fields.privateKey)));
    }

    method Parse(key: string, value: string)
      requires Valid()
      modifies this
      ensures Valid() && Fields() == Step(t, old(Fields()), Line(key, value))
    {
      hide DeviceKeyOf, PeerKeyOf, DeviceStep, PeerStep, Atoi, ParseHexKey;
      if key == "errno" {
        var errno := ParseInt(value);
        if errno != 0 {
          err := Some(Errno(errno));
        }
        return;
      }
      if key == "public_key" {
        parsePeers := true;
        peers := peers + 1;
        hsSec, hsNano := 0, 0;
        var k := ParseKey(value);
        d := d.(peers := d.peers + [NewPeer(k)]);
        return;
      }
      if parsePeers {
        PeerParse(key, value);
        return;
      }
      DeviceParse(key, value);
    }

    method DeviceParse(key: string, value: string)
      requires Valid() && !parsePeers
      modifies this
      ensures Fields() == DeviceStep(old(Fields()), DeviceKeyOf(key), value)
    {
      hide DeviceKeyOf, Sound, IntIn, AfterInt, KeyIn, AfterKey;
      var k, n := ZERO_KEY, 0;
      match DeviceKeyOf(key) {
        case PrivateKey => k := ParseKey(value); d := d.(fields := d.fields.(privateKey := k));
        case ListenPort => n := ParseInt(value); d := d.(fields := d.fields.(listenPort := n));
        case Fwmark => n := ParseInt(value); d := d.(fields := d.fields.(firewallMark := n));
        case Jc =>
          n := ParseInt(value);
          d := d.(fields := d.fields.(jc := n));
          d := d.(isAmnezia := true);
        case Jmin => n := ParseInt(value); d := d.(fields := d.fields.(jmin := n));
        case Jmax => n := ParseInt(value); d := d.(fields := d.fields.(jmax := n));
        case S1 => n := ParseInt(value); d := d.(fields := d.fields.(s1 := n));
        case S2 => n := ParseInt(value); d := d.(fields := d.fields.(s2 := n));
        case S3 => n := ParseInt(value); d := d.(fields := d.fields.(s3 := n));
        case S4 => n := ParseInt(value); d := d.(fields := d.fields.(s4 := n));
        case OtherDeviceKey =>
        case k => TextParse(k, value);
      }
    }

    /** The lines whose value is taken as it is. */
    method TextParse(key: DeviceKey, value: string)
      requires IsTextKey(key)
      modifies this`d
      ensures d == old(d).(fields := SetText(old(d.fields), key, value))
    {
      var f := d.fields;
      match key {
        case H1 => f := f.(h1 := value);
        case H2 => f := f.(h2 := value);
        case H3 => f := f.(h3 := value);
        case H4 => f := f.(h4 := value);
        case I1 => f := f.(i1 := value);
        case I2 => f := f.(i2 := value);
        case I3 => f := f.(i3 := value);
        case I4 => f := f.(i4 := value);
        case I5 => f := f.(i5 := value);
      }
      d := d.(fields := f);
    }

    /** curPeer: the peer the next lines belong to. */
    function CurPeer(): Peer
      requires Valid() && peers > 0
      reads this
    {
      d.peers[peers - 1]
    }

    method SetCurPeer(p: Peer)
      requires Valid() && peers > 0
      modifies this`d
      ensures Valid() && Fields() == SetPeer(old(Fields()), p)
    {
      d := d.(peers := d.peers[peers - 1 := p]);
    }

    method PeerParse(key: string, value: string)
      requires Valid() && peers > 0
      modifies this
      ensures Valid() && Fields() == PeerStep(t, old(Fields()), PeerKeyOf(key), value)
    {
      hide PeerKeyOf, WrapInt64;
      var n := 0;
      match PeerKeyOf(key) {
        case PresharedKey =>
          var k := ParseKey(value);
          SetCurPeer(CurPeer().(presharedKey := k));
        case Endpoint =>
          var a := ParseAddr(value);
          SetCurPeer(CurPeer().(endpoint := a));
        case HandshakeSec =>
          hsSec := ParseInt(value);
          SetCurPeer(CurPeer().(lastHandshake := HandshakeTime(hsSec, hsNano)));
        case HandshakeNsec =>
          hsNano := ParseInt(value);
          SetCurPeer(CurPeer().(lastHandshake := HandshakeTime(hsSec, hsNano)));
        case TxBytes =>
          n := ParseInt(value);
          SetCurPeer(CurPeer().(transmitBytes := n));
        case RxBytes =>
          n := ParseInt(value);
          SetCurPeer(CurPeer().(receiveBytes := n));
        case Keepalive =>
          n := ParseInt(value);
          SetCurPeer(CurPeer().(keepalive := WrapInt64(n * SECOND)));
        case AllowedIP =>
          var cidr := ParseCIDR(value);
          if cidr.Some? {
            SetCurPeer(CurPeer().(allowedIPs := CurPeer().allowedIPs + [cidr.value]));
          }
        case ProtocolVersion =>
          n := ParseInt(value);
          SetCurPeer(CurPeer().(protocolVersion := n));
        case OtherPeerKey =>
      }
    }

    method ParseKey(s: string) returns (k: Key)
      modifies this`err
      ensures k == KeyIn(old(Fields()), s) && Fields() == AfterKey(old(Fields()), s)
    {
      if err.Some? {
        return ZERO_KEY;
      }
      var r := ParseHexKey(s);
      if r.None? {
        err := Some(BadKey(s));
        return ZERO_KEY;
      }
      return r.value;
    }

    method ParseInt(s: string) returns (v: int)
      modifies this`err
      ensures v == IntIn(old(Fields()), s) && Fields() == AfterInt(old(Fields()), s)
    {
      if err.Some? {
        return 0;
      }
      var r := Atoi(s);
      if r.None? {
        err := Some(BadInt(s));
        return 0;
      }
      return r.value;
    }

    method ParseAddr(s: string) returns (a: Option<UDPAddr>)
      modifies this`err
      ensures a == AddrIn(t, old(Fields()), s) && Fields() == AfterAddr(t, old(Fields()), s)
    {
      if err.Some? {
        return None;
      }
      a := t.parseAddr(s);
      if a.None? {
        err := Some(BadAddr(s));
      }
    }

    method ParseCIDR(s: string) returns (c: Option<IPNet>)
      modifies this`err
      ensures c == CIDRIn(t, old(Fields()), s) && Fields() == AfterCIDR(t, old(Fields()), s)
    {
      if err.Some? {
        return None;
      }
      c := t.parseCIDR(s);
      if c.None? {
        err := Some(BadCIDR(s));
      }
    }
  }

  /** parseDevice. */
  method ParseDevice(t: Host, text: string) returns (o: Outcome)
    ensures o == ParseText(t, text)
  {
    hide Step, StepAll, Finish, ScanText, SplitPair, Cut, TrimSuffix, Prepend, Atoi, ParseHexKey;
    var dp := new DeviceParser(t);
    var rest := text;
    ghost var lines: seq<Line> := [];
    NoLines(t, START);
    PrependCases([], ScanText(text));
    while rest != ""
      invariant dp.t == t && fresh(dp) && dp.Valid()
      invariant dp.Fields() == StepAll(t, START, lines)
      invariant ScanText(text) == Prepend(lines, ScanText(rest))
      decreases |rest|
    {
      ScanUnfolds(rest);
      var c := Cut(rest, '\n');
      if |c.before| > MAX_LINE {
        PrependCases(lines, ScanText(rest));
        return Unreadable;
      }
      var line := TrimSuffix(c.before, '\r');
      if line == "" {
        break;
      }
      var kvs := SplitPair(line);
      if kvs.None? {
        PrependCases(lines, ScanText(rest));
        return NotAPair;
      }
      dp.Parse(kvs.value.key, kvs.value.value);
      StepAllAppend(t, START, lines, [kvs.value]);
      StepOne(t, StepAll(t, START, lines), kvs.value);
      PrependTwice(lines, [kvs.value], ScanText(c.after));
      lines := lines + [kvs.value];
      rest := c.after;
    }
    ScanUnfolds(rest);
    PrependCases(lines, ScanText(rest));
    o := dp.Device();
  }

  lemma {:induction false} NoLines(t: Host, s: State)
    requires Sound(s)
    ensures StepAll(t, s, []) == s
  {}

  /** One line of the definition of ScanText. */
  lemma {:induction false} ScanUnfolds(text: string)
    ensures var c := Cut(text, '\n');
            var line := TrimSuffix(c.before, '\r');
            ScanText(text) ==
            if text == "" then Scanned([])
            else if |c.before| > MAX_LINE then TooLong
            else if line == "" then Scanned([])
            else if SplitPair(line).None? then Malformed
            else Prepend([SplitPair(line).value], ScanText(c.after))
    ensures text != "" ==> |Cut(text, '\n').after| < |text|
  {
    hide SplitPair;
    CutProperties(text, '\n');
  }

  lemma {:induction false} StepOne(t: Host, s: State, l: Line)
    requires Sound(s)
    ensures StepAll(t, s, [l]) == Step(t, s, l)
  {
    assert [l][1..] == [];
  }

  lemma {:induction false} StepAllAppend(t: Host, s: State, xs: seq<Line>, ys: seq<Line>)
    requires Sound(s)
    ensures StepAll(t, s, xs + ys) == StepAll(t, StepAll(t, s, xs), ys)
    decreases |xs|
  {
    if xs == [] {
      assert xs + ys == ys;
    } else {
      assert (xs + ys)[1..] == xs[1..] + ys;
      StepAllAppend(t, Step(t, s, xs[0]), xs[1..], ys);
    }
  }
}

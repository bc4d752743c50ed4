/** What the incremental parser of internal/wguser/parse.go amounts to: the
    lines before the first public_key describe the device, every public_key
    opens the block of one peer, and blocks do not influence each other. */
module UapiBlocks {
  import opened Types
  import opened Text
  import opened UapiLines
  import opened UapiParse

  // ----- the layout of a message

  datatype Layout = Layout(head: seq<Line>, blocks: seq<seq<Line>>)

  /** No block is empty: each starts with its public_key line. */
  predicate IsLayout(y: Layout) { forall i :: 0 <= i < |y.blocks| ==> y.blocks[i] != [] }

  /** One more line of the block opened last, or of the head when there is none. */
  function Extended(y: Layout, l: Line): (z: Layout)
    ensures |z.blocks| == |y.blocks| && (IsLayout(y) ==> IsLayout(z))
  {
    if y.blocks == [] then y.(head := y.head + [l])
    else y.(blocks := y.blocks[|y.blocks| - 1 := y.blocks[|y.blocks| - 1] + [l]])
  }

  /** A public_key line opens a block. */
  function AddLine(y: Layout, l: Line): (z: Layout)
    ensures IsLayout(y) ==> IsLayout(z)
  {
    if l.key == "public_key" then y.(blocks := y.blocks + [[l]]) else Extended(y, l)
  }

  function LayoutOf(lines: seq<Line>): (y: Layout)
    ensures IsLayout(y)
  {
    if lines == [] then Layout([], [])
    else AddLine(LayoutOf(lines[..|lines| - 1]), lines[|lines| - 1])
  }

  predicate IsNumberKey(key: string) {
    || key == "listen_port" || key == "fwmark" || key == "jc" || key == "jmin" || key == "jmax"
    || key == "s1" || key == "s2" || key == "s3" || key == "s4"
  }

  predicate IsPeerNumberKey(key: string) {
    || key == "last_handshake_time_sec" || key == "last_handshake_time_nsec"
    || key == "tx_bytes" || key == "rx_bytes" || key == "persistent_keepalive_interval" || key == "protocol_version"
  }

  predicate DeviceLineOk(l: Line) {
    && (l.key == "private_key" ==> ParseHexKey(l.value).Some?)
    && (IsNumberKey(l.key) ==> Atoi(l.value).Some?)
  }

  predicate PeerLineOk(t: Host, l: Line) {
    && (l.key == "preshared_key" ==> ParseHexKey(l.value).Some?)
    && (l.key == "endpoint" ==> t.parseAddr(l.value).Some?)
    && (l.key == "allowed_ip" ==> t.parseCIDR(l.value).Some?)
    && (IsPeerNumberKey(l.key) ==> Atoi(l.value).Some?)
  }

  /** A line that records no error, in the head or in a block. */
  predicate LineOk(t: Host, l: Line, inBlock: bool) {
    if l.key == "errno" then Atoi(l.value) == Some(0)
    else if l.key == "public_key" then ParseHexKey(l.value).Some?
    else if inBlock then PeerLineOk(t, l)
    else DeviceLineOk(l)
  }

  predicate LinesOk(t: Host, lines: seq<Line>, inBlock: bool) {
    forall i :: 0 <= i < |lines| ==> LineOk(t, lines[i], inBlock)
  }

  predicate BlocksOk(t: Host, blocks: seq<seq<Line>>) {
    forall i :: 0 <= i < |blocks| ==> LinesOk(t, blocks[i], true)
  }

  /** Every line is in order in its place. */
  predicate LayoutOk(t: Host, y: Layout) { LinesOk(t, y.head, false) && BlocksOk(t, y.blocks) }

  predicate AllOk(t: Host, lines: seq<Line>) { LayoutOk(t, LayoutOf(lines)) }

  // ----- what a block says: the last value given for each key

  function Last(lines: seq<Line>, key: string): Option<string> {
    if lines == [] then None
    else if lines[|lines| - 1].key == key then Some(lines[|lines| - 1].value)
    else Last(lines[..|lines| - 1], key)
  }

  function AsInt(v: Option<string>): int { if v.Some? then Atoi(v.value).GetOr(0) else 0 }

  function AsKey(v: Option<string>): Key { if v.Some? then ParseHexKey(v.value).GetOr(ZERO_KEY) else ZERO_KEY }

  function AsText(v: Option<string>): string { v.GetOr("") }

  function AsAddr(t: Host, v: Option<string>): Option<UDPAddr> { if v.Some? then t.parseAddr(v.value) else None }

  /** All allowed_ip values, in order. */
  function AllowedOf(t: Host, block: seq<Line>): seq<IPNet> {
    if block == [] then []
    else
      var l := block[|block| - 1];
      AllowedOf(t, block[..|block| - 1])
      + (if l.key == "allowed_ip" && t.parseCIDR(l.value).Some? then [t.parseCIDR(l.value).value] else [])
  }

  function FieldsOf(head: seq<Line>): Fields {
    Fields(
      AsKey(Last(head, "private_key")), AsInt(Last(head, "listen_port")), AsInt(Last(head, "fwmark")),
      AsInt(Last(head, "jc")), AsInt(Last(head, "jmin")), AsInt(Last(head, "jmax")),
      AsInt(Last(head, "s1")), AsInt(Last(head, "s2")), AsInt(Last(head, "s3")), AsInt(Last(head, "s4")),
      AsText(Last(head, "h1")), AsText(Last(head, "h2")), AsText(Last(head, "h3")), AsText(Last(head, "h4")),
      AsText(Last(head, "i1")), AsText(Last(head, "i2")), AsText(Last(head, "i3")),
      AsText(Last(head, "i4")), AsText(Last(head, "i5")))
  }

  function IntOf(f: Fields, k: DeviceKey): int {
    match k
    case ListenPort => f.listenPort
    case Fwmark => f.firewallMark
    case Jc => f.jc
    case Jmin => f.jmin
    case Jmax => f.jmax
    case S1 => f.s1
    case S2 => f.s2
    case S3 => f.s3
    case S4 => f.s4
    case _ => 0
  }

  function TextOf(f: Fields, k: DeviceKey): string {
    match k
    case H1 => f.h1
    case H2 => f.h2
    case H3 => f.h3
    case H4 => f.h4
    case I1 => f.i1
    case I2 => f.i2
    case I3 => f.i3
    case I4 => f.i4
    case I5 => f.i5
    case _ => ""
  }

  /** The peer one block describes, whatever stands around it. Its handshake
      time depends on the last sec and the last nsec of this block alone. */
  function PeerOf(t: Host, block: seq<Line>): Peer
    requires block != []
  {
    Peer(
      AsKey(Some(block[0].value)),
      AsKey(Last(block, "preshared_key")),
      AsAddr(t, Last(block, "endpoint")),
      WrapInt64(AsInt(Last(block, "persistent_keepalive_interval")) * 1_000_000_000),
      HandshakeTime(AsInt(Last(block, "last_handshake_time_sec")), AsInt(Last(block, "last_handshake_time_nsec"))),
      AsInt(Last(block, "rx_bytes")),
      AsInt(Last(block, "tx_bytes")),
      AllowedOf(t, block),
      AsInt(Last(block, "protocol_version")),
      false, false, false, false)
  }

  function PeersOf(t: Host, blocks: seq<seq<Line>>): (ps: seq<Peer>)
    requires forall i :: 0 <= i < |blocks| ==> blocks[i] != []
    ensures |ps| == |blocks|
  {
    seq(|blocks|, i requires 0 <= i < |blocks| => PeerOf(t, blocks[i]))
  }

  /** The device a message describes. */
  function Described(t: Host, y: Layout): Device
    requires IsLayout(y)
  {
    Device("", ZERO_KEY, Last(y.head, "jc").Some?, FieldsOf(y.head), PeersOf(t, y.blocks))
  }

  /** The parser's state after an error-free message with this layout. */
  function StateOf(t: Host, y: Layout): (s: State)
    requires IsLayout(y)
    ensures Sound(s) && s.err.None? && s.peers == |y.blocks|
  {
    var last := if y.blocks == [] then [] else y.blocks[|y.blocks| - 1];
    State(Described(t, y), None, y.blocks != [], |y.blocks|,
          AsInt(LastPeer(last, HandshakeSec)), AsInt(LastPeer(last, HandshakeNsec)))
  }

  // ----- the keys by name

  function DeviceName(k: DeviceKey): string {
    match k
    case PrivateKey => "private_key"
    case ListenPort => "listen_port"
    case Fwmark => "fwmark"
    case Jc => "jc"
    case Jmin => "jmin"
    case Jmax => "jmax"
    case S1 => "s1"
    case S2 => "s2"
    case S3 => "s3"
    case S4 => "s4"
    case H1 => "h1"
    case H2 => "h2"
    case H3 => "h3"
    case H4 => "h4"
    case I1 => "i1"
    case I2 => "i2"
    case I3 => "i3"
    case I4 => "i4"
    case I5 => "i5"
    case OtherDeviceKey => ""
  }

  function PeerName(k: PeerKey): string {
    match k
    case PresharedKey => "preshared_key"
    case Endpoint => "endpoint"
    case HandshakeSec => "last_handshake_time_sec"
    case HandshakeNsec => "last_handshake_time_nsec"
    case TxBytes => "tx_bytes"
    case RxBytes => "rx_bytes"
    case Keepalive => "persistent_keepalive_interval"
    case AllowedIP => "allowed_ip"
    case ProtocolVersion => "protocol_version"
    case OtherPeerKey => ""
  }

  lemma {:induction false} BasicKeys()
    ensures DeviceKeyOf("private_key") == PrivateKey && DeviceKeyOf("listen_port") == ListenPort
    ensures DeviceKeyOf("fwmark") == Fwmark
  {}

  lemma {:induction false} JunkKeys()
    ensures DeviceKeyOf("jc") == Jc && DeviceKeyOf("jmin") == Jmin && DeviceKeyOf("jmax") == Jmax
  {}

  lemma {:induction false} PaddingKeys()
    ensures DeviceKeyOf("s1") == S1 && DeviceKeyOf("s2") == S2 && DeviceKeyOf("s3") == S3 && DeviceKeyOf("s4") == S4
  {}

  lemma {:induction false} HeaderKeys()
    ensures DeviceKeyOf("h1") == H1 && DeviceKeyOf("h2") == H2 && DeviceKeyOf("h3") == H3 && DeviceKeyOf("h4") == H4
  {}

  lemma {:induction false} SpecKeys()
    ensures DeviceKeyOf("i1") == I1 && DeviceKeyOf("i2") == I2 && DeviceKeyOf("i3") == I3
    ensures DeviceKeyOf("i4") == I4 && DeviceKeyOf("i5") == I5
  {
    hide DeviceKeyOf;
    FirstSpecKeys();
    LastSpecKeys();
  }

  lemma {:induction false} FirstSpecKeys()
    ensures DeviceKeyOf("i1") == I1 && DeviceKeyOf("i2") == I2 && DeviceKeyOf("i3") == I3
  {}

  lemma {:induction false} LastSpecKeys()
    ensures DeviceKeyOf("i4") == I4 && DeviceKeyOf("i5") == I5
  {}

  lemma {:induction false} DeviceKeyHasName(key: string)
    ensures DeviceKeyOf(key) != OtherDeviceKey ==> key == DeviceName(DeviceKeyOf(key))
  {}

  /** The switch over the keys of device lines compares with exactly these names. */
  lemma {:induction false} DeviceKeyIs(key: string, k: DeviceKey)
    requires k != OtherDeviceKey
    ensures DeviceKeyOf(key) == k <==> key == DeviceName(k)
  {
    hide DeviceKeyOf;
    DeviceKeyHasName(key);
    BasicKeys();
    JunkKeys();
    PaddingKeys();
    HeaderKeys();
    SpecKeys();
  }

  lemma {:induction false} ValueKeys()
    ensures PeerKeyOf("preshared_key") == PresharedKey && PeerKeyOf("endpoint") == Endpoint
    ensures PeerKeyOf("allowed_ip") == AllowedIP
  {}

  lemma {:induction false} CountKeys()
    ensures PeerKeyOf("tx_bytes") == TxBytes && PeerKeyOf("rx_bytes") == RxBytes
    ensures PeerKeyOf("protocol_version") == ProtocolVersion
  {}

  lemma {:induction false} KeepaliveKey()
    ensures PeerKeyOf("persistent_keepalive_interval") == Keepalive
  {}

  lemma {:induction false} TimeKeys()
    ensures PeerKeyOf("last_handshake_time_sec") == HandshakeSec
    ensures PeerKeyOf("last_handshake_time_nsec") == HandshakeNsec
  {}

  lemma {:induction false} PeerKeyHasName(key: string)
    ensures PeerKeyOf(key) != OtherPeerKey ==> key == PeerName(PeerKeyOf(key))
  {}

  lemma {:induction false} PeerKeyIs(key: string, k: PeerKey)
    requires k != OtherPeerKey
    ensures PeerKeyOf(key) == k <==> key == PeerName(k)
  {
    hide PeerKeyOf;
    PeerKeyHasName(key);
    ValueKeys();
    CountKeys();
    KeepaliveKey();
    TimeKeys();
  }

  function LastDevice(lines: seq<Line>, k: DeviceKey): Option<string> { Last(lines, DeviceName(k)) }

  function LastPeer(lines: seq<Line>, k: PeerKey): Option<string> { Last(lines, PeerName(k)) }

  // ----- one line more

  lemma {:induction false} LastMore(lines: seq<Line>, l: Line, key: string)
    ensures Last(lines + [l], key) == if l.key == key then Some(l.value) else Last(lines, key)
  {
    assert (lines + [l])[..|lines|] == lines;
  }

  lemma {:induction false} LastDeviceMore(block: seq<Line>, l: Line, k: DeviceKey)
    requires k != OtherDeviceKey
    ensures LastDevice(block + [l], k) == if DeviceKeyOf(l.key) == k then Some(l.value) else LastDevice(block, k)
  {
    hide DeviceKeyOf, DeviceName, Last;
    DeviceKeyIs(l.key, k);
    LastMore(block, l, DeviceName(k));
  }

  /** The parser's state after these lines in front of the first peer. */
  function HeadState(head: seq<Line>): State {
    State(Device("", ZERO_KEY, Last(head, "jc").Some?, FieldsOf(head), []), None, false, 0, 0, 0)
  }

  lemma {:induction false} StateOfHead(t: Host, y: Layout)
    requires y.blocks == []
    ensures StateOf(t, y) == HeadState(y.head)
  {
    hide FieldsOf, Atoi;
    assert PeersOf(t, []) == [];
  }

  predicate DeviceValueOk(k: DeviceKey, value: string) {
    (k.PrivateKey? ==> ParseHexKey(value).Some?) && (IsIntKey(k) ==> Atoi(value).Some?)
  }

  lemma {:induction false} DeviceOkByKey(l: Line)
    ensures DeviceLineOk(l) <==> DeviceValueOk(DeviceKeyOf(l.key), l.value)
  {
    hide DeviceKeyOf, Atoi, ParseHexKey;
    DeviceKeyIs(l.key, PrivateKey);
    NumberKeys(l.key);
    hide IsNumberKey, IsIntKey;
  }

  lemma {:induction false} NumberKeys(key: string)
    ensures IsNumberKey(key) <==> IsIntKey(DeviceKeyOf(key))
  {
    hide DeviceKeyOf;
    DeviceKeyIs(key, ListenPort);
    DeviceKeyIs(key, Fwmark);
    DeviceKeyIs(key, Jc);
    DeviceKeyIs(key, Jmin);
    DeviceKeyIs(key, Jmax);
    DeviceKeyIs(key, S1);
    DeviceKeyIs(key, S2);
    DeviceKeyIs(key, S3);
    DeviceKeyIs(key, S4);
  }

  lemma {:induction false} JcMore(head: seq<Line>, l: Line)
    ensures Last(head + [l], "jc").Some? <==> DeviceKeyOf(l.key).Jc? || Last(head, "jc").Some?
  {
    hide DeviceKeyOf;
    LastDeviceMore(head, l, Jc);
  }

  /** The state of a head, one device line later, is that of the longer head. */
  predicate HeadAgrees(head: seq<Line>, l: Line) {
    var s := DeviceStep(HeadState(head), DeviceKeyOf(l.key), l.value);
    if DeviceValueOk(DeviceKeyOf(l.key), l.value) then s == HeadState(head + [l]) else s.err.Some?
  }

  predicate SameInt(f: Fields, g: Fields, k: DeviceKey) { IntOf(f, k) == IntOf(g, k) }

  predicate SameText(f: Fields, g: Fields, k: DeviceKey) { TextOf(f, k) == TextOf(g, k) }

  predicate SameInts(f: Fields, g: Fields) {
    && SameInt(f, g, ListenPort) && SameInt(f, g, Fwmark)
    && SameInt(f, g, Jc) && SameInt(f, g, Jmin) && SameInt(f, g, Jmax)
    && SameInt(f, g, S1) && SameInt(f, g, S2) && SameInt(f, g, S3) && SameInt(f, g, S4)
  }

  predicate SameTexts(f: Fields, g: Fields) {
    && SameText(f, g, H1) && SameText(f, g, H2) && SameText(f, g, H3) && SameText(f, g, H4)
    && SameText(f, g, I1) && SameText(f, g, I2) && SameText(f, g, I3) && SameText(f, g, I4) && SameText(f, g, I5)
  }

  /** The fields agree when they do key by key. */
  lemma {:induction false} SameFields(f: Fields, g: Fields)
    requires f.privateKey == g.privateKey && SameInts(f, g) && SameTexts(f, g)
    ensures f == g
  {}

  /** What a head says under each key. */
  lemma {:induction false} FieldsAt(head: seq<Line>, k: DeviceKey)
    ensures FieldsOf(head).privateKey == AsKey(LastDevice(head, PrivateKey))
    ensures IsIntKey(k) ==> IntOf(FieldsOf(head), k) == AsInt(LastDevice(head, k))
    ensures IsTextKey(k) ==> TextOf(FieldsOf(head), k) == AsText(LastDevice(head, k))
  {
    hide Last, AsInt, AsKey, AsText;
  }

  lemma {:induction false} SetIntAt(f: Fields, k: DeviceKey, n: int, j: DeviceKey)
    requires IsIntKey(k)
    ensures SetInt(f, k, n).privateKey == f.privateKey
    ensures IsIntKey(j) ==> IntOf(SetInt(f, k, n), j) == if j == k then n else IntOf(f, j)
    ensures IsTextKey(j) ==> TextOf(SetInt(f, k, n), j) == TextOf(f, j)
  {}

  lemma {:induction false} SetTextAt(f: Fields, k: DeviceKey, s: string, j: DeviceKey)
    requires IsTextKey(k)
    ensures SetText(f, k, s).privateKey == f.privateKey
    ensures IsIntKey(j) ==> IntOf(SetText(f, k, s), j) == IntOf(f, j)
    ensures IsTextKey(j) ==> TextOf(SetText(f, k, s), j) == if j == k then s else TextOf(f, j)
  {}

  /** One more integer in the head sets that field. */
  lemma {:induction false} IntMore(head: seq<Line>, l: Line)
    requires var k := DeviceKeyOf(l.key); IsIntKey(k)
    ensures FieldsOf(head + [l]) == SetInt(FieldsOf(head), DeviceKeyOf(l.key), AsInt(Some(l.value)))
  {
    hide DeviceKeyOf, AsInt, FieldsOf, SetInt, IntOf, TextOf, LastDevice;
    var k, n := DeviceKeyOf(l.key), AsInt(Some(l.value));
    var f, g := FieldsOf(head + [l]), SetInt(FieldsOf(head), k, n);
    LastDeviceMore(head, l, PrivateKey);
    FieldsAt(head, PrivateKey);
    FieldsAt(head + [l], PrivateKey);
    SetIntAt(FieldsOf(head), k, n, PrivateKey);
    forall j: DeviceKey
      ensures IsIntKey(j) ==> SameInt(f, g, j)
      ensures IsTextKey(j) ==> SameText(f, g, j)
    {
      if j != OtherDeviceKey {
        LastDeviceMore(head, l, j);
        FieldsAt(head, j);
        FieldsAt(head + [l], j);
        SetIntAt(FieldsOf(head), k, n, j);
      }
    }
    SameFields(f, g);
  }

  /** One more text in the head sets that field. */
  lemma {:induction false} TextMore(head: seq<Line>, l: Line)
    requires var k := DeviceKeyOf(l.key); IsTextKey(k)
    ensures FieldsOf(head + [l]) == SetText(FieldsOf(head), DeviceKeyOf(l.key), l.value)
  {
    hide DeviceKeyOf, AsInt, FieldsOf, SetText, IntOf, TextOf, LastDevice;
    var k := DeviceKeyOf(l.key);
    var f, g := FieldsOf(head + [l]), SetText(FieldsOf(head), k, l.value);
    LastDeviceMore(head, l, PrivateKey);
    FieldsAt(head, PrivateKey);
    FieldsAt(head + [l], PrivateKey);
    SetTextAt(FieldsOf(head), k, l.value, PrivateKey);
    forall j: DeviceKey
      ensures IsIntKey(j) ==> SameInt(f, g, j)
      ensures IsTextKey(j) ==> SameText(f, g, j)
    {
      if j != OtherDeviceKey {
        LastDeviceMore(head, l, j);
        FieldsAt(head, j);
        FieldsAt(head + [l], j);
        SetTextAt(FieldsOf(head), k, l.value, j);
      }
    }
    SameFields(f, g);
  }

  lemma {:induction false} SetKeyAt(f: Fields, key: Key, j: DeviceKey)
    ensures IntOf(f.(privateKey := key), j) == IntOf(f, j)
    ensures TextOf(f.(privateKey := key), j) == TextOf(f, j)
  {}

  /** One more private key in the head replaces it. */
  lemma {:induction false} KeyMore(head: seq<Line>, l: Line)
    requires DeviceKeyOf(l.key).PrivateKey?
    ensures FieldsOf(head + [l]) == FieldsOf(head).(privateKey := AsKey(Some(l.value)))
  {
    hide DeviceKeyOf, AsInt, AsKey, FieldsOf, IntOf, TextOf, LastDevice;
    var f, g := FieldsOf(head + [l]), FieldsOf(head).(privateKey := AsKey(Some(l.value)));
    LastDeviceMore(head, l, PrivateKey);
    FieldsAt(head + [l], PrivateKey);
    forall j: DeviceKey
      ensures IsIntKey(j) ==> SameInt(f, g, j)
      ensures IsTextKey(j) ==> SameText(f, g, j)
    {
      if j != OtherDeviceKey {
        LastDeviceMore(head, l, j);
        FieldsAt(head, j);
        FieldsAt(head + [l], j);
        SetKeyAt(FieldsOf(head), AsKey(Some(l.value)), j);
      }
    }
    SameFields(f, g);
  }

  lemma {:induction false} IntStep(head: seq<Line>, l: Line)
    requires IsIntKey(DeviceKeyOf(l.key))
    ensures HeadAgrees(head, l)
  {
    hide DeviceKeyOf, Last, Atoi, ParseHexKey, FieldsOf, SetInt, SetText;
    IntMore(head, l);
    JcMore(head, l);
  }

  lemma {:induction false} TextStep(head: seq<Line>, l: Line)
    requires IsTextKey(DeviceKeyOf(l.key))
    ensures HeadAgrees(head, l)
  {
    hide DeviceKeyOf, Last, Atoi, ParseHexKey, FieldsOf, SetInt, SetText;
    TextMore(head, l);
    JcMore(head, l);
  }

  lemma {:induction false} KeyStep(head: seq<Line>, l: Line)
    requires DeviceKeyOf(l.key).PrivateKey?
    ensures HeadAgrees(head, l)
  {
    hide DeviceKeyOf, Last, Atoi, ParseHexKey, FieldsOf, SetInt, SetText;
    KeyMore(head, l);
    JcMore(head, l);
  }

  lemma {:induction false} OtherStep(head: seq<Line>, l: Line)
    requires DeviceKeyOf(l.key).OtherDeviceKey?
    ensures HeadAgrees(head, l)
  {
    hide DeviceKeyOf, Last, Atoi, ParseHexKey, FieldsOf, SetInt, SetText;
    FieldsUnchanged(head, l);
  }

  lemma {:induction false} HeadStep(t: Host, y: Layout, l: Line)
    requires y.blocks == []
    ensures var s := DeviceStep(StateOf(t, y), DeviceKeyOf(l.key), l.value);
            if DeviceLineOk(l) then s == StateOf(t, Extended(y, l)) else s.err.Some?
  {
    hide DeviceKeyOf, StateOf, HeadState, DeviceStep, DeviceLineOk, DeviceValueOk;
    DeviceOkByKey(l);
    StateOfHead(t, y);
    StateOfHead(t, Extended(y, l));
    var k := DeviceKeyOf(l.key);
    if IsIntKey(k) {
      IntStep(y.head, l);
    } else if IsTextKey(k) {
      TextStep(y.head, l);
    } else if k.PrivateKey? {
      KeyStep(y.head, l);
    } else {
      OtherStep(y.head, l);
    }
  }

  lemma {:induction false} ErrnoIsNoKey()
    ensures DeviceKeyOf("errno") == OtherDeviceKey && PeerKeyOf("errno") == OtherPeerKey
    ensures PeerKeyOf("public_key") == OtherPeerKey
  {}

  /** A line without meaning in its place changes nothing. */
  lemma {:induction false} IdleLine(t: Host, y: Layout, l: Line)
    requires IsLayout(y)
    requires if y.blocks == [] then DeviceKeyOf(l.key) == OtherDeviceKey else PeerKeyOf(l.key) == OtherPeerKey
    ensures StateOf(t, Extended(y, l)) == StateOf(t, y)
  {
    hide DeviceKeyOf, PeerKeyOf, LastDevice, LastPeer, FieldsOf, PeerOf, StateOf, AsInt;
    if y.blocks == [] {
      FieldsUnchanged(y.head, l);
      StateOfHead(t, y);
      StateOfHead(t, Extended(y, l));
    } else {
      var n, s := |y.blocks| - 1, StateOf(t, y);
      PeerUnchanged(t, y.blocks[n], l);
      BlockState(t, y, l);
      assert s.d.peers[s.peers - 1 := CurPeer(s)] == s.d.peers;
    }
  }

  lemma {:induction false} FieldsUnchanged(head: seq<Line>, l: Line)
    requires DeviceKeyOf(l.key) == OtherDeviceKey
    ensures FieldsOf(head + [l]) == FieldsOf(head)
    ensures Last(head + [l], "jc") == Last(head, "jc")
  {
    hide DeviceKeyOf, Last, FieldsOf, AsInt, AsKey, AsText, IntOf, TextOf;
    var f, g := FieldsOf(head + [l]), FieldsOf(head);
    LastDeviceMore(head, l, Jc);
    SameLast(head, l);
    FieldsAt(head, PrivateKey);
    FieldsAt(head + [l], PrivateKey);
    hide LastDevice;
    forall j: DeviceKey
      ensures IsIntKey(j) ==> SameInt(f, g, j)
      ensures IsTextKey(j) ==> SameText(f, g, j)
    {
      FieldsAt(head, j);
      FieldsAt(head + [l], j);
    }
    SameFields(f, g);
  }

  lemma {:induction false} SameLast(head: seq<Line>, l: Line)
    requires DeviceKeyOf(l.key) == OtherDeviceKey
    ensures forall k: DeviceKey :: k != OtherDeviceKey ==> LastDevice(head + [l], k) == LastDevice(head, k)
  {
    hide DeviceKeyOf, LastDevice;
    forall k: DeviceKey | k != OtherDeviceKey ensures LastDevice(head + [l], k) == LastDevice(head, k) {
      LastDeviceMore(head, l, k);
    }
  }

  lemma {:induction false} PeerUnchanged(t: Host, block: seq<Line>, l: Line)
    requires block != [] && PeerKeyOf(l.key) == OtherPeerKey
    ensures PeerOf(t, block + [l]) == PeerOf(t, block)
    ensures LastPeer(block + [l], HandshakeSec) == LastPeer(block, HandshakeSec)
    ensures LastPeer(block + [l], HandshakeNsec) == LastPeer(block, HandshakeNsec)
  {
    hide PeerKeyOf, LastPeer, AllowedOf, Atoi, ParseHexKey, WrapInt64, PeerOf;
    BlockMore(t, block, l);
    PeerAt(t, block);
    PeerAt(t, block + [l]);
  }

  /** A peer list with one block more, or with another last block. */
  lemma {:induction false} OtherLast(t: Host, blocks: seq<seq<Line>>, b: seq<Line>)
    requires b != [] && forall i :: 0 <= i < |blocks| ==> blocks[i] != []
    ensures PeersOf(t, blocks + [b]) == PeersOf(t, blocks) + [PeerOf(t, b)]
    ensures blocks != [] ==>
              && PeersOf(t, blocks[|blocks| - 1 := b]) == PeersOf(t, blocks)[|blocks| - 1 := PeerOf(t, b)]
              && PeersOf(t, blocks)[|blocks| - 1] == PeerOf(t, blocks[|blocks| - 1])
  {
    hide PeerOf;
  }

  function CurPeer(s: State): Peer
    requires Sound(s) && s.peers > 0
  {
    s.d.peers[s.peers - 1]
  }

  /** The state with this block as the last one. */
  function WithBlock(t: Host, s: State, block: seq<Line>): State
    requires Sound(s) && s.peers > 0 && block != []
  {
    SetPeer(s, PeerOf(t, block)).(
      hsSec := AsInt(LastPeer(block, HandshakeSec)), hsNano := AsInt(LastPeer(block, HandshakeNsec)))
  }

  /** One line more in the last block: only its peer and the times change. */
  lemma {:induction false} BlockState(t: Host, y: Layout, l: Line)
    requires y.blocks != [] && IsLayout(y)
    ensures CurPeer(StateOf(t, y)) == PeerOf(t, y.blocks[|y.blocks| - 1])
    ensures StateOf(t, y).hsSec == AsInt(LastPeer(y.blocks[|y.blocks| - 1], HandshakeSec))
    ensures StateOf(t, y).hsNano == AsInt(LastPeer(y.blocks[|y.blocks| - 1], HandshakeNsec))
    ensures StateOf(t, Extended(y, l)) == WithBlock(t, StateOf(t, y), y.blocks[|y.blocks| - 1] + [l])
  {
    hide PeersOf, PeerOf, FieldsOf, LastPeer, LastDevice, AsInt;
    OtherLast(t, y.blocks, y.blocks[|y.blocks| - 1] + [l]);
  }

  /** What a block says under each key, one line more. */
  lemma {:induction false} BlockMore(t: Host, block: seq<Line>, l: Line)
    ensures forall k: PeerKey :: k != OtherPeerKey ==>
              LastPeer(block + [l], k) == if PeerKeyOf(l.key) == k then Some(l.value) else LastPeer(block, k)
    ensures AllowedOf(t, block + [l]) ==
            if PeerKeyOf(l.key) == AllowedIP && t.parseCIDR(l.value).Some?
            then AllowedOf(t, block) + [t.parseCIDR(l.value).value] else AllowedOf(t, block)
  {
    hide PeerKeyOf, Last;
    PeerKeyIs(l.key, AllowedIP);
    AllowedMore(t, block, l);
    forall k: PeerKey | k != OtherPeerKey
      ensures LastPeer(block + [l], k) == if PeerKeyOf(l.key) == k then Some(l.value) else LastPeer(block, k)
    {
      PeerKeyIs(l.key, k);
      LastMore(block, l, PeerName(k));
    }
  }

  lemma {:induction false} AllowedMore(t: Host, block: seq<Line>, l: Line)
    ensures AllowedOf(t, block + [l]) ==
            if l.key == "allowed_ip" && t.parseCIDR(l.value).Some?
            then AllowedOf(t, block) + [t.parseCIDR(l.value).value] else AllowedOf(t, block)
  {
    assert (block + [l])[..|block|] == block;
    assert AllowedOf(t, block) + [] == AllowedOf(t, block);
  }

  /** The peer of a block, key by key. */
  lemma {:induction false} PeerAt(t: Host, block: seq<Line>)
    requires block != []
    ensures PeerOf(t, block) == Peer(
              AsKey(Some(block[0].value)), AsKey(LastPeer(block, PresharedKey)), AsAddr(t, LastPeer(block, Endpoint)),
              WrapInt64(AsInt(LastPeer(block, Keepalive)) * SECOND),
              HandshakeTime(AsInt(LastPeer(block, HandshakeSec)), AsInt(LastPeer(block, HandshakeNsec))),
              AsInt(LastPeer(block, RxBytes)), AsInt(LastPeer(block, TxBytes)), AllowedOf(t, block),
              AsInt(LastPeer(block, ProtocolVersion)), false, false, false, false)
  {
    hide Last, AsInt, AsKey, AsAddr, WrapInt64, HandshakeTime, AllowedOf;
  }

  lemma {:induction false} CountMore(t: Host, block: seq<Line>, l: Line)
    requires block != [] && IsCountKey(PeerKeyOf(l.key))
    ensures PeerOf(t, block + [l]) == SetCount(PeerOf(t, block), PeerKeyOf(l.key), AsInt(Some(l.value)))
  {
    hide PeerKeyOf, LastPeer, AllowedOf, AsInt, AsKey, AsAddr, WrapInt64, HandshakeTime, PeerOf;
    BlockMore(t, block, l);
    PeerAt(t, block);
    PeerAt(t, block + [l]);
  }

  lemma {:induction false} TimeMore(t: Host, block: seq<Line>, l: Line)
    requires block != [] && (PeerKeyOf(l.key).HandshakeSec? || PeerKeyOf(l.key).HandshakeNsec?)
    ensures var b := block + [l];
            PeerOf(t, b) == PeerOf(t, block).(
              lastHandshake := HandshakeTime(AsInt(LastPeer(b, HandshakeSec)), AsInt(LastPeer(b, HandshakeNsec))))
  {
    hide PeerKeyOf, LastPeer, AllowedOf, AsInt, AsKey, AsAddr, WrapInt64, HandshakeTime, PeerOf;
    BlockMore(t, block, l);
    PeerAt(t, block);
    PeerAt(t, block + [l]);
  }

  lemma {:induction false} ValueMore(t: Host, block: seq<Line>, l: Line)
    requires block != []
    requires var k := PeerKeyOf(l.key); k.PresharedKey? || k.Endpoint? || k.AllowedIP?
    ensures var p, q := PeerOf(t, block), PeerOf(t, block + [l]);
            match PeerKeyOf(l.key)
            case PresharedKey => q == p.(presharedKey := AsKey(Some(l.value)))
            case Endpoint => q == p.(endpoint := AsAddr(t, Some(l.value)))
            case _ => q == AddAllowed(p, t.parseCIDR(l.value))
  {
    hide PeerKeyOf, LastPeer, AllowedOf, AsInt, AsKey, AsAddr, WrapInt64, HandshakeTime, PeerOf;
    BlockMore(t, block, l);
    PeerAt(t, block);
    PeerAt(t, block + [l]);
  }

  predicate PeerValueOk(t: Host, k: PeerKey, value: string) {
    match k
    case PresharedKey => ParseHexKey(value).Some?
    case Endpoint => t.parseAddr(value).Some?
    case AllowedIP => t.parseCIDR(value).Some?
    case OtherPeerKey => true
    case _ => Atoi(value).Some?
  }

  lemma {:induction false} PeerOkByKey(t: Host, l: Line)
    ensures PeerLineOk(t, l) <==> PeerValueOk(t, PeerKeyOf(l.key), l.value)
  {
    hide PeerKeyOf, Atoi, ParseHexKey;
    PeerKeyIs(l.key, PresharedKey);
    PeerKeyIs(l.key, Endpoint);
    PeerKeyIs(l.key, AllowedIP);
    PeerNumberKeys(l.key);
    hide IsPeerNumberKey;
  }

  lemma {:induction false} PeerNumberKeys(key: string)
    ensures IsPeerNumberKey(key) <==>
            IsCountKey(PeerKeyOf(key)) || PeerKeyOf(key).HandshakeSec? || PeerKeyOf(key).HandshakeNsec?
  {
    hide PeerKeyOf;
    PeerKeyIs(key, HandshakeSec);
    PeerKeyIs(key, HandshakeNsec);
    PeerKeyIs(key, TxBytes);
    PeerKeyIs(key, RxBytes);
    PeerKeyIs(key, Keepalive);
    PeerKeyIs(key, ProtocolVersion);
  }

  /** The state of the last block, one peer line later, is that of the longer
      block. */
  predicate BlockAgrees(t: Host, y: Layout, l: Line)
    requires y.blocks != [] && IsLayout(y)
  {
    var s := PeerStep(t, StateOf(t, y), PeerKeyOf(l.key), l.value);
    if PeerValueOk(t, PeerKeyOf(l.key), l.value) then s == StateOf(t, Extended(y, l)) else s.err.Some?
  }

  lemma {:induction false} CountStep(t: Host, y: Layout, l: Line)
    requires y.blocks != [] && IsLayout(y)
    requires IsCountKey(PeerKeyOf(l.key))
    ensures BlockAgrees(t, y, l)
  {
    hide PeerKeyOf, LastPeer, AllowedOf, Atoi, ParseHexKey, StateOf, PeerOf, SetCount, Extended;
    var block := y.blocks[|y.blocks| - 1];
    BlockState(t, y, l);
    CountMore(t, block, l);
    BlockMore(t, block, l);
  }

  lemma {:induction false} TimeStep(t: Host, y: Layout, l: Line)
    requires y.blocks != [] && IsLayout(y)
    requires PeerKeyOf(l.key).HandshakeSec? || PeerKeyOf(l.key).HandshakeNsec?
    ensures BlockAgrees(t, y, l)
  {
    hide PeerKeyOf, LastPeer, AllowedOf, Atoi, ParseHexKey, StateOf, PeerOf, HandshakeTime, Extended;
    var block := y.blocks[|y.blocks| - 1];
    BlockState(t, y, l);
    TimeMore(t, block, l);
    BlockMore(t, block, l);
  }

  lemma {:induction false} ValueStep(t: Host, y: Layout, l: Line)
    requires y.blocks != [] && IsLayout(y)
    requires var k := PeerKeyOf(l.key); k.PresharedKey? || k.Endpoint? || k.AllowedIP?
    ensures BlockAgrees(t, y, l)
  {
    hide PeerKeyOf, LastPeer, AllowedOf, Atoi, ParseHexKey, StateOf, PeerOf, Extended;
    var block := y.blocks[|y.blocks| - 1];
    BlockState(t, y, l);
    ValueMore(t, block, l);
    BlockMore(t, block, l);
  }

  /** A peer line makes the peer of a block that of the longer block. */
  lemma {:induction false} BlockStep(t: Host, y: Layout, l: Line)
    requires y.blocks != [] && IsLayout(y)
    ensures BlockAgrees(t, y, l)
  {
    hide PeerKeyOf;
    var k := PeerKeyOf(l.key);
    if IsCountKey(k) {
      hide BlockAgrees;
      CountStep(t, y, l);
    } else if k.HandshakeSec? || k.HandshakeNsec? {
      hide BlockAgrees;
      TimeStep(t, y, l);
    } else if !k.OtherPeerKey? {
      hide BlockAgrees;
      ValueStep(t, y, l);
    } else {
      hide StateOf, Extended;
      IdleLine(t, y, l);
    }
  }

  /** A public_key line adds a fresh peer. */
  lemma {:induction false} OpenBlock(t: Host, y: Layout, l: Line)
    requires IsLayout(y)
    requires l.key == "public_key"
    ensures var s := Step(t, StateOf(t, y), l);
            if LineOk(t, l, y.blocks != []) then s == StateOf(t, AddLine(y, l)) else s.err.Some?
  {
    hide DeviceKeyOf, PeerKeyOf, LastDevice, LastPeer, FieldsOf, PeerOf, PeersOf, Atoi, ParseHexKey, DeviceStep;
    hide PeerStep;
    ErrnoIsNoKey();
    NewBlock(t, l);
    OtherLast(t, y.blocks, [l]);
  }

  /** What a block says that has only its public_key line. */
  lemma {:induction false} NewBlock(t: Host, l: Line)
    requires l.key == "public_key"
    ensures PeerOf(t, [l]) == NewPeer(AsKey(Some(l.value)))
    ensures LastPeer([l], HandshakeSec) == None && LastPeer([l], HandshakeNsec) == None
  {
    hide PeerKeyOf, ParseHexKey, Atoi, PeerOf, LastPeer, AllowedOf;
    PeerAt(t, [l]);
    NothingLast(t, l);
    assert WrapInt64(0) == 0;
  }

  lemma {:induction false} NothingLast(t: Host, l: Line)
    requires l.key == "public_key"
    ensures forall k: PeerKey :: k != OtherPeerKey ==> LastPeer([l], k) == None
    ensures AllowedOf(t, [l]) == []
  {
    hide PeerKeyOf, PeerName, Last;
    ErrnoIsNoKey();
    assert [] + [l] == [l];
    forall k: PeerKey | k != OtherPeerKey ensures LastPeer([l], k) == None {
      PeerKeyIs(l.key, k);
      LastMore([], l, PeerName(k));
      NothingSaid(PeerName(k));
    }
    PeerKeyIs(l.key, AllowedIP);
    AllowedName();
    AllowedMore(t, [], l);
  }

  lemma {:induction false} NothingSaid(key: string)
    ensures Last([], key) == None
  {}

  lemma {:induction false} AllowedName()
    ensures PeerName(AllowedIP) == "allowed_ip"
  {}

  lemma {:induction false} OneLine(t: Host, y: Layout, l: Line)
    requires IsLayout(y)
    ensures var s := Step(t, StateOf(t, y), l);
            if LineOk(t, l, y.blocks != []) then s == StateOf(t, AddLine(y, l)) else s.err.Some?
  {
    hide DeviceKeyOf, PeerKeyOf, Atoi, ParseHexKey, DeviceStep, PeerStep, StateOf, LastPeer;
    hide DeviceLineOk, PeerLineOk, Extended;
    if l.key == "public_key" {
      OpenBlock(t, y, l);
    } else if l.key == "errno" {
      ErrnoIsNoKey();
      IdleLine(t, y, l);
    } else if y.blocks == [] {
      HeadStep(t, y, l);
    } else {
      PeerOkByKey(t, l);
      BlockStep(t, y, l);
    }
  }

  /** One line more, and whether all are still in order. */
  lemma {:induction false} OkMore(t: Host, y: Layout, l: Line)
    ensures LayoutOk(t, AddLine(y, l)) <==> LayoutOk(t, y) && LineOk(t, l, y.blocks != [])
  {
    hide PeerLineOk, DeviceLineOk, Atoi, ParseHexKey;
    if l.key == "public_key" {
      LinesOkMore(t, [], l, true);
      BlocksOkMore(t, y.blocks, [l]);
    } else if y.blocks == [] {
      LinesOkMore(t, y.head, l, false);
    } else {
      var n := |y.blocks| - 1;
      LinesOkMore(t, y.blocks[n], l, true);
      BlocksOkMore(t, y.blocks[..n], y.blocks[n]);
      BlocksOkMore(t, y.blocks[..n], y.blocks[n] + [l]);
      assert y.blocks == y.blocks[..n] + [y.blocks[n]];
      assert y.blocks[n := y.blocks[n] + [l]] == y.blocks[..n] + [y.blocks[n] + [l]];
    }
  }

  lemma {:induction false} LinesOkMore(t: Host, lines: seq<Line>, l: Line, inBlock: bool)
    ensures LinesOk(t, lines + [l], inBlock) <==> LinesOk(t, lines, inBlock) && LineOk(t, l, inBlock)
    ensures LinesOk(t, [], inBlock) && [] + [l] == [l]
  {
    hide LineOk;
    var all := lines + [l];
    assert all[|lines|] == l && forall i :: 0 <= i < |lines| ==> all[i] == lines[i];
  }

  lemma {:induction false} BlocksOkMore(t: Host, blocks: seq<seq<Line>>, b: seq<Line>)
    ensures BlocksOk(t, blocks + [b]) <==> BlocksOk(t, blocks) && LinesOk(t, b, true)
  {
    hide LinesOk;
    var all := blocks + [b];
    assert all[|blocks|] == b && forall i :: 0 <= i < |blocks| ==> all[i] == blocks[i];
  }

  // ----- the main results

  /** Once there is an error no later line changes or clears it. */
  lemma {:induction false} ErrorStays(t: Host, s: State, l: Line)
    requires Sound(s) && s.err.Some?
    ensures Step(t, s, l).err == s.err
  {
    hide DeviceKeyOf, PeerKeyOf, Atoi, ParseHexKey, WrapInt64, HandshakeTime;
  }

  lemma {:induction false} FirstErrorIsFinal(t: Host, s: State, lines: seq<Line>)
    requires Sound(s) && s.err.Some?
    ensures StepAll(t, s, lines).err == s.err
    decreases |lines|
  {
    hide Step;
    if lines != [] {
      ErrorStays(t, s, lines[0]);
      FirstErrorIsFinal(t, Step(t, s, lines[0]), lines[1..]);
    }
  }

  /** The error of a line that is wrong in its place. */
  function FailureOf(l: Line, inBlock: bool): Failure {
    if l.key == "errno" then if Atoi(l.value).Some? then Errno(Atoi(l.value).value) else BadInt(l.value)
    else if l.key == "public_key" then BadKey(l.value)
    else if inBlock && l.key == "preshared_key" then BadKey(l.value)
    else if inBlock && l.key == "endpoint" then BadAddr(l.value)
    else if inBlock && l.key == "allowed_ip" then BadCIDR(l.value)
    else if !inBlock && l.key == "private_key" then BadKey(l.value)
    else BadInt(l.value)
  }

  lemma {:induction false} StepFails(t: Host, s: State, l: Line)
    requires Sound(s) && s.err.None? && !LineOk(t, l, s.parsePeers)
    ensures Step(t, s, l).err == Some(FailureOf(l, s.parsePeers))
  {
    hide DeviceKeyOf, PeerKeyOf, Atoi, ParseHexKey, DeviceLineOk, PeerLineOk, HandshakeTime, SetInt, SetText, SetCount;
    if s.parsePeers {
      PeerOkByKey(t, l);
      PeerKeyIs(l.key, PresharedKey);
      PeerKeyIs(l.key, Endpoint);
      PeerKeyIs(l.key, AllowedIP);
    } else {
      DeviceOkByKey(l);
      DeviceKeyIs(l.key, PrivateKey);
    }
  }

  /** Of a message with wrong lines, Device() returns the error of the first. */
  lemma {:induction false} FirstErrorIsReported(t: Host, lines: seq<Line>, l: Line, rest: seq<Line>)
    requires AllOk(t, lines) && !LineOk(t, l, LayoutOf(lines).blocks != [])
    ensures Finish(t, StepAll(t, START, lines + [l] + rest)) == Failed(FailureOf(l, LayoutOf(lines).blocks != []))
  {
    hide Step, StepAll, LineOk, AllOk, FailureOf, Described, LayoutOf;
    ParserRefinesBlocks(t, lines);
    var s := StepAll(t, START, lines);
    StepFails(t, s, l);
    StepOne(t, s, l);
    StepAllAppend(t, START, lines, [l]);
    StepAllAppend(t, START, lines + [l], rest);
    FirstErrorIsFinal(t, StepAll(t, START, lines + [l]), rest);
  }

  /** A handshake time is none exactly when nothing but zeros is given. */
  lemma {:induction false} HandshakeExact(sec: int, nano: int)
    requires -0x8000_0000_0000_0000 <= sec + nano / SECOND < 0x8000_0000_0000_0000
    ensures HandshakeTime(sec, nano).None? <==> sec == 0 && nano == 0
    ensures HandshakeTime(sec, nano).Some? ==>
              var (s, n) := HandshakeTime(sec, nano).value;
              0 <= n < 1_000_000_000 && s * 1_000_000_000 + n == sec * 1_000_000_000 + nano
  {
    hide UnixTime;
    UnixExact(sec, nano);
  }

  lemma {:induction false} NothingIsOk(t: Host)
    ensures LayoutOk(t, Layout([], []))
  {}

  /** The parser reports an error exactly when some line is wrong in its place,
      and otherwise ends with the device its blocks describe one by one. */
  lemma {:induction false} ParserRefinesBlocks(t: Host, lines: seq<Line>)
    ensures StepAll(t, START, lines).err.None? <==> AllOk(t, lines)
    ensures AllOk(t, lines) ==> StepAll(t, START, lines) == StateOf(t, LayoutOf(lines))
  {
    hide Step, LineOk, AddLine, DeviceKeyOf, LayoutOk;
    if lines == [] {
      NothingIsOk(t);
      assert PeersOf(t, []) == [];
    } else {
      var init, l := lines[..|lines| - 1], lines[|lines| - 1];
      assert lines == init + [l];
      ParserRefinesBlocks(t, init);
      StepAllAppend(t, START, init, [l]);
      var s := StepAll(t, START, init);
      StepOne(t, s, l);
      OkMore(t, LayoutOf(init), l);
      hide StateOf, StepAll;
      if AllOk(t, init) {
        OneLine(t, LayoutOf(init), l);
      } else {
        ErrorStays(t, s, l);
      }
    }
  }

  /** Device() fails exactly when a line was wrong; otherwise it returns the
      device described, with its public key. */
  lemma {:induction false} DeviceIsDescribed(t: Host, lines: seq<Line>)
    ensures var o := Finish(t, StepAll(t, START, lines));
            if AllOk(t, lines)
            then o == Parsed(var d := Described(t, LayoutOf(lines)); d.(publicKey := t.publicKeyOf(d.fields.privateKey)))
            else o.Failed?
  {
    hide Step, LayoutOk, AddLine, DeviceKeyOf, Described, StepAll;
    ParserRefinesBlocks(t, lines);
  }
}

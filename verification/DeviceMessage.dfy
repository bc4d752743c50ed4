/** parseDeviceLoop (internal/wglinux/parse_linux.go): a whole message decoded
    into a device, and what it makes of an encoded configuration. */
module DeviceMessage {
  import opened Types
  import opened Attributes
  import opened PeerCodec
  import opened DeviceCodec
  import opened Validate
  import opened Net

  const A_PUBLIC_KEY := 4

  function DecodePeers(e: Endian, attrs: seq<Attr>): Option<seq<Peer>> {
    if attrs == [] then Some([])
    else if !attrs[0].Nest? then None
    else
      match (DecodePeerAttrs(e, NewPeer(ZERO_KEY), attrs[0].attrs), DecodePeers(e, attrs[1..]))
      case (Some(p), Some(rest)) => Some([p] + rest)
      case _ => None
  }

  /** One round of the loop. */
  function DecodeDeviceAttr(e: Endian, d: Device, a: Attr): Option<Device> {
    if a.Nest? && a.typ == A_PEERS then
      match DecodePeers(e, a.attrs)
      case Some(ps) => Some(d.(peers := ps))
      case None => None
    else if a.Leaf? && a.typ == A_PUBLIC_KEY then
      if |a.bytes| == KEY_LEN then Some(d.(publicKey := a.bytes)) else None
    else if a.Leaf? && a.typ == A_IFNAME then Some(d.(name := TextOf(a.bytes)))
    else
      match DecodeField(e, d.fields, a)
      case Some(f) => Some(d.(fields := f))
      case None => None
  }

  function DecodeDevice(e: Endian, d: Device, attrs: seq<Attr>): Option<Device>
    decreases |attrs|
  {
    if attrs == [] then Some(d)
    else
      match DecodeDeviceAttr(e, d, attrs[0])
      case Some(next) => DecodeDevice(e, next, attrs[1..])
      case None => None
  }

  /** parseDeviceLoop. */
  method ParseDeviceLoop(e: Endian, attrs: seq<Attr>) returns (r: Option<Device>)
    ensures r == DecodeDevice(e, ZERO_DEVICE, attrs)
  {
    hide DecodeDeviceAttr;
    var d := ZERO_DEVICE;
    for i := 0 to |attrs|
      invariant DecodeDevice(e, d, attrs[i..]) == DecodeDevice(e, ZERO_DEVICE, attrs)
    {
      assert attrs[i..][1..] == attrs[i + 1..];
      var next := DecodeDeviceAttr(e, d, attrs[i]);
      if next.None? {
        return None;
      }
      d := next.value;
    }
    assert attrs[|attrs|..] == [];
    return Some(d);
  }

  // ----- what a report says

  /** Every element of the peer array is a peer with values of the right sizes. */
  predicate PeersOk(e: Endian, attrs: seq<Attr>) {
    forall i :: 0 <= i < |attrs| ==> attrs[i].Nest? && PeerAttrsOk(e, attrs[i].attrs)
  }

  function PeerIn(e: Endian, a: Attr): Peer { if a.Nest? then Reported(e, a.attrs) else NewPeer(ZERO_KEY) }

  function ReportedPeers(e: Endian, attrs: seq<Attr>): seq<Peer> {
    seq(|attrs|, i requires 0 <= i < |attrs| => PeerIn(e, attrs[i]))
  }

  lemma {:induction false} PeersAreReported(e: Endian, attrs: seq<Attr>)
    ensures DecodePeers(e, attrs) == if PeersOk(e, attrs) then Some(ReportedPeers(e, attrs)) else None
  {
    hide DecodePeerAttrs, PeerAttrsOk, Reported;
    if attrs == [] {
      assert ReportedPeers(e, attrs) == [];
    } else {
      PeersAreReported(e, attrs[1..]);
      assert PeersOk(e, attrs) <==> attrs[0].Nest? && PeerAttrsOk(e, attrs[0].attrs) && PeersOk(e, attrs[1..]) by {
        assert forall i :: 0 < i < |attrs| ==> attrs[i] == attrs[1..][i - 1];
      }
      if attrs[0].Nest? {
        PeerIsReported(e, attrs[0].attrs);
        if PeerAttrsOk(e, attrs[0].attrs) && PeersOk(e, attrs[1..]) {
          assert ReportedPeers(e, attrs) == [PeerIn(e, attrs[0])] + ReportedPeers(e, attrs[1..]);
        }
      }
    }
  }

  predicate DeviceAttrOk(e: Endian, a: Attr) {
    match a
    case Nest(typ, attrs) => typ == 8 ==> PeersOk(e, attrs)
    case Leaf(typ, b) => (typ == 4 ==> |b| == 32) && FieldOk(a)
  }

  predicate DeviceAttrsOk(e: Endian, attrs: seq<Attr>) { forall a :: a in attrs ==> DeviceAttrOk(e, a) }

  /** The device a message describes. */
  function ReportedDevice(e: Endian, attrs: seq<Attr>): Device {
    Device(
      TextIn(LastLeaf(attrs, 2)),
      KeyIn(LastLeaf(attrs, 4)).GetOr(ZERO_KEY),
      false,
      ReportedFields(e, attrs),
      ReportedPeers(e, LastNest(attrs, 8).GetOr([])))
  }

  /** The settings ignore what is none. */
  lemma {:induction false} OtherMore(e: Endian, attrs: seq<Attr>, a: Attr)
    requires a.Leaf? ==> a.typ == 2 || a.typ == 4
    ensures ReportedFields(e, attrs + [a]) == ReportedFields(e, attrs)
  {
    hide LastLeaf, LastNest, GetUint16, GetUint32, TextOf;
    SaidByMore(attrs, a);
  }

  lemma {:induction false} OneMoreAttr(e: Endian, attrs: seq<Attr>, a: Attr)
    ensures DecodeDeviceAttr(e, ReportedDevice(e, attrs), a) ==
            if DeviceAttrOk(e, a) then Some(ReportedDevice(e, attrs + [a])) else None
  {
    hide LastLeaf, LastNest, ReportedFields, ReportedPeers, PeersOk, DecodePeers, TextOf;
    SaidByMore(attrs, a);
    if a.Leaf? && a.typ != 2 && a.typ != 4 {
      OneMoreField(e, attrs, a);
    } else {
      OtherMore(e, attrs, a);
      if a.Nest? {
        PeersAreReported(e, a.attrs);
      }
    }
  }

  lemma {:induction false} DecodeDeviceMore(e: Endian, d: Device, attrs: seq<Attr>, a: Attr)
    ensures DecodeDevice(e, d, attrs + [a]) ==
            match DecodeDevice(e, d, attrs)
            case Some(next) => DecodeDeviceAttr(e, next, a)
            case None => None
    decreases |attrs|
  {
    hide DecodeDeviceAttr;
    if attrs == [] {
      assert [a][1..] == [] && attrs + [a] == [a];
      if DecodeDeviceAttr(e, d, a).Some? {
        assert DecodeDevice(e, DecodeDeviceAttr(e, d, a).value, []) == DecodeDeviceAttr(e, d, a);
      }
    } else {
      assert (attrs + [a])[1..] == attrs[1..] + [a];
      match DecodeDeviceAttr(e, d, attrs[0]) {
        case Some(next) => DecodeDeviceMore(e, next, attrs[1..], a);
        case None =>
      }
    }
  }

  /** Decoding a message succeeds exactly when every value in it has its size, and
      gives the device the message describes. */
  lemma {:induction false} DeviceIsReported(e: Endian, attrs: seq<Attr>)
    ensures DecodeDevice(e, ZERO_DEVICE, attrs) ==
            if DeviceAttrsOk(e, attrs) then Some(ReportedDevice(e, attrs)) else None
    decreases |attrs|
  {
    hide DecodeDeviceAttr, DeviceAttrOk;
    if attrs == [] {
      assert ReportedDevice(e, attrs) == ZERO_DEVICE;
    } else {
      hide ReportedDevice;
      var init, a := attrs[..|attrs| - 1], attrs[|attrs| - 1];
      assert attrs == init + [a];
      DeviceIsReported(e, init);
      DecodeDeviceMore(e, ZERO_DEVICE, init, a);
      OneMoreAttr(e, init, a);
    }
  }

  // ----- what a reader finds for a configuration

  function ToldAll(ps: seq<PeerConfig>): seq<Peer> {
    seq(|ps|, i requires 0 <= i < |ps| => Told(ps[i]))
  }

  lemma {:induction false} PeersRoundTrip(e: Endian, from: nat, ps: seq<PeerConfig>)
    requires forall i :: 0 <= i < |ps| ==> Encodable(ps[i])
    ensures EncodePeers(e, from, ps).Some?
    ensures DecodePeers(e, EncodePeers(e, from, ps).value) == Some(ToldAll(ps))
    decreases |ps|
  {
    hide PeerAttrs, DecodePeerAttrs, Told, Encodable;
    if ps == [] {
      assert ToldAll(ps) == [];
    } else {
      PeerRoundTrip(e, ps[0]);
      PeersRoundTrip(e, from + 1, ps[1..]);
      var as_ := EncodePeers(e, from, ps).value;
      assert as_[1..] == EncodePeers(e, from + 1, ps[1..]).value;
      assert ToldAll(ps) == [Told(ps[0])] + ToldAll(ps[1..]);
    }
  }

  /** The addresses of a peer are addresses, and its masks canonical. */
  predicate GoodAddresses(p: PeerConfig) {
    && (p.endpoint.Some? ==> IsValidIP(p.endpoint.value.ip))
    && forall i :: 0 <= i < |p.allowedIPs| ==> Canonical(p.allowedIPs[i])
  }

  predicate AllGood(ps: seq<PeerConfig>) { forall i :: 0 <= i < |ps| ==> GoodAddresses(ps[i]) }

  /** The validator checks the rest of what a peer needs to be encoded. */
  lemma {:induction false} ValidPeersEncodable(cfg: Config)
    requires Valid(cfg) && AllGood(cfg.peers)
    ensures forall i :: 0 <= i < |cfg.peers| ==> Encodable(cfg.peers[i])
  {
    forall i | 0 <= i < |cfg.peers| ensures Encodable(cfg.peers[i]) {
      assert GoodAddresses(cfg.peers[i]);
      assert !Violates(cfg, BadKeepalive(i)) && !Violates(cfg, BadEndpointPort(i));
      hide Valid, Canonical, IsValidIP;
    }
  }

  // ----- the values of a request

  lemma {:induction false} EncodedSays(e: Endian, name: string, cfg: Config)
    requires ConfigAttrs(e, name, cfg).Some?
    ensures forall t: nat :: LastLeaf(ConfigAttrs(e, name, cfg).value, t) == Said(e, name, cfg, t)
    ensures forall t: nat :: LastNest(ConfigAttrs(e, name, cfg).value, t) ==
                             if t == 8 && cfg.peers != [] then EncodePeers(e, 0, cfg.peers) else None
  {
    hide LastLeaf, LastNest, FieldAttrs, EncodePeers, Said;
    var fields, peers := FieldAttrs(e, name, cfg), PeersAttrs(e, cfg.peers).value;
    SaidByOne(Nest(A_PEERS, EncodePeers(e, 0, cfg.peers).GetOr([])));
    forall t: nat
      ensures LastLeaf(fields + peers, t) == Said(e, name, cfg, t)
      ensures LastNest(fields + peers, t) == if t == 8 && cfg.peers != [] then EncodePeers(e, 0, cfg.peers) else None
    {
      FieldsSay(e, name, cfg, t);
      SaidAppend(fields, peers, t);
    }
  }

  lemma {:induction false} DeviceOkAppend(e: Endian, xs: seq<Attr>, ys: seq<Attr>)
    ensures DeviceAttrsOk(e, xs + ys) <==> DeviceAttrsOk(e, xs) && DeviceAttrsOk(e, ys)
  {
    hide DeviceAttrOk;
    assert forall a :: a in xs + ys <==> a in xs || a in ys;
  }

  lemma {:induction false} ValueOk(e: Endian, attrs: seq<Attr>, typ: nat, b: Option<seq<byte>>)
    requires SaysOne(attrs, typ, b) && (b.Some? ==> DeviceAttrOk(e, Leaf(typ, b.value)))
    ensures DeviceAttrsOk(e, attrs)
  {
    hide DeviceAttrOk;
  }

  lemma {:induction false} BasicsOk(e: Endian, name: string, cfg: Config)
    ensures DeviceAttrsOk(e, BasicAttrs(e, name, cfg))
  {
    hide DeviceAttrsOk, PutUint16, PutUint32, BytesOf;
    var a := [TextAttr(A_IFNAME, name)];
    var b := if cfg.privateKey.Some? then [Leaf(A_PRIVATE_KEY, cfg.privateKey.value)] else [];
    var c, d := Int16Attr(e, A_LISTEN_PORT, cfg.listenPort), Int32Attr(e, A_FWMARK, cfg.firewallMark);
    var g := if cfg.replacePeers then [Leaf(A_FLAGS, PutUint32(e, 1))] else [];
    ValueOk(e, a, A_IFNAME, SaidText(Some(name)));
    ValueOk(e, b, A_PRIVATE_KEY, SaidBasic(e, name, cfg, 3));
    ValueOk(e, c, A_LISTEN_PORT, SaidNumber(e, cfg.listenPort));
    ValueOk(e, d, A_FWMARK, SaidBasic(e, name, cfg, 7));
    ValueOk(e, g, A_FLAGS, SaidBasic(e, name, cfg, 5));
    DeviceOkAppend(e, a, b);
    DeviceOkAppend(e, a + b, c);
    DeviceOkAppend(e, a + b + c, d);
    DeviceOkAppend(e, a + b + c + d, g);
  }

  lemma {:induction false} NumbersOk(e: Endian, cfg: Config)
    ensures DeviceAttrsOk(e, JunkAttrs(e, cfg)) && DeviceAttrsOk(e, PaddingAttrs(e, cfg))
  {
    hide DeviceAttrsOk, PutUint16;
    var a, b, c := Int16Attr(e, A_JC, cfg.jc), Int16Attr(e, A_JMIN, cfg.jmin), Int16Attr(e, A_JMAX, cfg.jmax);
    ValueOk(e, a, A_JC, SaidNumber(e, cfg.jc));
    ValueOk(e, b, A_JMIN, SaidNumber(e, cfg.jmin));
    ValueOk(e, c, A_JMAX, SaidNumber(e, cfg.jmax));
    DeviceOkAppend(e, a, b);
    DeviceOkAppend(e, a + b, c);
    var p, q, r, s := Int16Attr(e, A_S1, cfg.s1), Int16Attr(e, A_S2, cfg.s2),
                      Int16Attr(e, A_S3, cfg.s3), Int16Attr(e, A_S4, cfg.s4);
    ValueOk(e, p, A_S1, SaidNumber(e, cfg.s1));
    ValueOk(e, q, A_S2, SaidNumber(e, cfg.s2));
    ValueOk(e, r, A_S3, SaidNumber(e, cfg.s3));
    ValueOk(e, s, A_S4, SaidNumber(e, cfg.s4));
    DeviceOkAppend(e, p, q);
    DeviceOkAppend(e, p + q, r);
    DeviceOkAppend(e, p + q + r, s);
  }

  lemma {:induction false} TextsOk(e: Endian, cfg: Config)
    ensures DeviceAttrsOk(e, HeaderAttrs(cfg)) && DeviceAttrsOk(e, SpecAttrs(cfg))
  {
    hide DeviceAttrsOk, BytesOf;
    var a, b, c, d := StringAttr(A_H1, cfg.h1), StringAttr(A_H2, cfg.h2),
                      StringAttr(A_H3, cfg.h3), StringAttr(A_H4, cfg.h4);
    ValueOk(e, a, A_H1, SaidText(cfg.h1));
    ValueOk(e, b, A_H2, SaidText(cfg.h2));
    ValueOk(e, c, A_H3, SaidText(cfg.h3));
    ValueOk(e, d, A_H4, SaidText(cfg.h4));
    DeviceOkAppend(e, a, b);
    DeviceOkAppend(e, a + b, c);
    DeviceOkAppend(e, a + b + c, d);
    var p, q, r, s, u := StringAttr(A_I1, cfg.i1), StringAttr(A_I2, cfg.i2), StringAttr(A_I3, cfg.i3),
                         StringAttr(A_I4, cfg.i4), StringAttr(A_I5, cfg.i5);
    ValueOk(e, p, A_I1, SaidText(cfg.i1));
    ValueOk(e, q, A_I2, SaidText(cfg.i2));
    ValueOk(e, r, A_I3, SaidText(cfg.i3));
    ValueOk(e, s, A_I4, SaidText(cfg.i4));
    ValueOk(e, u, A_I5, SaidText(cfg.i5));
    DeviceOkAppend(e, p, q);
    DeviceOkAppend(e, p + q, r);
    DeviceOkAppend(e, p + q + r, s);
    DeviceOkAppend(e, p + q + r + s, u);
  }

  lemma {:induction false} NestOk(e: Endian, ps: seq<PeerConfig>)
    requires PeersAttrs(e, ps).Some? && (ps != [] ==> PeersOk(e, EncodePeers(e, 0, ps).value))
    ensures DeviceAttrsOk(e, PeersAttrs(e, ps).value)
  {
    hide PeersOk, EncodePeers;
  }

  lemma {:induction false} EncodedIsDecodable(e: Endian, name: string, cfg: Config)
    requires forall i :: 0 <= i < |cfg.peers| ==> Encodable(cfg.peers[i])
    ensures ConfigAttrs(e, name, cfg).Some? && DeviceAttrsOk(e, ConfigAttrs(e, name, cfg).value)
  {
    hide DeviceAttrsOk, BasicAttrs, JunkAttrs, PaddingAttrs, HeaderAttrs, SpecAttrs, PeersOk, EncodePeers, DecodePeers;
    hide Encodable, ToldAll;
    BasicsOk(e, name, cfg);
    NumbersOk(e, cfg);
    TextsOk(e, cfg);
    PeersRoundTrip(e, 0, cfg.peers);
    var peers := PeersAttrs(e, cfg.peers).value;
    PeersAreReported(e, EncodePeers(e, 0, cfg.peers).value);
    NestOk(e, cfg.peers);
    var a, b, c, d, g := BasicAttrs(e, name, cfg), JunkAttrs(e, cfg), PaddingAttrs(e, cfg),
                         HeaderAttrs(cfg), SpecAttrs(cfg);
    DeviceOkAppend(e, a, b);
    DeviceOkAppend(e, a + b, c);
    DeviceOkAppend(e, a + b + c, d);
    DeviceOkAppend(e, a + b + c + d, g);
    DeviceOkAppend(e, a + b + c + d + g, peers);
  }

  /** A number of at most 16 bits arrives as it was set, and so does a text. */
  lemma {:induction false} NumberArrives(e: Endian, v: Option<int>)
    requires Fits16(v)
    ensures Uint16Of(e, SaidNumber(e, v)) == v
  {
    hide PutUint16, GetUint16;
    if v.Some? {
      assert ToUint16(v.value) == v.value;
      Uint16RoundTrip(e, v.value);
    }
  }

  function TextFrom(b: Option<seq<byte>>): Option<string> { if b.Some? then Some(TextOf(b.value)) else None }

  lemma {:induction false} TextArrives(v: Option<string>)
    requires IsSendable(v)
    ensures TextFrom(SaidText(v)) == v
  {
    hide TextOf, BytesOf;
    if v.Some? {
      TextRoundTrip(v.value);
    }
  }

  /** Every value of a valid configuration arrives. */
  lemma {:induction false} NumbersArrive(e: Endian, cfg: Config)
    requires Valid(cfg)
    ensures Uint16Of(e, SaidNumber(e, cfg.listenPort)) == cfg.listenPort
    ensures Uint16Of(e, SaidNumber(e, cfg.jc)) == cfg.jc && Uint16Of(e, SaidNumber(e, cfg.jmin)) == cfg.jmin
    ensures Uint16Of(e, SaidNumber(e, cfg.jmax)) == cfg.jmax
    ensures Uint16Of(e, SaidNumber(e, cfg.s1)) == cfg.s1 && Uint16Of(e, SaidNumber(e, cfg.s2)) == cfg.s2
    ensures Uint16Of(e, SaidNumber(e, cfg.s3)) == cfg.s3 && Uint16Of(e, SaidNumber(e, cfg.s4)) == cfg.s4
    ensures cfg.firewallMark.Some? ==> 0 <= cfg.firewallMark.value <= MAX_MARK
  {
    hide Uint16Of, SaidNumber, Valid;
    ValidNumbersFit(cfg);
    NumberArrives(e, cfg.listenPort);
    NumberArrives(e, cfg.jc);
    NumberArrives(e, cfg.jmin);
    NumberArrives(e, cfg.jmax);
    NumberArrives(e, cfg.s1);
    NumberArrives(e, cfg.s2);
    NumberArrives(e, cfg.s3);
    NumberArrives(e, cfg.s4);
  }

  lemma {:induction false} TextsArrive(cfg: Config)
    requires Valid(cfg)
    ensures TextFrom(SaidText(cfg.h1)) == cfg.h1 && TextFrom(SaidText(cfg.h2)) == cfg.h2
    ensures TextFrom(SaidText(cfg.h3)) == cfg.h3 && TextFrom(SaidText(cfg.h4)) == cfg.h4
    ensures TextFrom(SaidText(cfg.i1)) == cfg.i1 && TextFrom(SaidText(cfg.i2)) == cfg.i2
    ensures TextFrom(SaidText(cfg.i3)) == cfg.i3 && TextFrom(SaidText(cfg.i4)) == cfg.i4
    ensures TextFrom(SaidText(cfg.i5)) == cfg.i5
  {
    hide TextFrom, SaidText, Valid, IsSendable;
    ValidTextsSendable(cfg);
    var hs, ss := Headers(cfg), Specs(cfg);
    assert hs[0] == cfg.h1 && hs[1] == cfg.h2 && hs[2] == cfg.h3 && hs[3] == cfg.h4;
    assert ss[0] == cfg.i1 && ss[1] == cfg.i2 && ss[2] == cfg.i3 && ss[3] == cfg.i4 && ss[4] == cfg.i5;
    TextArrives(cfg.h1);
    TextArrives(cfg.h2);
    TextArrives(cfg.h3);
    TextArrives(cfg.h4);
    TextArrives(cfg.i1);
    TextArrives(cfg.i2);
    TextArrives(cfg.i3);
    TextArrives(cfg.i4);
    TextArrives(cfg.i5);
  }

  lemma {:induction false} MarkArrives(e: Endian, v: int)
    requires 0 <= v <= MAX_MARK
    ensures Uint32Of(e, Some(PutUint32(e, ToUint32(v)))) == Some(v)
    ensures Uint32Of(e, Some(PutUint32(e, 1))) == Some(1)
  {
    hide PutUint32, GetUint32;
    assert ToUint32(v) == v;
    Uint32RoundTrip(e, v);
    Uint32RoundTrip(e, 1);
  }

  /** The device-wide values the kernel is given, by its numbers. */
  function AskedFields(e: Endian, attrs: seq<Attr>): Config {
    var number := (typ: nat) => Uint16Of(e, LastLeaf(attrs, typ));
    Config(
      KeyIn(LastLeaf(attrs, 3)), number(6), Uint32Of(e, LastLeaf(attrs, 7)),
      HasBit(Uint32Of(e, LastLeaf(attrs, 5)).GetOr(0), 1),
      [],
      number(9), number(10), number(11), number(12), number(13), number(19), number(20),
      TextFrom(LastLeaf(attrs, 14)), TextFrom(LastLeaf(attrs, 15)), TextFrom(LastLeaf(attrs, 16)),
      TextFrom(LastLeaf(attrs, 17)), TextFrom(LastLeaf(attrs, 21)), TextFrom(LastLeaf(attrs, 22)),
      TextFrom(LastLeaf(attrs, 23)), TextFrom(LastLeaf(attrs, 24)), TextFrom(LastLeaf(attrs, 25)))
  }

  lemma {:induction false} FieldsAreAsked(e: Endian, name: string, cfg: Config, attrs: seq<Attr>)
    requires Valid(cfg) && forall t: nat :: LastLeaf(attrs, t) == Said(e, name, cfg, t)
    ensures AskedFields(e, attrs) == cfg.(peers := [])
  {
    hide Valid, LastLeaf, SaidNumber, SaidText, Uint16Of, PutUint32, GetUint32, TextOf;
    NumbersArrive(e, cfg);
    TextsArrive(cfg);
    MarkArrives(e, cfg.firewallMark.GetOr(0));
  }

  lemma {:induction false} FieldsAreReported(e: Endian, name: string, cfg: Config, attrs: seq<Attr>)
    requires Valid(cfg) && forall t: nat :: LastLeaf(attrs, t) == Said(e, name, cfg, t)
    ensures ReportedFields(e, attrs) == ApplyFields(ZERO_FIELDS, cfg)
  {
    hide Valid, ReportedFields, AskedFields;
    FieldsAreAsked(e, name, cfg, attrs);
    ReportedAsAsked(e, attrs);
  }

  /** A report gives the values a request with the same attributes sets. */
  lemma {:induction false} ReportedAsAsked(e: Endian, attrs: seq<Attr>)
    ensures ReportedFields(e, attrs) == ApplyFields(ZERO_FIELDS, AskedFields(e, attrs))
  {
    hide LastLeaf, Uint16Of, Uint32Of, KeyIn, HasBit, TextOf;
  }

  // ----- the main results

  /** The device a message describes that sets what the configuration sets. */
  function Described(name: string, cfg: Config): Device {
    ZERO_DEVICE.(name := name, fields := ApplyFields(ZERO_FIELDS, cfg), peers := ToldAll(cfg.peers))
  }

  /** A valid configuration with good addresses can be encoded, and decoding the
      message gives its values, its peers in order, and nothing else. */
  lemma {:induction false} ConfigRoundTrip(e: Endian, name: string, cfg: Config)
    requires Valid(cfg) && AllGood(cfg.peers) && IsSendable(Some(name))
    ensures ConfigAttrs(e, name, cfg).Some?
    ensures DecodeDevice(e, ZERO_DEVICE, ConfigAttrs(e, name, cfg).value) == Some(Described(name, cfg))
  {
    hide Valid, AllGood, ConfigAttrs, DecodeDevice, DeviceAttrsOk, LastLeaf, LastNest, EncodePeers, DecodePeers;
    hide ApplyFields;
    hide Encodable, Told, IsSendable, ReportedFields, ReportedPeers, PeersOk, TextOf, BytesOf;
    ValidPeersEncodable(cfg);
    EncodedIsDecodable(e, name, cfg);
    var attrs := ConfigAttrs(e, name, cfg).value;
    DeviceIsReported(e, attrs);
    EncodedSays(e, name, cfg);
    FieldsAreReported(e, name, cfg, attrs);
    TextArrives(Some(name));
    PeersRoundTrip(e, 0, cfg.peers);
    PeersAreReported(e, EncodePeers(e, 0, cfg.peers).value);
    assert cfg.peers == [] ==> ReportedPeers(e, []) == ToldAll([]) by { NoPeers(e); }
  }

  lemma {:induction false} NoPeers(e: Endian)
    ensures ReportedPeers(e, []) == [] && ToldAll([]) == []
  {}

  /** The configuration the kernel is asked for, its peers under 8 one by one. */
  function AskedConfig(e: Endian, attrs: seq<Attr>): Config {
    AskedFields(e, attrs).(peers := AskedPeers(e, LastNest(attrs, 8).GetOr([])))
  }

  function AskedPeers(e: Endian, attrs: seq<Attr>): seq<PeerConfig> {
    seq(|attrs|, i requires 0 <= i < |attrs| => Asked(e, if attrs[i].Nest? then attrs[i].attrs else []))
  }

  function NormalPeers(ps: seq<PeerConfig>): seq<PeerConfig> {
    seq(|ps|, i requires 0 <= i < |ps| => NormalPeer(ps[i]))
  }

  lemma {:induction false} PeersAreAsked(e: Endian, from: nat, ps: seq<PeerConfig>)
    requires forall i :: 0 <= i < |ps| ==> Encodable(ps[i]) && !(ps[i].advancedSecurity && ps[i].disableAdvancedSecurity)
    ensures EncodePeers(e, from, ps).Some?
    ensures AskedPeers(e, EncodePeers(e, from, ps).value) == NormalPeers(ps)
    decreases |ps|
  {
    hide PeerAttrs, Asked, NormalPeer, Encodable;
    if ps != [] {
      PeerIsAsked(e, ps[0]);
      PeersAreAsked(e, from + 1, ps[1..]);
      var as_ := EncodePeers(e, from, ps).value;
      assert as_[1..] == EncodePeers(e, from + 1, ps[1..]).value;
      assert AskedPeers(e, as_) == [Asked(e, as_[0].attrs)] + AskedPeers(e, as_[1..]);
      assert NormalPeers(ps) == [NormalPeer(ps[0])] + NormalPeers(ps[1..]);
    }
  }

  /** The kernel is asked for exactly the configuration: every value that is set
      and no other, whether the peer list is replaced, and each peer with its
      settings and flags, in order. */
  lemma {:induction false} ConfigIsAsked(e: Endian, name: string, cfg: Config)
    requires Valid(cfg) && AllGood(cfg.peers)
    ensures ConfigAttrs(e, name, cfg).Some?
    ensures AskedConfig(e, ConfigAttrs(e, name, cfg).value) == cfg.(peers := NormalPeers(cfg.peers))
  {
    hide AllGood, ConfigAttrs, LastLeaf, LastNest, EncodePeers, Encodable, AskedFields, AskedPeers, NormalPeer;
    hide Violates;
    ValidPeersEncodable(cfg);
    EncodedIsDecodable(e, name, cfg);
    var attrs := ConfigAttrs(e, name, cfg).value;
    EncodedSays(e, name, cfg);
    FieldsAreAsked(e, name, cfg, attrs);
    ValidSecurity(cfg);
    PeersAreAsked(e, 0, cfg.peers);
    NoPeersAsked(e);
  }

  lemma {:induction false} NoPeersAsked(e: Endian)
    ensures AskedPeers(e, []) == [] && NormalPeers([]) == []
  {}

  lemma {:induction false} ValidSecurity(cfg: Config)
    requires Valid(cfg)
    ensures forall i :: 0 <= i < |cfg.peers| ==>
              !(cfg.peers[i].advancedSecurity && cfg.peers[i].disableAdvancedSecurity)
  {
    hide Share, HeaderHas, UnparsedHeader, UnparsedSpec;
    forall i | 0 <= i < |cfg.peers| ensures !(cfg.peers[i].advancedSecurity && cfg.peers[i].disableAdvancedSecurity) {
      assert !Violates(cfg, BadSecurity(i));
    }
  }
}

/** No attribute of a batch overflows its 16-bit length field
    (internal/wglinux/configure_linux.go, wgtypes/validate.go). */
module AttrSizes {
  import opened Types
  import opened Net
  import opened Attributes
  import opened PeerCodec
  import opened Numbers
  import opened InitSpec
  import opened Validate
  import opened Batching
  import opened DeviceCodec

  // ----- sizes of the pieces

  lemma {:induction false} OneAttr(a: Attr)
    ensures TotalLen([a]) == Align4(Len(a)) && (AllFit([a]) <==> Fits(a))
    ensures TotalLen([]) == 0 && AllFit([])
  {
    assert [a][1..] == [];
  }

  /** Attributes that fit and take at most so much space. */
  predicate Within(attrs: seq<Attr>, n: nat) { AllFit(attrs) && TotalLen(attrs) <= n }

  lemma {:induction false} WithinAppend(xs: seq<Attr>, m: nat, ys: seq<Attr>, n: nat)
    requires Within(xs, m) && Within(ys, n)
    ensures Within(xs + ys, m + n)
  {
    TotalLenAppend(xs, ys);
    AllFitAppend(xs, ys);
  }

  lemma {:induction false} LeafWithin(typ: nat, b: seq<byte>)
    requires |b| <= 32
    ensures Within([Leaf(typ, b)], 4 + Align4(|b|))
  {
    OneAttr(Leaf(typ, b));
  }

  lemma {:induction false} NoneWithin(n: nat)
    ensures Within([], n)
    ensures forall attrs, m: nat :: Within(attrs, m) && m <= n ==> Within(attrs, n)
  {
    OneAttr(Leaf(0, []));
  }

  lemma {:induction false} NestWithin(typ: nat, attrs: seq<Attr>, n: nat)
    requires Within(attrs, n) && n <= 60000
    ensures Within([Nest(typ, attrs)], 4 + Align4(n))
  {
    OneAttr(Nest(typ, attrs));
  }

  /** One allowed IP takes at most 40 bytes. */
  lemma {:induction false} IPWithin(e: Endian, index: nat, n: IPNet)
    requires EncodeIP(e, index, n).Some?
    ensures Within([EncodeIP(e, index, n).value], 40)
  {
    var a := EncodeIP(e, index, n).value.attrs;
    assert a == [a[0]] + [a[1]] + [a[2]];
    assert |Normal(n.ip)| <= 16;
    hide Within, PutUint16, Normal, MaskOnes;
    LeafWithin(a[0].typ, a[0].bytes);
    LeafWithin(a[1].typ, a[1].bytes);
    LeafWithin(a[2].typ, a[2].bytes);
    WithinAppend([a[0]], 8, [a[1]], if |a[1].bytes| == 4 then 8 else 20);
    WithinAppend([a[0]] + [a[1]], if |a[1].bytes| == 4 then 16 else 28, [a[2]], 8);
    NestWithin(ToUint16(index), a, if |a[1].bytes| == 4 then 24 else 36);
    NoneWithin(40);
  }

  lemma {:induction false} IPsWithin(e: Endian, from: nat, ips: seq<IPNet>)
    requires EncodeIPs(e, from, ips).Some?
    ensures Within(EncodeIPs(e, from, ips).value, 40 * |ips|)
    decreases |ips|
  {
    hide Within, EncodeIP;
    if ips == [] {
      NoneWithin(0);
    } else {
      IPWithin(e, from, ips[0]);
      IPsWithin(e, from + 1, ips[1..]);
      WithinAppend([EncodeIP(e, from, ips[0]).value], 40, EncodeIPs(e, from + 1, ips[1..]).value, 40 * (|ips| - 1));
    }
  }

  lemma {:induction false} FlagsWithin(e: Endian, p: PeerConfig)
    ensures Within(FlagAttrs(e, p), 12)
  {
    hide Within, PutUint32, FlagBits;
    var xs := if FlagBits(p) != 0 then [Leaf(PEER_FLAGS, PutUint32(e, FlagBits(p)))] else [];
    var ys := if p.advancedSecurity then [Leaf(PEER_ADVANCED_SECURITY, [])] else [];
    NoneWithin(8);
    NoneWithin(4);
    if FlagBits(p) != 0 {
      LeafWithin(PEER_FLAGS, PutUint32(e, FlagBits(p)));
    }
    if p.advancedSecurity {
      LeafWithin(PEER_ADVANCED_SECURITY, []);
    }
    WithinAppend(xs, 8, ys, 4);
  }

  lemma {:induction false} PskWithin(p: PeerConfig)
    ensures Within(PskAttrs(p), 36)
  {
    hide Within;
    NoneWithin(36);
    if p.presharedKey.Some? {
      LeafWithin(PEER_PRESHARED_KEY, p.presharedKey.value);
    }
  }

  lemma {:induction false} EndpointWithin(e: Endian, p: PeerConfig)
    requires EndpointAttrs(e, p).Some?
    ensures Within(EndpointAttrs(e, p).value, 32)
  {
    NoneWithin(32);
    if p.endpoint.Some? {
      SockaddrSize(e, p.endpoint.value);
      hide Within, EncodeSockaddr;
      var b := EncodeSockaddr(e, p.endpoint.value).value;
      LeafWithin(PEER_ENDPOINT, b);
      NoneWithin(32);
    }
  }

  lemma {:induction false} SockaddrSize(e: Endian, a: UDPAddr)
    requires EncodeSockaddr(e, a).Some?
    ensures |EncodeSockaddr(e, a).value| == 16 || |EncodeSockaddr(e, a).value| == 28
  {
  }

  lemma {:induction false} KeepaliveWithin(e: Endian, p: PeerConfig)
    ensures Within(KeepaliveAttrs(e, p), 8)
  {
    hide Within, PutUint16;
    NoneWithin(8);
    if p.keepalive.Some? {
      LeafWithin(PEER_KEEPALIVE, PutUint16(e, ToUint16(WholeSeconds(p.keepalive.value))));
    }
  }

  lemma {:induction false} AllowedWithin(e: Endian, p: PeerConfig)
    requires AllowedAttrs(e, p).Some? && |p.allowedIPs| <= IP_BATCH_CHUNK
    ensures Within(AllowedAttrs(e, p).value, 4 + 40 * |p.allowedIPs|)
  {
    hide Within;
    NoneWithin(4 + 40 * |p.allowedIPs|);
    if p.allowedIPs != [] {
      IPsWithin(e, 0, p.allowedIPs);
      NestWithin(PEER_ALLOWEDIPS, EncodeIPs(e, 0, p.allowedIPs).value, 40 * |p.allowedIPs|);
    }
  }

  /** A peer takes at most 132 bytes and 40 for each allowed IP. */
  lemma {:induction false} PeerWithin(e: Endian, p: PeerConfig)
    requires PeerAttrs(e, p).Some? && |p.allowedIPs| <= IP_BATCH_CHUNK
    ensures Within(PeerAttrs(e, p).value, 128 + 40 * |p.allowedIPs|)
  {
    hide Within, FlagAttrs, PskAttrs, EndpointAttrs, KeepaliveAttrs, AllowedAttrs;
    var first := [Leaf(PEER_PUBLIC_KEY, p.publicKey)];
    var ep, ips := EndpointAttrs(e, p).value, AllowedAttrs(e, p).value;
    LeafWithin(PEER_PUBLIC_KEY, p.publicKey);
    FlagsWithin(e, p);
    PskWithin(p);
    EndpointWithin(e, p);
    KeepaliveWithin(e, p);
    AllowedWithin(e, p);
    WithinAppend(first, 36, FlagAttrs(e, p), 12);
    WithinAppend(first + FlagAttrs(e, p), 48, PskAttrs(p), 36);
    WithinAppend(first + FlagAttrs(e, p) + PskAttrs(p), 84, ep, 32);
    WithinAppend(first + FlagAttrs(e, p) + PskAttrs(p) + ep, 116, KeepaliveAttrs(e, p), 8);
    WithinAppend(first + FlagAttrs(e, p) + PskAttrs(p) + ep + KeepaliveAttrs(e, p), 124, ips, 4 + 40 * |p.allowedIPs|);
  }

  lemma {:induction false} PeersWithin(e: Endian, from: nat, ps: seq<PeerConfig>)
    requires EncodePeers(e, from, ps).Some? && CountIPs(ps) <= IP_BATCH_CHUNK
    ensures Within(EncodePeers(e, from, ps).value, 132 * |ps| + 40 * CountIPs(ps))
    decreases |ps|
  {
    hide Within, PeerAttrs;
    if ps == [] {
      NoneWithin(0);
    } else {
      var n := |ps[0].allowedIPs|;
      PeerWithin(e, ps[0]);
      NestWithin(ToUint16(from), PeerAttrs(e, ps[0]).value, 128 + 40 * n);
      PeersWithin(e, from + 1, ps[1..]);
      WithinAppend([Nest(ToUint16(from), PeerAttrs(e, ps[0]).value)], 132 + 40 * n,
                   EncodePeers(e, from + 1, ps[1..]).value, 132 * (|ps| - 1) + 40 * CountIPs(ps[1..]));
    }
  }

  /** The peers of a batch, all together, fit in one attribute. */
  lemma {:induction false} BatchPeersFit(e: Endian, ps: seq<PeerConfig>)
    requires PeersAttrs(e, ps).Some? && |ps| <= PEER_BATCH_CHUNK && CountIPs(ps) <= IP_BATCH_CHUNK
    ensures AllFit(PeersAttrs(e, ps).value)
  {
    if ps != [] {
      PeersWithin(e, 0, ps);
      NestWithin(A_PEERS, EncodePeers(e, 0, ps).value, 132 * |ps| + 40 * CountIPs(ps));
    }
  }

  // ----- the device-wide attributes

  /** A text that fits in an attribute with its NUL. */
  predicate ShortText(v: Option<string>) { v.Some? ==> |v.value| <= 65530 }

  /** Nothing but the header texts lacks a limit: see MAX_INIT_SPEC_LEN. */
  predicate ShortHeaders(cfg: Config) {
    ShortText(cfg.h1) && ShortText(cfg.h2) && ShortText(cfg.h3) && ShortText(cfg.h4)
  }

  lemma {:induction false} StringFits(typ: nat, v: Option<string>)
    ensures AllFit(StringAttr(typ, v)) <==> ShortText(v)
  {
    if v.Some? {
      OneAttr(TextAttr(typ, v.value));
    }
  }

  lemma {:induction false} Int16Fits(e: Endian, typ: nat, v: Option<int>)
    ensures AllFit(Int16Attr(e, typ, v))
  {
    if v.Some? {
      OneAttr(Int16Attr(e, typ, v)[0]);
    }
  }

  lemma {:induction false} BasicsFit(e: Endian, name: string, cfg: Config)
    ensures AllFit(BasicAttrs(e, name, cfg)) <==> ShortText(Some(name))
  {
    var a := [TextAttr(A_IFNAME, name)];
    var b := if cfg.privateKey.Some? then [Leaf(A_PRIVATE_KEY, cfg.privateKey.value)] else [];
    var c, d := Int16Attr(e, A_LISTEN_PORT, cfg.listenPort), Int32Attr(e, A_FWMARK, cfg.firewallMark);
    var g := if cfg.replacePeers then [Leaf(A_FLAGS, PutUint32(e, 1))] else [];
    StringFits(A_IFNAME, Some(name));
    if cfg.privateKey.Some? {
      OneAttr(b[0]);
    }
    Int16Fits(e, A_LISTEN_PORT, cfg.listenPort);
    if cfg.firewallMark.Some? {
      OneAttr(d[0]);
    }
    if cfg.replacePeers {
      OneAttr(g[0]);
    }
    AllFitAppend(a, b);
    AllFitAppend(a + b, c);
    AllFitAppend(a + b + c, d);
    AllFitAppend(a + b + c + d, g);
  }

  lemma {:induction false} NumbersFit(e: Endian, cfg: Config)
    ensures AllFit(JunkAttrs(e, cfg)) && AllFit(PaddingAttrs(e, cfg))
  {
    hide Int16Attr;
    var a, b, c := Int16Attr(e, A_JC, cfg.jc), Int16Attr(e, A_JMIN, cfg.jmin), Int16Attr(e, A_JMAX, cfg.jmax);
    Int16Fits(e, A_JC, cfg.jc);
    Int16Fits(e, A_JMIN, cfg.jmin);
    Int16Fits(e, A_JMAX, cfg.jmax);
    AllFitAppend(a, b);
    AllFitAppend(a + b, c);
    var p, q, r, s := Int16Attr(e, A_S1, cfg.s1), Int16Attr(e, A_S2, cfg.s2),
                      Int16Attr(e, A_S3, cfg.s3), Int16Attr(e, A_S4, cfg.s4);
    Int16Fits(e, A_S1, cfg.s1);
    Int16Fits(e, A_S2, cfg.s2);
    Int16Fits(e, A_S3, cfg.s3);
    Int16Fits(e, A_S4, cfg.s4);
    AllFitAppend(p, q);
    AllFitAppend(p + q, r);
    AllFitAppend(p + q + r, s);
  }

  lemma {:induction false} HeadersFit(cfg: Config)
    ensures AllFit(HeaderAttrs(cfg)) <==> ShortHeaders(cfg)
  {
    hide StringAttr, ShortText;
    var a, b, c, d := StringAttr(A_H1, cfg.h1), StringAttr(A_H2, cfg.h2),
                      StringAttr(A_H3, cfg.h3), StringAttr(A_H4, cfg.h4);
    StringFits(A_H1, cfg.h1);
    StringFits(A_H2, cfg.h2);
    StringFits(A_H3, cfg.h3);
    StringFits(A_H4, cfg.h4);
    AllFitAppend(a, b);
    AllFitAppend(a + b, c);
    AllFitAppend(a + b + c, d);
  }

  lemma {:induction false} SpecsFit(cfg: Config)
    requires Valid(cfg)
    ensures AllFit(SpecAttrs(cfg))
  {
    hide Meaning, ParseMagicHeader;
    var ss := Specs(cfg);
    forall i | 0 <= i < 5 ensures ShortText(ss[i]) {
      assert !Violates(cfg, LongSpec(i));
    }
    assert ss[0] == cfg.i1 && ss[1] == cfg.i2 && ss[2] == cfg.i3 && ss[3] == cfg.i4 && ss[4] == cfg.i5;
    hide Valid, StringAttr, ShortText;
    var a, b, c, d, g := StringAttr(A_I1, cfg.i1), StringAttr(A_I2, cfg.i2), StringAttr(A_I3, cfg.i3),
                         StringAttr(A_I4, cfg.i4), StringAttr(A_I5, cfg.i5);
    StringFits(A_I1, cfg.i1);
    StringFits(A_I2, cfg.i2);
    StringFits(A_I3, cfg.i3);
    StringFits(A_I4, cfg.i4);
    StringFits(A_I5, cfg.i5);
    AllFitAppend(a, b);
    AllFitAppend(a + b, c);
    AllFitAppend(a + b + c, d);
    AllFitAppend(a + b + c + d, g);
  }

  // ----- the batches of a valid configuration

  /** A batch of a valid configuration is valid where it matters here: it has
      the configuration's values or none. */
  lemma {:induction false} BatchSpecs(cfg: Config, b: Config)
    requires Valid(cfg) && b in Batches(cfg)
    ensures AllFit(SpecAttrs(b))
    ensures b == cfg.(peers := b.peers) || b == Strip(cfg).(replacePeers := false, peers := b.peers)
  {
    hide Valid;
    if NeedsBatching(cfg) {
      var ms := Messages(cfg.peers, {});
      var j :| 0 <= j < |ms| && b == Batch(cfg, j, ms[j]);
    }
    SpecsFit(cfg);
    if b != cfg.(peers := b.peers) {
      OneAttr(Leaf(0, []));
      assert SpecAttrs(b) == [];
    } else {
      assert SpecAttrs(b) == SpecAttrs(cfg);
    }
  }

  /** Every attribute of every batch of a valid configuration, at every depth,
      fits its length field exactly when the interface name does and no header
      text in the batch is longer than 65530 bytes: the validator leaves their
      length open, leading zeros being accepted. */
  lemma {:induction false} BatchAttributesFit(e: Endian, name: string, cfg: Config, b: Config)
    requires Valid(cfg) && b in Batches(cfg) && ConfigAttrs(e, name, b).Some?
    ensures AllFit(ConfigAttrs(e, name, b).value) <==> ShortText(Some(name)) && ShortHeaders(b)
  {
    hide Valid, BasicAttrs, JunkAttrs, PaddingAttrs, HeaderAttrs, SpecAttrs, ShortText, ShortHeaders, AllFit, Batches;
    hide PeersAttrs, Strip;
    BatchSpecs(cfg, b);
    BatchesAreSmall(cfg, b);
    BatchPeersFit(e, b.peers);
    BasicsFit(e, name, b);
    NumbersFit(e, b);
    HeadersFit(b);
    var p, q, r, s, t := BasicAttrs(e, name, b), JunkAttrs(e, b), PaddingAttrs(e, b), HeaderAttrs(b), SpecAttrs(b);
    AllFitAppend(p, q);
    AllFitAppend(p + q, r);
    AllFitAppend(p + q + r, s);
    AllFitAppend(p + q + r + s, t);
    AllFitAppend(p + q + r + s + t, PeersAttrs(e, b.peers).value);
  }

  lemma {:induction false} IPIndexes(e: Endian, from: nat, ips: seq<IPNet>)
    requires EncodeIPs(e, from, ips).Some?
    ensures var as_ := EncodeIPs(e, from, ips).value;
            |as_| == |ips| && forall i :: 0 <= i < |ips| ==> as_[i].typ == ToUint16(from + i)
    decreases |ips|
  {
    if ips != [] {
      IPIndexes(e, from + 1, ips[1..]);
    }
  }

  lemma {:induction false} PeerIndexes(e: Endian, from: nat, ps: seq<PeerConfig>)
    requires EncodePeers(e, from, ps).Some?
    ensures var as_ := EncodePeers(e, from, ps).value;
            |as_| == |ps| && forall i :: 0 <= i < |ps| ==> as_[i].typ == ToUint16(from + i)
    decreases |ps|
  {
    hide PeerAttrs;
    if ps != [] {
      PeerIndexes(e, from + 1, ps[1..]);
    }
  }

  /** Every peer of a batch, and every allowed IP of a peer, stands under its own
      index: none is narrowed. */
  lemma {:induction false} IndexesAreKept(e: Endian, cfg: Config, b: Config)
    requires b in Batches(cfg) && EncodePeers(e, 0, b.peers).Some?
    ensures var as_ := EncodePeers(e, 0, b.peers).value;
            |as_| == |b.peers| && forall i :: 0 <= i < |as_| ==> as_[i].typ == i
    ensures forall p :: p in b.peers && EncodeIPs(e, 0, p.allowedIPs).Some? ==>
              var as_ := EncodeIPs(e, 0, p.allowedIPs).value;
              |as_| == |p.allowedIPs| && forall j :: 0 <= j < |as_| ==> as_[j].typ == j
  {
    hide EncodePeers, EncodeIPs;
    BatchesAreSmall(cfg, b);
    PeerIndexes(e, 0, b.peers);
    forall p | p in b.peers && EncodeIPs(e, 0, p.allowedIPs).Some?
      ensures var as_ := EncodeIPs(e, 0, p.allowedIPs).value;
              |as_| == |p.allowedIPs| && forall j :: 0 <= j < |as_| ==> as_[j].typ == j
    {
      var i :| 0 <= i < |b.peers| && b.peers[i] == p;
      PeerIPsCounted(b.peers, i);
      IPIndexes(e, 0, p.allowedIPs);
    }
  }

  lemma {:induction false} PeerIPsCounted(ps: seq<PeerConfig>, i: nat)
    requires i < |ps|
    ensures |ps[i].allowedIPs| <= CountIPs(ps)
  {
    if i > 0 {
      PeerIPsCounted(ps[1..], i - 1);
    }
  }

  /** A valid configuration no message can hold: a header of many zeros. */
  lemma {:induction false} LongHeaderOverflows(e: Endian)
    ensures var cfg := NO_CONFIG.(h1 := Some(ZeroText(MAX_ATTR)));
            && Valid(cfg) && Batches(cfg) == [cfg]
            && ConfigAttrs(e, "wg0", cfg).Some? && !AllFit(ConfigAttrs(e, "wg0", cfg).value)
  {
    hide Valid, AllFit, FieldAttrs, ZeroText;
    var cfg := NO_CONFIG.(h1 := Some(ZeroText(MAX_ATTR)));
    ZeroHeaderIsValid(MAX_ATTR);
    assert Batches(cfg) == [cfg];
    assert ConfigAttrs(e, "wg0", cfg).Some?;
    BatchAttributesFit(e, "wg0", cfg, cfg);
  }
}

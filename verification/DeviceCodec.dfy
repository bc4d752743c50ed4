/** configAttrs (internal/wglinux/configure_linux.go) and parseDeviceLoop
    (internal/wglinux/parse_linux.go): a whole configuration as attributes. */
module DeviceCodec {
  import opened Types
  import opened Attributes
  import opened PeerCodec
  import opened Numbers
  import opened InitSpec
  import opened Validate

  const A_IFNAME := 2
  const A_PRIVATE_KEY := 3
  const A_FLAGS := 5
  const A_LISTEN_PORT := 6
  const A_FWMARK := 7
  const A_PEERS := 8
  const A_JC := 9
  const A_JMIN := 10
  const A_JMAX := 11
  const A_S1 := 12
  const A_S2 := 13
  const A_H1 := 14
  const A_H2 := 15
  const A_H3 := 16
  const A_H4 := 17
  const A_S3 := 19
  const A_S4 := 20
  const A_I1 := 21
  const A_I2 := 22
  const A_I3 := 23
  const A_I4 := 24
  const A_I5 := 25

  // ----- encoding

  function Int16Attr(e: Endian, typ: nat, v: Option<int>): seq<Attr> {
    if v.Some? then [Leaf(typ, PutUint16(e, ToUint16(v.value)))] else []
  }

  function Int32Attr(e: Endian, typ: nat, v: Option<int>): seq<Attr> {
    if v.Some? then [Leaf(typ, PutUint32(e, ToUint32(v.value)))] else []
  }

  function StringAttr(typ: nat, v: Option<string>): seq<Attr> {
    if v.Some? then [TextAttr(typ, v.value)] else []
  }

  function BasicAttrs(e: Endian, name: string, cfg: Config): seq<Attr> {
    [TextAttr(A_IFNAME, name)]
    + (if cfg.privateKey.Some? then [Leaf(A_PRIVATE_KEY, cfg.privateKey.value)] else [])
    + Int16Attr(e, A_LISTEN_PORT, cfg.listenPort)
    + Int32Attr(e, A_FWMARK, cfg.firewallMark)
    + (if cfg.replacePeers then [Leaf(A_FLAGS, PutUint32(e, 1))] else [])
  }

  function JunkAttrs(e: Endian, cfg: Config): seq<Attr> {
    Int16Attr(e, A_JC, cfg.jc) + Int16Attr(e, A_JMIN, cfg.jmin) + Int16Attr(e, A_JMAX, cfg.jmax)
  }

  function PaddingAttrs(e: Endian, cfg: Config): seq<Attr> {
    Int16Attr(e, A_S1, cfg.s1) + Int16Attr(e, A_S2, cfg.s2) + Int16Attr(e, A_S3, cfg.s3) + Int16Attr(e, A_S4, cfg.s4)
  }

  function HeaderAttrs(cfg: Config): seq<Attr> {
    StringAttr(A_H1, cfg.h1) + StringAttr(A_H2, cfg.h2) + StringAttr(A_H3, cfg.h3) + StringAttr(A_H4, cfg.h4)
  }

  function SpecAttrs(cfg: Config): seq<Attr> {
    StringAttr(A_I1, cfg.i1) + StringAttr(A_I2, cfg.i2) + StringAttr(A_I3, cfg.i3)
    + StringAttr(A_I4, cfg.i4) + StringAttr(A_I5, cfg.i5)
  }

  /** The nested peers, each under its index. */
  function EncodePeers(e: Endian, from: nat, ps: seq<PeerConfig>): Option<seq<Attr>>
    decreases |ps|
  {
    if ps == [] then Some([])
    else
      match (PeerAttrs(e, ps[0]), EncodePeers(e, from + 1, ps[1..]))
      case (Some(a), Some(rest)) => Some([Nest(ToUint16(from), a)] + rest)
      case _ => None
  }

  function PeersAttrs(e: Endian, ps: seq<PeerConfig>): Option<seq<Attr>> {
    if ps == [] then Some([])
    else
      match EncodePeers(e, 0, ps)
      case Some(as_) => Some([Nest(A_PEERS, as_)])
      case None => None
  }

  function FieldAttrs(e: Endian, name: string, cfg: Config): seq<Attr> {
    BasicAttrs(e, name, cfg) + JunkAttrs(e, cfg) + PaddingAttrs(e, cfg) + HeaderAttrs(cfg) + SpecAttrs(cfg)
  }

  /** The attributes of a request; None when a peer has an invalid address. */
  function ConfigAttrs(e: Endian, name: string, cfg: Config): Option<seq<Attr>> {
    match PeersAttrs(e, cfg.peers)
    case Some(peers) => Some(FieldAttrs(e, name, cfg) + peers)
    case None => None
  }

  /** The loop over the peers in configAttrs. */
  method EncodePeerList(e: Endian, ps: seq<PeerConfig>) returns (r: Option<seq<Attr>>)
    ensures r == EncodePeers(e, 0, ps)
  {
    hide PeerAttrs;
    var nae: seq<Attr> := [];
    BehindOne([], Leaf(0, []), EncodePeers(e, 0, ps));
    assert ps[0..] == ps;
    for i := 0 to |ps|
      invariant EncodePeers(e, 0, ps) == Behind(nae, EncodePeers(e, i, ps[i..]))
    {
      assert ps[i..][1..] == ps[i + 1..];
      var a := EncodePeer(e, ps[i]);
      if a.None? {
        return None;
      }
      var nested := Nest(ToUint16(i), a.value);
      BehindOne(nae, nested, EncodePeers(e, i + 1, ps[i + 1..]));
      nae := nae + [nested];
    }
    assert ps[|ps|..] == [];
    BehindOne(nae, Leaf(0, []), Some([]));
    return Some(nae);
  }

  // ----- decoding

  /** One round of parseDeviceLoop, for the device-wide attributes. */
  function DecodeField(e: Endian, f: Fields, a: Attr): Option<Fields> {
    if a.Nest? then Some(f)
    else if a.typ == A_PRIVATE_KEY then
      if |a.bytes| == KEY_LEN then Some(f.(privateKey := a.bytes)) else None
    else if a.typ == A_FWMARK then
      if |a.bytes| == 4 then Some(f.(firewallMark := GetUint32(e, a.bytes))) else None
    else if IsInt16(a.typ) then
      if |a.bytes| == 2 then Some(SetInt16(f, a.typ, GetUint16(e, a.bytes))) else None
    else if IsText(a.typ) then Some(SetText(f, a.typ, TextOf(a.bytes)))
    else Some(f)
  }

  predicate IsInt16(typ: nat) {
    typ == A_LISTEN_PORT || typ == A_JC || typ == A_JMIN || typ == A_JMAX
    || typ == A_S1 || typ == A_S2 || typ == A_S3 || typ == A_S4
  }

  function SetInt16(f: Fields, typ: nat, v: nat): Fields {
    if typ == A_LISTEN_PORT then f.(listenPort := v)
    else if typ == A_JC then f.(jc := v)
    else if typ == A_JMIN then f.(jmin := v)
    else if typ == A_JMAX then f.(jmax := v)
    else if typ == A_S1 then f.(s1 := v)
    else if typ == A_S2 then f.(s2 := v)
    else if typ == A_S3 then f.(s3 := v)
    else if typ == A_S4 then f.(s4 := v)
    else f
  }

  predicate IsText(typ: nat) {
    typ == A_H1 || typ == A_H2 || typ == A_H3 || typ == A_H4
    || typ == A_I1 || typ == A_I2 || typ == A_I3 || typ == A_I4 || typ == A_I5
  }

  function SetText(f: Fields, typ: nat, s: string): Fields {
    if typ == A_H1 then f.(h1 := s)
    else if typ == A_H2 then f.(h2 := s)
    else if typ == A_H3 then f.(h3 := s)
    else if typ == A_H4 then f.(h4 := s)
    else if typ == A_I1 then f.(i1 := s)
    else if typ == A_I2 then f.(i2 := s)
    else if typ == A_I3 then f.(i3 := s)
    else if typ == A_I4 then f.(i4 := s)
    else if typ == A_I5 then f.(i5 := s)
    else f
  }

  /** A text whose characters are bytes other than NUL. */
  predicate IsSendable(v: Option<string>) { v.Some? ==> '\0' !in v.value && IsByteText(v.value) }

  lemma {:induction false} PlainIsSendable(s: string)
    requires forall c :: c in s ==> c as int < 0x80 && c != '\0'
    ensures IsSendable(Some(s))
  {
    forall i | 0 <= i < |s| ensures s[i] as int < 0x100 {
      assert s[i] in s;
    }
  }

  /** No accepted text holds a NUL or a character that is no byte. */
  lemma {:induction false} ValidTextsSendable(cfg: Config)
    requires Valid(cfg)
    ensures forall i :: 0 <= i < 4 ==> IsSendable(Headers(cfg)[i])
    ensures forall i :: 0 <= i < 5 ==> IsSendable(Specs(cfg)[i])
  {
    hide ParseMagicHeader, Meaning, Share;
    forall i | 0 <= i < 4 ensures IsSendable(Headers(cfg)[i]) {
      assert !Violates(cfg, BadHeader(i));
      var h := Headers(cfg)[i];
      if h.Some? {
        HeaderAlphabet(h.value);
        PlainIsSendable(h.value);
      }
    }
    forall i | 0 <= i < 5 ensures IsSendable(Specs(cfg)[i]) {
      assert !Violates(cfg, BadSpec(i));
      var s := Specs(cfg)[i];
      if s.Some? {
        AcceptedSpecIsPlain(s.value);
        PlainIsSendable(s.value);
      }
    }
  }

  // ----- what a report says

  /** A value of the size its type asks for. */
  predicate FieldOk(a: Attr)
    requires a.Leaf?
  {
    && (a.typ == 3 ==> |a.bytes| == 32)
    && (a.typ == 7 ==> |a.bytes| == 4)
    && (a.typ == 6 || 9 <= a.typ <= 13 || a.typ == 19 || a.typ == 20 ==> |a.bytes| == 2)
  }

  function TextIn(b: Option<seq<byte>>): string { if b.Some? then TextOf(b.value) else "" }

  /** The settings a report describes: each value stands under the number the
      kernel gives it, and of several the last counts. */
  function ReportedFields(e: Endian, attrs: seq<Attr>): Fields {
    var number := (typ: nat) => Uint16Of(e, LastLeaf(attrs, typ)).GetOr(0);
    Fields(
      KeyIn(LastLeaf(attrs, 3)).GetOr(ZERO_KEY), number(6), Uint32Of(e, LastLeaf(attrs, 7)).GetOr(0),
      number(9), number(10), number(11), number(12), number(13), number(19), number(20),
      TextIn(LastLeaf(attrs, 14)), TextIn(LastLeaf(attrs, 15)), TextIn(LastLeaf(attrs, 16)), TextIn(LastLeaf(attrs, 17)),
      TextIn(LastLeaf(attrs, 21)), TextIn(LastLeaf(attrs, 22)), TextIn(LastLeaf(attrs, 23)),
      TextIn(LastLeaf(attrs, 24)), TextIn(LastLeaf(attrs, 25)))
  }

  /** One value more is reported exactly as it is decoded. */
  predicate FieldSaysMore(e: Endian, attrs: seq<Attr>, a: Attr)
    requires a.Leaf?
  {
    DecodeField(e, ReportedFields(e, attrs), a) == if FieldOk(a) then Some(ReportedFields(e, attrs + [a])) else None
  }

  lemma {:induction false} OneMoreInt16(e: Endian, attrs: seq<Attr>, a: Attr)
    requires a.Leaf? && IsInt16(a.typ)
    ensures FieldSaysMore(e, attrs, a)
  {
    hide LastLeaf, GetUint16, GetUint32, TextOf;
    SaidByMore(attrs, a);
  }

  lemma {:induction false} OneMoreHeader(e: Endian, attrs: seq<Attr>, a: Attr)
    requires a.Leaf? && 14 <= a.typ <= 17
    ensures FieldSaysMore(e, attrs, a)
  {
    hide LastLeaf, GetUint16, GetUint32, TextOf;
    SaidByMore(attrs, a);
  }

  lemma {:induction false} OneMoreSpec(e: Endian, attrs: seq<Attr>, a: Attr)
    requires a.Leaf? && 21 <= a.typ <= 25
    ensures FieldSaysMore(e, attrs, a)
  {
    hide LastLeaf, GetUint16, GetUint32, TextOf;
    SaidByMore(attrs, a);
  }

  lemma {:induction false} OneMoreField(e: Endian, attrs: seq<Attr>, a: Attr)
    requires a.Leaf?
    ensures FieldSaysMore(e, attrs, a)
  {
    if IsInt16(a.typ) {
      hide FieldSaysMore;
      OneMoreInt16(e, attrs, a);
    } else if 14 <= a.typ <= 17 {
      hide FieldSaysMore;
      OneMoreHeader(e, attrs, a);
    } else if 21 <= a.typ <= 25 {
      hide FieldSaysMore;
      OneMoreSpec(e, attrs, a);
    } else {
      hide LastLeaf, GetUint16, GetUint32, TextOf;
      SaidByMore(attrs, a);
    }
  }

  // ----- what a request says

  function SaidText(v: Option<string>): Option<seq<byte>> { if v.Some? then Some(BytesOf(v.value) + [0]) else None }

  function SaidNumber(e: Endian, v: Option<int>): Option<seq<byte>> {
    if v.Some? then Some(PutUint16(e, ToUint16(v.value))) else None
  }

  /** What the attributes in front of the peers say under each number. */
  function Said(e: Endian, name: string, cfg: Config, typ: nat): Option<seq<byte>> {
    if typ <= 8 then SaidBasic(e, name, cfg, typ) else SaidParameter(e, cfg, typ)
  }

  function SaidBasic(e: Endian, name: string, cfg: Config, typ: nat): Option<seq<byte>> {
    if typ == 2 then SaidText(Some(name))
    else if typ == 3 then if cfg.privateKey.Some? then Some(cfg.privateKey.value) else None
    else if typ == 5 then if cfg.replacePeers then Some(PutUint32(e, 1)) else None
    else if typ == 6 then SaidNumber(e, cfg.listenPort)
    else if typ == 7 then if cfg.firewallMark.Some? then Some(PutUint32(e, ToUint32(cfg.firewallMark.value))) else None
    else None
  }

  function SaidParameter(e: Endian, cfg: Config, typ: nat): Option<seq<byte>> {
    if typ == 9 then SaidNumber(e, cfg.jc)
    else if typ == 10 then SaidNumber(e, cfg.jmin)
    else if typ == 11 then SaidNumber(e, cfg.jmax)
    else if typ == 12 then SaidNumber(e, cfg.s1)
    else if typ == 13 then SaidNumber(e, cfg.s2)
    else if typ == 14 then SaidText(cfg.h1)
    else if typ == 15 then SaidText(cfg.h2)
    else if typ == 16 then SaidText(cfg.h3)
    else if typ == 17 then SaidText(cfg.h4)
    else if typ == 19 then SaidNumber(e, cfg.s3)
    else if typ == 20 then SaidNumber(e, cfg.s4)
    else if typ == 21 then SaidText(cfg.i1)
    else if typ == 22 then SaidText(cfg.i2)
    else if typ == 23 then SaidText(cfg.i3)
    else if typ == 24 then SaidText(cfg.i4)
    else if typ == 25 then SaidText(cfg.i5)
    else None
  }

  lemma {:induction false} NameSays(e: Endian, name: string, cfg: Config, t: nat)
    ensures var b := if cfg.privateKey.Some? then [Leaf(A_PRIVATE_KEY, cfg.privateKey.value)] else [];
            var attrs := [TextAttr(A_IFNAME, name)] + b;
            && LastLeaf(attrs, t) == (if t == 2 || t == 3 then SaidBasic(e, name, cfg, t) else None)
            && LastNest(attrs, t) == None
  {
    hide LastLeaf, LastNest;
    var b := if cfg.privateKey.Some? then [Leaf(A_PRIVATE_KEY, cfg.privateKey.value)] else [];
    SaidByOne(TextAttr(A_IFNAME, name));
    SaysOneSaid(b, 3, SaidBasic(e, name, cfg, 3), t);
    SaidAppend([TextAttr(A_IFNAME, name)], b, t);
  }

  lemma {:induction false} BasicsSay(e: Endian, name: string, cfg: Config, t: nat)
    ensures LastLeaf(BasicAttrs(e, name, cfg), t) == SaidBasic(e, name, cfg, t)
    ensures LastNest(BasicAttrs(e, name, cfg), t) == None
  {
    hide LastLeaf, LastNest, PutUint16, PutUint32;
    var a := [TextAttr(A_IFNAME, name)] + if cfg.privateKey.Some? then [Leaf(A_PRIVATE_KEY, cfg.privateKey.value)] else [];
    var c, d := Int16Attr(e, A_LISTEN_PORT, cfg.listenPort), Int32Attr(e, A_FWMARK, cfg.firewallMark);
    var g := if cfg.replacePeers then [Leaf(A_FLAGS, PutUint32(e, 1))] else [];
    NameSays(e, name, cfg, t);
    SaysOneSaid(c, 6, SaidNumber(e, cfg.listenPort), t);
    SaysOneSaid(d, 7, SaidBasic(e, name, cfg, 7), t);
    SaysOneSaid(g, 5, SaidBasic(e, name, cfg, 5), t);
    SaidAppend(a, c, t);
    SaidAppend(a + c, d, t);
    SaidAppend(a + c + d, g, t);
  }

  lemma {:induction false} NumberSays(e: Endian, typ: nat, v: Option<int>, t: nat)
    ensures LastLeaf(Int16Attr(e, typ, v), t) == (if t == typ then SaidNumber(e, v) else None)
    ensures LastNest(Int16Attr(e, typ, v), t) == None
  {
    SaysOneSaid(Int16Attr(e, typ, v), typ, SaidNumber(e, v), t);
  }

  lemma {:induction false} TextSays(typ: nat, v: Option<string>, t: nat)
    ensures LastLeaf(StringAttr(typ, v), t) == (if t == typ then SaidText(v) else None)
    ensures LastNest(StringAttr(typ, v), t) == None
  {
    SaysOneSaid(StringAttr(typ, v), typ, SaidText(v), t);
  }

  lemma {:induction false} JunkSays(e: Endian, cfg: Config, t: nat)
    ensures LastLeaf(JunkAttrs(e, cfg), t) == if 9 <= t <= 11 then SaidParameter(e, cfg, t) else None
    ensures LastNest(JunkAttrs(e, cfg), t) == None
  {
    hide LastLeaf, LastNest, Int16Attr, SaidNumber;
    NumberSays(e, A_JC, cfg.jc, t);
    NumberSays(e, A_JMIN, cfg.jmin, t);
    NumberSays(e, A_JMAX, cfg.jmax, t);
    SaidAppend(Int16Attr(e, A_JC, cfg.jc), Int16Attr(e, A_JMIN, cfg.jmin), t);
    SaidAppend(Int16Attr(e, A_JC, cfg.jc) + Int16Attr(e, A_JMIN, cfg.jmin), Int16Attr(e, A_JMAX, cfg.jmax), t);
  }

  lemma {:induction false} PaddingsSay(e: Endian, cfg: Config, t: nat)
    ensures LastLeaf(PaddingAttrs(e, cfg), t) ==
            if t == 12 || t == 13 || t == 19 || t == 20 then SaidParameter(e, cfg, t) else None
    ensures LastNest(PaddingAttrs(e, cfg), t) == None
  {
    hide LastLeaf, LastNest, Int16Attr, SaidNumber;
    var a, b, c, d := Int16Attr(e, A_S1, cfg.s1), Int16Attr(e, A_S2, cfg.s2),
                      Int16Attr(e, A_S3, cfg.s3), Int16Attr(e, A_S4, cfg.s4);
    NumberSays(e, A_S1, cfg.s1, t);
    NumberSays(e, A_S2, cfg.s2, t);
    NumberSays(e, A_S3, cfg.s3, t);
    NumberSays(e, A_S4, cfg.s4, t);
    SaidAppend(a, b, t);
    SaidAppend(a + b, c, t);
    SaidAppend(a + b + c, d, t);
  }

  lemma {:induction false} HeadersSay(e: Endian, cfg: Config, t: nat)
    ensures LastLeaf(HeaderAttrs(cfg), t) == if 14 <= t <= 17 then SaidParameter(e, cfg, t) else None
    ensures LastNest(HeaderAttrs(cfg), t) == None
  {
    hide LastLeaf, LastNest, StringAttr, SaidText;
    var a, b, c, d := StringAttr(A_H1, cfg.h1), StringAttr(A_H2, cfg.h2),
                      StringAttr(A_H3, cfg.h3), StringAttr(A_H4, cfg.h4);
    TextSays(A_H1, cfg.h1, t);
    TextSays(A_H2, cfg.h2, t);
    TextSays(A_H3, cfg.h3, t);
    TextSays(A_H4, cfg.h4, t);
    SaidAppend(a, b, t);
    SaidAppend(a + b, c, t);
    SaidAppend(a + b + c, d, t);
  }

  lemma {:induction false} SpecsSay(e: Endian, cfg: Config, t: nat)
    ensures LastLeaf(SpecAttrs(cfg), t) == if 21 <= t <= 25 then SaidParameter(e, cfg, t) else None
    ensures LastNest(SpecAttrs(cfg), t) == None
  {
    hide LastLeaf, LastNest, StringAttr, SaidText;
    var a, b, c, d, g := StringAttr(A_I1, cfg.i1), StringAttr(A_I2, cfg.i2), StringAttr(A_I3, cfg.i3),
                         StringAttr(A_I4, cfg.i4), StringAttr(A_I5, cfg.i5);
    TextSays(A_I1, cfg.i1, t);
    TextSays(A_I2, cfg.i2, t);
    TextSays(A_I3, cfg.i3, t);
    TextSays(A_I4, cfg.i4, t);
    TextSays(A_I5, cfg.i5, t);
    SaidAppend(a, b, t);
    SaidAppend(a + b, c, t);
    SaidAppend(a + b + c, d, t);
    SaidAppend(a + b + c + d, g, t);
  }

  /** Under each number stands exactly the value it is for. */
  lemma {:induction false} FieldsSay(e: Endian, name: string, cfg: Config, t: nat)
    ensures LastLeaf(FieldAttrs(e, name, cfg), t) == Said(e, name, cfg, t)
    ensures LastNest(FieldAttrs(e, name, cfg), t) == None
  {
    BasicsSay(e, name, cfg, t);
    JunkSays(e, cfg, t);
    PaddingsSay(e, cfg, t);
    HeadersSay(e, cfg, t);
    SpecsSay(e, cfg, t);
    hide LastLeaf, LastNest, BasicAttrs, JunkAttrs, PaddingAttrs, HeaderAttrs, SpecAttrs, SaidText, SaidNumber;
    var a, b, c, d, g := BasicAttrs(e, name, cfg), JunkAttrs(e, cfg), PaddingAttrs(e, cfg),
                         HeaderAttrs(cfg), SpecAttrs(cfg);
    SaidAppend(a, b, t);
    SaidAppend(a + b, c, t);
    SaidAppend(a + b + c, d, t);
    SaidAppend(a + b + c + d, g, t);
  }
}

/** What is written for a configuration is read back as that configuration
    (internal/wguser/configure.go and parse.go). */
module UapiRoundTrip {
  import opened Types
  import opened Text
  import opened Numbers
  import opened InitSpec
  import opened Validate
  import opened UapiLines
  import opened UapiParse
  import opened UapiWrite
  import opened UapiBlocks

  // ----- what lines say under a key

  function IntText(v: Option<int>): Option<string> { if v.Some? then Some(PrintInt(v.value)) else None }

  function KeyText(v: Option<Key>): Option<string> { if v.Some? then Some(HexEncode(v.value)) else None }

  function FlagText(b: bool): Option<string> { if b then Some("true") else None }

  /** What stands behind prevails. */
  lemma {:induction false} LastAppend(xs: seq<Line>, ys: seq<Line>, key: string)
    ensures Last(xs + ys, key) == if Last(ys, key).Some? then Last(ys, key) else Last(xs, key)
    decreases |ys|
  {
    if ys == [] {
      assert xs + ys == xs;
    } else {
      var all, n := xs + ys, |ys| - 1;
      assert all[..|all| - 1] == xs + ys[..n];
      LastAppend(xs, ys[..n], key);
    }
  }

  lemma {:induction false} LineSays(name: string, v: Option<string>, key: string)
    ensures Last(TextLine(name, v), key) == if key == name then v else None
  {
    NothingSaid(key);
    if v.Some? {
      LastMore([], Line(name, v.value), key);
      assert [] + [Line(name, v.value)] == [Line(name, v.value)];
    }
  }

  /** A line under a name the reader knows. */
  lemma {:induction false} DeviceLineSays(name: string, v: Option<string>, key: string)
    requires DeviceKeyOf(name) != OtherDeviceKey
    ensures Last(TextLine(name, v), key) == if DeviceKeyOf(key) == DeviceKeyOf(name) then v else None
  {
    hide DeviceKeyOf, DeviceName, TextLine;
    LineSays(name, v, key);
    DeviceKeyIs(name, DeviceKeyOf(name));
    DeviceKeyIs(key, DeviceKeyOf(name));
  }

  lemma {:induction false} PeerLineSays(name: string, v: Option<string>, key: string)
    requires PeerKeyOf(name) != OtherPeerKey
    ensures Last(TextLine(name, v), key) == if PeerKeyOf(key) == PeerKeyOf(name) then v else None
  {
    hide PeerKeyOf, PeerName, TextLine;
    LineSays(name, v, key);
    PeerKeyIs(name, PeerKeyOf(name));
    PeerKeyIs(key, PeerKeyOf(name));
  }

  lemma {:induction false} AsTextLines(key: string)
    ensures forall v: Option<int> :: IntLine(key, v) == TextLine(key, IntText(v))
    ensures forall v: Option<Key> :: KeyLine(key, v) == TextLine(key, KeyText(v))
    ensures forall b: bool :: FlagLine(key, b) == TextLine(key, FlagText(b))
  {}

  // ----- the device lines

  function SaidBasic(cfg: Config, k: DeviceKey): Option<string> {
    match k
    case PrivateKey => KeyText(cfg.privateKey)
    case ListenPort => IntText(cfg.listenPort)
    case Fwmark => IntText(cfg.firewallMark)
    case _ => None
  }

  function SaidJunk(cfg: Config, k: DeviceKey): Option<string> {
    match k
    case Jc => IntText(cfg.jc)
    case Jmin => IntText(cfg.jmin)
    case Jmax => IntText(cfg.jmax)
    case _ => None
  }

  function SaidPadding(cfg: Config, k: DeviceKey): Option<string> {
    match k
    case S1 => IntText(cfg.s1)
    case S2 => IntText(cfg.s2)
    case S3 => IntText(cfg.s3)
    case S4 => IntText(cfg.s4)
    case _ => None
  }

  function SaidHeader(cfg: Config, k: DeviceKey): Option<string> {
    match k
    case H1 => cfg.h1
    case H2 => cfg.h2
    case H3 => cfg.h3
    case H4 => cfg.h4
    case _ => None
  }

  function SaidSpec(cfg: Config, k: DeviceKey): Option<string> {
    match k
    case I1 => cfg.i1
    case I2 => cfg.i2
    case I3 => cfg.i3
    case I4 => cfg.i4
    case I5 => cfg.i5
    case _ => None
  }

  lemma {:induction false} BasicsSay(cfg: Config, key: string)
    ensures Last(BasicLines(cfg), key) == SaidBasic(cfg, DeviceKeyOf(key))
  {
    hide DeviceKeyOf, Last, TextLine, IntLine, KeyLine, IntText, KeyText;
    BasicKeys();
    AsTextLines("private_key");
    AsTextLines("listen_port");
    AsTextLines("fwmark");
    DeviceLineSays("private_key", KeyText(cfg.privateKey), key);
    DeviceLineSays("listen_port", IntText(cfg.listenPort), key);
    DeviceLineSays("fwmark", IntText(cfg.firewallMark), key);
    var a, b, c := KeyLine("private_key", cfg.privateKey), IntLine("listen_port", cfg.listenPort),
                   IntLine("fwmark", cfg.firewallMark);
    LastAppend(a, b, key);
    LastAppend(a + b, c, key);
  }

  lemma {:induction false} JunkSays(cfg: Config, key: string)
    ensures Last(JunkLines(cfg), key) == SaidJunk(cfg, DeviceKeyOf(key))
  {
    hide DeviceKeyOf, Last, TextLine, IntLine, IntText;
    JunkKeys();
    AsTextLines("jc");
    AsTextLines("jmin");
    AsTextLines("jmax");
    DeviceLineSays("jc", IntText(cfg.jc), key);
    DeviceLineSays("jmin", IntText(cfg.jmin), key);
    DeviceLineSays("jmax", IntText(cfg.jmax), key);
    LastAppend(IntLine("jc", cfg.jc), IntLine("jmin", cfg.jmin), key);
    LastAppend(IntLine("jc", cfg.jc) + IntLine("jmin", cfg.jmin), IntLine("jmax", cfg.jmax), key);
  }

  lemma {:induction false} PaddingsSay(cfg: Config, key: string)
    ensures Last(PaddingLines(cfg), key) == SaidPadding(cfg, DeviceKeyOf(key))
  {
    hide DeviceKeyOf, Last, TextLine, IntLine, IntText;
    PaddingKeys();
    AsTextLines("s1");
    AsTextLines("s2");
    AsTextLines("s3");
    AsTextLines("s4");
    DeviceLineSays("s1", IntText(cfg.s1), key);
    DeviceLineSays("s2", IntText(cfg.s2), key);
    DeviceLineSays("s3", IntText(cfg.s3), key);
    DeviceLineSays("s4", IntText(cfg.s4), key);
    var a, b, c, d := IntLine("s1", cfg.s1), IntLine("s2", cfg.s2), IntLine("s3", cfg.s3), IntLine("s4", cfg.s4);
    LastAppend(a, b, key);
    LastAppend(a + b, c, key);
    LastAppend(a + b + c, d, key);
  }

  lemma {:induction false} HeadersSay(cfg: Config, key: string)
    ensures Last(HeaderLines(cfg), key) == SaidHeader(cfg, DeviceKeyOf(key))
  {
    hide DeviceKeyOf, Last, TextLine;
    HeaderKeys();
    DeviceLineSays("h1", cfg.h1, key);
    DeviceLineSays("h2", cfg.h2, key);
    DeviceLineSays("h3", cfg.h3, key);
    DeviceLineSays("h4", cfg.h4, key);
    var a, b, c, d := TextLine("h1", cfg.h1), TextLine("h2", cfg.h2), TextLine("h3", cfg.h3), TextLine("h4", cfg.h4);
    LastAppend(a, b, key);
    LastAppend(a + b, c, key);
    LastAppend(a + b + c, d, key);
  }

  lemma {:induction false} SpecsSay(cfg: Config, key: string)
    ensures Last(SpecLines(cfg), key) == SaidSpec(cfg, DeviceKeyOf(key))
  {
    hide DeviceKeyOf, Last, TextLine;
    SpecKeys();
    DeviceLineSays("i1", cfg.i1, key);
    DeviceLineSays("i2", cfg.i2, key);
    DeviceLineSays("i3", cfg.i3, key);
    DeviceLineSays("i4", cfg.i4, key);
    DeviceLineSays("i5", cfg.i5, key);
    var a, b, c, d, e := TextLine("i1", cfg.i1), TextLine("i2", cfg.i2), TextLine("i3", cfg.i3),
                         TextLine("i4", cfg.i4), TextLine("i5", cfg.i5);
    LastAppend(a, b, key);
    LastAppend(a + b, c, key);
    LastAppend(a + b + c, d, key);
    LastAppend(a + b + c + d, e, key);
  }

  /** The lines in front of the first peer. */
  function Head(cfg: Config): seq<Line> { [Line("set", "1")] + DeviceLines(cfg) }

  /** What a configuration says under a key of the reader. */
  function Said(cfg: Config, k: DeviceKey): Option<string> {
    if SaidBasic(cfg, k).Some? then SaidBasic(cfg, k)
    else if SaidJunk(cfg, k).Some? then SaidJunk(cfg, k)
    else if SaidPadding(cfg, k).Some? then SaidPadding(cfg, k)
    else if SaidHeader(cfg, k).Some? then SaidHeader(cfg, k)
    else SaidSpec(cfg, k)
  }

  lemma {:induction false} InstructionKeys()
    ensures DeviceKeyOf("set") == OtherDeviceKey && DeviceKeyOf("replace_peers") == OtherDeviceKey
    ensures "set" != "replace_peers"
  {}

  /** Under each key stands exactly the value that is set, if it is, and nothing
      else is said. */
  lemma {:induction false} HeadSays(cfg: Config, key: string)
    ensures Last(Head(cfg), key) ==
            if DeviceKeyOf(key) != OtherDeviceKey then Said(cfg, DeviceKeyOf(key))
            else if key == "replace_peers" then FlagText(cfg.replacePeers)
            else if key == "set" then Some("1")
            else None
  {
    hide DeviceKeyOf, Last, BasicLines, JunkLines, PaddingLines, HeaderLines, SpecLines, FlagLine, FlagText;
    hide IntText, KeyText;
    InstructionKeys();
    BasicsSay(cfg, key);
    JunkSays(cfg, key);
    PaddingsSay(cfg, key);
    HeadersSay(cfg, key);
    SpecsSay(cfg, key);
    LineSays("set", Some("1"), key);
    AsTextLines("replace_peers");
    LineSays("replace_peers", FlagText(cfg.replacePeers), key);
    var a, b, c, d, e := BasicLines(cfg), JunkLines(cfg), PaddingLines(cfg), HeaderLines(cfg), SpecLines(cfg);
    var first, last := [Line("set", "1")], FlagLine("replace_peers", cfg.replacePeers);
    LastAppend(a, b, key);
    LastAppend(a + b, c, key);
    LastAppend(a + b + c, d, key);
    LastAppend(a + b + c + d, e, key);
    LastAppend(a + b + c + d + e, last, key);
    LastAppend(first, DeviceLines(cfg), key);
  }

  // ----- values that are read back

  lemma {:induction false} PrintedIntReads(n: int)
    requires 0 <= n <= MAX_INT64
    ensures Atoi(PrintInt(n)) == Some(n)
  {
    ParseIntDec(n, MAX_INT64);
  }

  lemma {:induction false} HexRoundTripKey(k: Key)
    ensures ParseHexKey(HexEncode(k)) == Some(k)
  {
    HexRoundTrip(k);
  }

  /** A value that is given, as a number or a key. */
  function GivenInt(v: Option<string>): Option<int> { if v.Some? then Atoi(v.value) else None }

  function GivenKey(v: Option<string>): Option<Key> { if v.Some? then ParseHexKey(v.value) else None }

  lemma {:induction false} IntArrives(v: Option<int>)
    requires Fits32(v)
    ensures GivenInt(IntText(v)) == v && AsInt(IntText(v)) == v.GetOr(0)
  {
    hide Atoi, PrintInt;
    if v.Some? {
      PrintedIntReads(v.value);
    }
  }

  lemma {:induction false} KeyArrives(v: Option<Key>)
    ensures GivenKey(KeyText(v)) == v && AsKey(KeyText(v)) == v.GetOr(ZERO_KEY)
  {
    hide ParseHexKey, HexEncode;
    if v.Some? {
      HexRoundTripKey(v.value);
    }
  }

  /** The number a configuration sets under a key. */
  function NumberSet(cfg: Config, k: DeviceKey): Option<int> {
    match k
    case ListenPort => cfg.listenPort
    case Fwmark => cfg.firewallMark
    case Jc => cfg.jc
    case Jmin => cfg.jmin
    case Jmax => cfg.jmax
    case S1 => cfg.s1
    case S2 => cfg.s2
    case S3 => cfg.s3
    case S4 => cfg.s4
    case _ => None
  }

  function TextSet(cfg: Config, k: DeviceKey): Option<string> {
    match k
    case H1 => cfg.h1
    case H2 => cfg.h2
    case H3 => cfg.h3
    case H4 => cfg.h4
    case I1 => cfg.i1
    case I2 => cfg.i2
    case I3 => cfg.i3
    case I4 => cfg.i4
    case I5 => cfg.i5
    case _ => None
  }

  lemma {:induction false} TextSaid(cfg: Config, k: DeviceKey)
    requires IsTextKey(k)
    ensures Said(cfg, k) == TextSet(cfg, k)
  {
    hide IntText, KeyText;
  }

  lemma {:induction false} NumberSaid(cfg: Config, k: DeviceKey)
    requires IsIntKey(k) && NumbersFit(cfg)
    ensures Said(cfg, k) == IntText(NumberSet(cfg, k)) && Fits32(NumberSet(cfg, k))
  {
    hide IntText, KeyText;
  }

  lemma {:induction false} NumberApplied(cfg: Config, k: DeviceKey)
    requires IsIntKey(k)
    ensures IntOf(ApplyFields(ZERO_FIELDS, cfg), k) == NumberSet(cfg, k).GetOr(0)
  {}

  lemma {:induction false} TextApplied(cfg: Config, k: DeviceKey)
    requires IsTextKey(k)
    ensures TextOf(ApplyFields(ZERO_FIELDS, cfg), k) == AsText(Said(cfg, k))
  {
    hide IntText, KeyText;
  }

  /** What each key of the head says is what was set. */
  lemma {:induction false} SaidValues(cfg: Config, k: DeviceKey)
    requires NumbersFit(cfg)
    ensures IsIntKey(k) ==> AsInt(Said(cfg, k)) == IntOf(ApplyFields(ZERO_FIELDS, cfg), k)
    ensures IsIntKey(k) ==> GivenInt(Said(cfg, k)) == NumberSet(cfg, k)
    ensures IsTextKey(k) ==> AsText(Said(cfg, k)) == TextOf(ApplyFields(ZERO_FIELDS, cfg), k)
  {
    hide Said, NumberSet, ApplyFields, IntOf, TextOf, IntText, AsInt, AsText, GivenInt, NumbersFit, Fits32;
    if IsIntKey(k) {
      NumberSaid(cfg, k);
      NumberApplied(cfg, k);
      IntArrives(NumberSet(cfg, k));
    } else if IsTextKey(k) {
      TextApplied(cfg, k);
    }
  }

  lemma {:induction false} KeySaid(cfg: Config)
    ensures Said(cfg, PrivateKey) == KeyText(cfg.privateKey)
    ensures AsKey(Said(cfg, PrivateKey)) == ApplyFields(ZERO_FIELDS, cfg).privateKey
    ensures GivenKey(Said(cfg, PrivateKey)) == cfg.privateKey
  {
    hide KeyText, IntText, AsKey, GivenKey;
    KeyArrives(cfg.privateKey);
  }

  /** The device lines set exactly the fields the configuration sets. */
  lemma {:induction false} FieldsAreRead(cfg: Config)
    requires NumbersFit(cfg)
    ensures FieldsOf(Head(cfg)) == ApplyFields(ZERO_FIELDS, cfg)
    ensures Last(Head(cfg), "jc").Some? <==> cfg.jc.Some?
  {
    hide FieldsOf, ApplyFields, Head, Last, Said, IntOf, TextOf, AsInt, AsText, AsKey, DeviceName;
    var f, g := FieldsOf(Head(cfg)), ApplyFields(ZERO_FIELDS, cfg);
    forall k: DeviceKey
      ensures IsIntKey(k) ==> SameInt(f, g, k)
      ensures IsTextKey(k) ==> SameText(f, g, k)
    {
      if k != OtherDeviceKey {
        NamedSays(cfg, k);
        FieldsAt(Head(cfg), k);
        SaidValues(cfg, k);
      }
    }
    NamedSays(cfg, PrivateKey);
    FieldsAt(Head(cfg), PrivateKey);
    KeySaid(cfg);
    SameFields(f, g);
    JcSaid(cfg);
  }

  lemma {:induction false} NamedSays(cfg: Config, k: DeviceKey)
    requires k != OtherDeviceKey
    ensures LastDevice(Head(cfg), k) == Said(cfg, k)
  {
    hide DeviceKeyOf, DeviceName, Said, Head, Last;
    HeadSays(cfg, DeviceName(k));
    DeviceKeyIs(DeviceName(k), k);
  }

  lemma {:induction false} JcSaid(cfg: Config)
    ensures Last(Head(cfg), "jc").Some? <==> cfg.jc.Some?
  {
    hide Head, Last;
    NamedSays(cfg, Jc);
  }

  // ----- the lines of a peer

  /** The address a reader finds for one that is written; where the text does not
      parse, nothing is found. */
  function ReadAddr(t: Host, a: UDPAddr): UDPAddr { t.parseAddr(t.printAddr(a)).GetOr(a) }

  function ReadIP(t: Host, n: IPNet): IPNet { t.parseCIDR(t.printCIDR(n)).GetOr(n) }

  function ReadIPs(t: Host, ips: seq<IPNet>): seq<IPNet> {
    seq(|ips|, i requires 0 <= i < |ips| => ReadIP(t, ips[i]))
  }

  predicate EndpointParses(t: Host, e: Option<UDPAddr>) { e.Some? ==> t.parseAddr(t.printAddr(e.value)).Some? }

  predicate IPParses(t: Host, n: IPNet) { t.parseCIDR(t.printCIDR(n)).Some? }

  predicate IPsParse(t: Host, ips: seq<IPNet>) { forall i :: 0 <= i < |ips| ==> IPParses(t, ips[i]) }

  predicate PeerParses(t: Host, p: PeerConfig) { EndpointParses(t, p.endpoint) && IPsParse(t, p.allowedIPs) }

  predicate AllParse(t: Host, ps: seq<PeerConfig>) { forall i :: 0 <= i < |ps| ==> PeerParses(t, ps[i]) }

  function ReadEnd(t: Host, e: Option<UDPAddr>): Option<UDPAddr> {
    if e.Some? then Some(ReadAddr(t, e.value)) else None
  }

  /** The peer a reader finds for a peer configuration. */
  function ReadBack(t: Host, p: PeerConfig): Peer {
    NewPeer(p.publicKey).(
      presharedKey := p.presharedKey.GetOr(ZERO_KEY),
      endpoint := ReadEnd(t, p.endpoint),
      keepalive := Seconds(p.keepalive).GetOr(0) * SECOND,
      allowedIPs := ReadIPs(t, p.allowedIPs))
  }

  lemma {:induction false} IPsParseCons(t: Host, ips: seq<IPNet>)
    ensures ips == [] ==> IPsParse(t, ips) && ReadIPs(t, ips) == []
    ensures ips != [] ==>
              && (IPsParse(t, ips) <==> IPParses(t, ips[0]) && IPsParse(t, ips[1..]))
              && ReadIPs(t, ips) == [ReadIP(t, ips[0])] + ReadIPs(t, ips[1..])
  {
    hide IPParses, ReadIP;
    assert forall i :: 0 < i < |ips| ==> ips[i] == ips[1..][i - 1];
    if ips != [] {
      assert |ReadIPs(t, ips)| == |[ReadIP(t, ips[0])] + ReadIPs(t, ips[1..])|;
    }
  }

  /** The address texts of a peer hold no separator. */
  predicate PlainPeerTexts(t: Host, p: PeerConfig) {
    && (p.endpoint.Some? ==> IsPlainText(t.printAddr(p.endpoint.value)))
    && (forall i :: 0 <= i < |p.allowedIPs| ==> IsPlainText(t.printCIDR(p.allowedIPs[i])))
  }

  predicate PlainTexts(t: Host, cfg: Config) {
    forall i :: 0 <= i < |cfg.peers| ==> PlainPeerTexts(t, cfg.peers[i])
  }

  predicate GoodKeepalive(p: PeerConfig) {
    Seconds(p.keepalive).Some? ==> 0 <= Seconds(p.keepalive).value <= 0xffff
  }

  function EndText(t: Host, e: Option<UDPAddr>): Option<string> { if e.Some? then Some(t.printAddr(e.value)) else None }

  /** What a peer's lines say under a key of the reader. */
  function SaidOfPeer(t: Host, p: PeerConfig, k: PeerKey): Option<string> {
    match k
    case PresharedKey => KeyText(p.presharedKey)
    case Endpoint => EndText(t, p.endpoint)
    case Keepalive => IntText(Seconds(p.keepalive))
    case _ => None
  }

  /** What they instruct, which the reader ignores. */
  function Instructed(p: PeerConfig, key: string): Option<string> {
    if key == "public_key" then Some(HexEncode(p.publicKey))
    else if key == "remove" then FlagText(p.remove)
    else if key == "update_only" then FlagText(p.updateOnly)
    else if key == "replace_allowed_ips" then FlagText(p.replaceAllowedIPs)
    else None
  }

  lemma {:induction false} FlagKeys()
    ensures PeerKeyOf("public_key") == OtherPeerKey && PeerKeyOf("remove") == OtherPeerKey
    ensures PeerKeyOf("update_only") == OtherPeerKey
  {}

  lemma {:induction false} ReplaceKey()
    ensures PeerKeyOf("replace_allowed_ips") == OtherPeerKey
    ensures "replace_allowed_ips" != "public_key" && "replace_allowed_ips" != "remove"
    ensures "replace_allowed_ips" != "update_only"
  {}

  lemma {:induction false} PeerKeysSay(p: PeerConfig, key: string)
    ensures Last(PeerKeyLines(p), key) ==
            if PeerKeyOf(key) == PresharedKey then KeyText(p.presharedKey)
            else if PeerKeyOf(key) == OtherPeerKey && key != "replace_allowed_ips" then Instructed(p, key)
            else None
  {
    hide PeerKeyOf, Last, TextLine, KeyLine, FlagLine, HexEncode, FlagText, KeyText;
    ValueKeys();
    FlagKeys();
    ReplaceKey();
    AsTextLines("remove");
    AsTextLines("update_only");
    AsTextLines("preshared_key");
    OneLineSays("public_key", HexEncode(p.publicKey), key);
    LineSays("remove", FlagText(p.remove), key);
    LineSays("update_only", FlagText(p.updateOnly), key);
    PeerLineSays("preshared_key", KeyText(p.presharedKey), key);
    var a, b, c, d := [Line("public_key", HexEncode(p.publicKey))], FlagLine("remove", p.remove),
                      FlagLine("update_only", p.updateOnly), KeyLine("preshared_key", p.presharedKey);
    LastAppend(a, b, key);
    LastAppend(a + b, c, key);
    LastAppend(a + b + c, d, key);
  }

  lemma {:induction false} OneLineSays(name: string, v: string, key: string)
    ensures Last([Line(name, v)], key) == if key == name then Some(v) else None
  {
    LineSays(name, Some(v), key);
  }

  lemma {:induction false} PeerSettingsSay(t: Host, p: PeerConfig, key: string)
    ensures Last(PeerSettingLines(t, p), key) ==
            if PeerKeyOf(key) == Endpoint || PeerKeyOf(key) == Keepalive then SaidOfPeer(t, p, PeerKeyOf(key))
            else if key == "replace_allowed_ips" then FlagText(p.replaceAllowedIPs)
            else None
  {
    hide PeerKeyOf, Last, TextLine, IntLine, FlagLine, FlagText, KeyText, IntText, Seconds;
    ValueKeys();
    KeepaliveKey();
    ReplaceKey();
    AsTextLines("persistent_keepalive_interval");
    AsTextLines("replace_allowed_ips");
    EndpointAsText(t, p.endpoint);
    PeerLineSays("endpoint", EndText(t, p.endpoint), key);
    PeerLineSays("persistent_keepalive_interval", IntText(Seconds(p.keepalive)), key);
    LineSays("replace_allowed_ips", FlagText(p.replaceAllowedIPs), key);
    var a, b, c := EndpointLine(t, p.endpoint), IntLine("persistent_keepalive_interval", Seconds(p.keepalive)),
                   FlagLine("replace_allowed_ips", p.replaceAllowedIPs);
    LastAppend(a, b, key);
    LastAppend(a + b, c, key);
  }

  lemma {:induction false} EndpointAsText(t: Host, e: Option<UDPAddr>)
    ensures EndpointLine(t, e) == TextLine("endpoint", EndText(t, e))
  {}

  lemma {:induction false} AllowedSay(t: Host, ips: seq<IPNet>, key: string)
    ensures key != "allowed_ip" ==> Last(AllowedLines(t, ips), key) == None
  {
    NothingSaid(key);
    if ips != [] {
      hide Last;
      AllowedSay(t, ips[1..], key);
      OneLineSays("allowed_ip", t.printCIDR(ips[0]), key);
      LastAppend([Line("allowed_ip", t.printCIDR(ips[0]))], AllowedLines(t, ips[1..]), key);
    }
  }

  /** Under each key but allowed_ip stands exactly what is set or instructed. */
  lemma {:induction false} PeerSays(t: Host, p: PeerConfig, key: string)
    requires key != "allowed_ip"
    ensures Last(PeerLines(t, p), key) ==
            if PeerKeyOf(key) == OtherPeerKey then Instructed(p, key) else SaidOfPeer(t, p, PeerKeyOf(key))
  {
    hide PeerKeyOf, Last, PeerKeyLines, PeerSettingLines, AllowedLines, HexEncode, FlagText, KeyText, IntText;
    hide EndText, Seconds;
    ReplaceKey();
    FlagKeys();
    PeerKeysSay(p, key);
    PeerSettingsSay(t, p, key);
    AllowedSay(t, p.allowedIPs, key);
    LastAppend(PeerKeyLines(p), PeerSettingLines(t, p), key);
    LastAppend(PeerKeyLines(p) + PeerSettingLines(t, p), AllowedLines(t, p.allowedIPs), key);
  }

  // ----- allowed IPs

  lemma {:induction false} AllowedAppend(t: Host, xs: seq<Line>, ys: seq<Line>)
    ensures AllowedOf(t, xs + ys) == AllowedOf(t, xs) + AllowedOf(t, ys)
    decreases |ys|
  {
    if ys == [] {
      assert xs + ys == xs && AllowedOf(t, xs) + [] == AllowedOf(t, xs);
    } else {
      hide AllowedOf;
      var init, l := ys[..|ys| - 1], ys[|ys| - 1];
      assert xs + ys == (xs + init) + [l] && ys == init + [l];
      AllowedAppend(t, xs, init);
      AllowedMore(t, xs + init, l);
      AllowedMore(t, init, l);
    }
  }

  lemma {:induction false} NoneAllowed(t: Host, lines: seq<Line>)
    requires Last(lines, "allowed_ip") == None
    ensures AllowedOf(t, lines) == []
  {
    if lines != [] {
      NoneAllowed(t, lines[..|lines| - 1]);
    }
  }

  lemma {:induction false} AllowedAreRead(t: Host, ips: seq<IPNet>)
    requires IPsParse(t, ips)
    ensures AllowedOf(t, AllowedLines(t, ips)) == ReadIPs(t, ips)
  {
    hide IPsParse, ReadIPs;
    IPsParseCons(t, ips);
    assert AllowedOf(t, []) == [];
    if ips != [] {
      hide AllowedOf;
      var l := Line("allowed_ip", t.printCIDR(ips[0]));
      AllowedAreRead(t, ips[1..]);
      AllowedAppend(t, [l], AllowedLines(t, ips[1..]));
      AllowedMore(t, [], l);
      assert [] + [l] == [l];
    }
  }

  lemma {:induction false} PeerAllows(t: Host, p: PeerConfig)
    requires IPsParse(t, p.allowedIPs)
    ensures AllowedOf(t, PeerLines(t, p)) == ReadIPs(t, p.allowedIPs)
  {
    hide IPsParse, AllowedOf, Last, PeerKeyLines, PeerSettingLines, AllowedLines, PeerKeyOf, ReadIPs;
    ValueKeys();
    ReplaceKey();
    PeerKeysSay(p, "allowed_ip");
    PeerSettingsSay(t, p, "allowed_ip");
    var a, b := PeerKeyLines(p), PeerSettingLines(t, p);
    LastAppend(a, b, "allowed_ip");
    NoneAllowed(t, a + b);
    AllowedAppend(t, a + b, AllowedLines(t, p.allowedIPs));
    AllowedAreRead(t, p.allowedIPs);
    assert [] + ReadIPs(t, p.allowedIPs) == ReadIPs(t, p.allowedIPs);
  }

  // ----- the layout of a request

  /** Lines that neither open a peer nor report an error number. */
  predicate Inner(lines: seq<Line>) {
    forall i :: 0 <= i < |lines| ==> lines[i].key != "public_key" && lines[i].key != "errno"
  }

  lemma {:induction false} HeadLayout(lines: seq<Line>)
    requires Inner(lines)
    ensures LayoutOf(lines) == Layout(lines, [])
  {
    if lines != [] {
      hide LayoutOf;
      var init, l := lines[..|lines| - 1], lines[|lines| - 1];
      HeadLayout(init);
      LayoutMore(init, l);
      assert init + [l] == lines;
    }
  }

  lemma {:induction false} LayoutMore(lines: seq<Line>, l: Line)
    ensures LayoutOf(lines + [l]) == AddLine(LayoutOf(lines), l)
  {
    assert (lines + [l])[..|lines|] == lines;
  }

  /** A public_key line and what belongs to it make one block more. */
  lemma {:induction false} BlockLayout(lines: seq<Line>, open_: Line, rest: seq<Line>)
    requires open_.key == "public_key" && Inner(rest)
    ensures var y := LayoutOf(lines);
            LayoutOf(lines + ([open_] + rest)) == y.(blocks := y.blocks + [[open_] + rest])
    decreases |rest|
  {
    hide LayoutOf;
    if rest == [] {
      assert [open_] + rest == [open_];
      LayoutMore(lines, open_);
    } else {
      var init, l := rest[..|rest| - 1], rest[|rest| - 1];
      assert lines + ([open_] + rest) == lines + ([open_] + init) + [l] && [open_] + init + [l] == [open_] + rest;
      BlockLayout(lines, open_, init);
      LayoutMore(lines + ([open_] + init), l);
      var y := LayoutOf(lines);
      assert (y.blocks + [[open_] + init])[|y.blocks| := [open_] + rest] == y.blocks + [[open_] + rest];
    }
  }

  function BlocksOf(t: Host, ps: seq<PeerConfig>): seq<seq<Line>> {
    seq(|ps|, i requires 0 <= i < |ps| => PeerLines(t, ps[i]))
  }

  lemma {:induction false} PeersLayout(t: Host, lines: seq<Line>, ps: seq<PeerConfig>)
    requires forall i :: 0 <= i < |ps| ==> Inner(PeerRest(t, ps[i]))
    ensures var y := LayoutOf(lines);
            LayoutOf(lines + PeersLines(t, ps)) == y.(blocks := y.blocks + BlocksOf(t, ps))
    decreases |ps|
  {
    hide LayoutOf, PeerLines, PeerRest, Inner, HexEncode;
    var y := LayoutOf(lines);
    if ps == [] {
      assert lines + [] == lines && y.blocks + BlocksOf(t, ps) == y.blocks;
    } else {
      var one, rest := PeerLines(t, ps[0]), PeersLines(t, ps[1..]);
      PeerOpens(t, ps[0]);
      BlockLayout(lines, Opening(ps[0]), PeerRest(t, ps[0]));
      PeersLayout(t, lines + one, ps[1..]);
      assert lines + (one + rest) == lines + one + rest;
      assert y.blocks + [one] + BlocksOf(t, ps[1..]) == y.blocks + BlocksOf(t, ps);
    }
  }

  // ----- the lines are in order

  lemma {:induction false} GoodAppend(t: Host, xs: seq<Line>, ys: seq<Line>, inBlock: bool)
    ensures Inner(xs + ys) <==> Inner(xs) && Inner(ys)
    ensures LinesOk(t, xs + ys, inBlock) <==> LinesOk(t, xs, inBlock) && LinesOk(t, ys, inBlock)
  {
    hide LineOk;
    var all := xs + ys;
    assert forall i :: 0 <= i < |xs| ==> all[i] == xs[i];
    assert forall i :: 0 <= i < |ys| ==> all[|xs| + i] == ys[i];
  }

  lemma {:induction false} NamedDeviceLine(t: Host, name: string, v: Option<string>)
    requires DeviceKeyOf(name) != OtherDeviceKey
    ensures Inner(TextLine(name, v))
    ensures LinesOk(t, TextLine(name, v), false) <==> v.Some? ==> DeviceValueOk(DeviceKeyOf(name), v.value)
  {
    hide DeviceKeyOf, DeviceLineOk, DeviceValueOk;
    ErrnoIsNoKey();
    OpenIsNoKey();
    if v.Some? {
      DeviceOkByKey(Line(name, v.value));
      var lines := TextLine(name, v);
      assert LinesOk(t, lines, false) <==> LineOk(t, lines[0], false);
    }
  }

  lemma {:induction false} NamedPeerLine(t: Host, name: string, v: Option<string>)
    requires PeerKeyOf(name) != OtherPeerKey
    ensures Inner(TextLine(name, v))
    ensures LinesOk(t, TextLine(name, v), true) <==> v.Some? ==> PeerValueOk(t, PeerKeyOf(name), v.value)
  {
    hide PeerKeyOf, PeerLineOk, PeerValueOk;
    ErrnoIsNoKey();
    if v.Some? {
      PeerOkByKey(t, Line(name, v.value));
      var lines := TextLine(name, v);
      assert LinesOk(t, lines, true) <==> LineOk(t, lines[0], true);
    }
  }

  lemma {:induction false} OpenIsNoKey()
    ensures DeviceKeyOf("public_key") == OtherDeviceKey
  {}

  /** A line the reader ignores. */
  lemma {:induction false} IdleLineOk(t: Host, name: string, v: Option<string>, inBlock: bool)
    requires name != "public_key" && name != "errno"
    requires if inBlock then PeerKeyOf(name) == OtherPeerKey else DeviceKeyOf(name) == OtherDeviceKey
    ensures Inner(TextLine(name, v)) && LinesOk(t, TextLine(name, v), inBlock)
  {
    hide DeviceKeyOf, PeerKeyOf, PeerLineOk, PeerValueOk, DeviceLineOk, DeviceValueOk;
    if v.Some? {
      PeerOkByKey(t, Line(name, v.value));
      DeviceOkByKey(Line(name, v.value));
      IdleValueOk(t, v.value);
    }
  }

  lemma {:induction false} IdleValueOk(t: Host, v: string)
    ensures PeerValueOk(t, OtherPeerKey, v) && DeviceValueOk(OtherDeviceKey, v)
  {}

  lemma {:induction false} NamedInt(t: Host, name: string, v: Option<int>)
    requires IsIntKey(DeviceKeyOf(name)) && Fits32(v)
    ensures Inner(IntLine(name, v)) && LinesOk(t, IntLine(name, v), false)
  {
    hide DeviceKeyOf, LinesOk, Atoi, PrintInt, ParseHexKey;
    AsTextLines(name);
    NamedDeviceLine(t, name, IntText(v));
    if v.Some? {
      PrintedIntReads(v.value);
    }
  }

  lemma {:induction false} NamedText(t: Host, name: string, v: Option<string>)
    requires IsTextKey(DeviceKeyOf(name))
    ensures Inner(TextLine(name, v)) && LinesOk(t, TextLine(name, v), false)
  {
    hide DeviceKeyOf, LinesOk, Atoi, ParseHexKey;
    NamedDeviceLine(t, name, v);
  }

  lemma {:induction false} BasicsGood(t: Host, cfg: Config)
    requires NumbersFit(cfg)
    ensures Inner(BasicLines(cfg)) && LinesOk(t, BasicLines(cfg), false)
  {
    hide DeviceKeyOf, LinesOk, Inner, IntLine, KeyLine, ParseHexKey, HexEncode, Atoi;
    BasicKeys();
    var a, b, c := KeyLine("private_key", cfg.privateKey), IntLine("listen_port", cfg.listenPort),
                   IntLine("fwmark", cfg.firewallMark);
    AsTextLines("private_key");
    NamedDeviceLine(t, "private_key", KeyText(cfg.privateKey));
    if cfg.privateKey.Some? {
      HexRoundTripKey(cfg.privateKey.value);
    }
    NamedInt(t, "listen_port", cfg.listenPort);
    NamedInt(t, "fwmark", cfg.firewallMark);
    GoodAppend(t, a, b, false);
    GoodAppend(t, a + b, c, false);
  }

  lemma {:induction false} NumbersGood(t: Host, cfg: Config)
    requires NumbersFit(cfg)
    ensures Inner(JunkLines(cfg)) && LinesOk(t, JunkLines(cfg), false)
    ensures Inner(PaddingLines(cfg)) && LinesOk(t, PaddingLines(cfg), false)
  {
    hide DeviceKeyOf, LinesOk, Inner, IntLine;
    JunkKeys();
    PaddingKeys();
    NamedInt(t, "jc", cfg.jc);
    NamedInt(t, "jmin", cfg.jmin);
    NamedInt(t, "jmax", cfg.jmax);
    GoodAppend(t, IntLine("jc", cfg.jc), IntLine("jmin", cfg.jmin), false);
    GoodAppend(t, IntLine("jc", cfg.jc) + IntLine("jmin", cfg.jmin), IntLine("jmax", cfg.jmax), false);
    var a, b, c, d := IntLine("s1", cfg.s1), IntLine("s2", cfg.s2), IntLine("s3", cfg.s3), IntLine("s4", cfg.s4);
    NamedInt(t, "s1", cfg.s1);
    NamedInt(t, "s2", cfg.s2);
    NamedInt(t, "s3", cfg.s3);
    NamedInt(t, "s4", cfg.s4);
    GoodAppend(t, a, b, false);
    GoodAppend(t, a + b, c, false);
    GoodAppend(t, a + b + c, d, false);
  }

  lemma {:induction false} TextsGood(t: Host, cfg: Config)
    ensures Inner(HeaderLines(cfg)) && LinesOk(t, HeaderLines(cfg), false)
    ensures Inner(SpecLines(cfg)) && LinesOk(t, SpecLines(cfg), false)
  {
    hide DeviceKeyOf, LinesOk, Inner, TextLine;
    HeaderKeys();
    SpecKeys();
    var a, b, c, d := TextLine("h1", cfg.h1), TextLine("h2", cfg.h2), TextLine("h3", cfg.h3), TextLine("h4", cfg.h4);
    NamedText(t, "h1", cfg.h1);
    NamedText(t, "h2", cfg.h2);
    NamedText(t, "h3", cfg.h3);
    NamedText(t, "h4", cfg.h4);
    GoodAppend(t, a, b, false);
    GoodAppend(t, a + b, c, false);
    GoodAppend(t, a + b + c, d, false);
    var p, q, r, s, u := TextLine("i1", cfg.i1), TextLine("i2", cfg.i2), TextLine("i3", cfg.i3),
                         TextLine("i4", cfg.i4), TextLine("i5", cfg.i5);
    NamedText(t, "i1", cfg.i1);
    NamedText(t, "i2", cfg.i2);
    NamedText(t, "i3", cfg.i3);
    NamedText(t, "i4", cfg.i4);
    NamedText(t, "i5", cfg.i5);
    GoodAppend(t, p, q, false);
    GoodAppend(t, p + q, r, false);
    GoodAppend(t, p + q + r, s, false);
    GoodAppend(t, p + q + r + s, u, false);
  }

  lemma {:induction false} InstructionNames()
    ensures "set" != "public_key" && "set" != "errno" && "replace_peers" != "public_key" && "replace_peers" != "errno"
  {}

  lemma {:induction false} HeadGood(t: Host, cfg: Config)
    requires NumbersFit(cfg)
    ensures Inner(Head(cfg)) && LinesOk(t, Head(cfg), false)
  {
    hide NumbersFit, DeviceKeyOf, LinesOk, Inner, BasicLines, JunkLines, PaddingLines, HeaderLines, SpecLines, FlagLine;
    hide FlagText;
    InstructionKeys();
    InstructionNames();
    BasicsGood(t, cfg);
    NumbersGood(t, cfg);
    TextsGood(t, cfg);
    IdleLineOk(t, "set", Some("1"), false);
    AsTextLines("replace_peers");
    IdleLineOk(t, "replace_peers", FlagText(cfg.replacePeers), false);
    var a, b, c, d, e := BasicLines(cfg), JunkLines(cfg), PaddingLines(cfg), HeaderLines(cfg), SpecLines(cfg);
    var first, last := TextLine("set", Some("1")), FlagLine("replace_peers", cfg.replacePeers);
    GoodAppend(t, a, b, false);
    GoodAppend(t, a + b, c, false);
    GoodAppend(t, a + b + c, d, false);
    GoodAppend(t, a + b + c + d, e, false);
    GoodAppend(t, a + b + c + d + e, last, false);
    GoodAppend(t, first, DeviceLines(cfg), false);
  }

  lemma {:induction false} FlagNames()
    ensures "remove" != "public_key" && "remove" != "errno" && "update_only" != "public_key" && "update_only" != "errno"
    ensures "replace_allowed_ips" != "errno"
  {}

  /** The lines of a peer behind its public key, in front of its address lines. */
  function FlagLines(p: PeerConfig): seq<Line> {
    FlagLine("remove", p.remove) + FlagLine("update_only", p.updateOnly) + KeyLine("preshared_key", p.presharedKey)
  }

  lemma {:induction false} FlagsGood(t: Host, p: PeerConfig)
    ensures Inner(FlagLines(p)) && LinesOk(t, FlagLines(p), true)
  {
    hide PeerKeyOf, LinesOk, Inner, FlagLine, KeyLine, ParseHexKey, HexEncode, FlagText, TextLine;
    FlagKeys();
    FlagNames();
    ValueKeys();
    AsTextLines("remove");
    AsTextLines("update_only");
    AsTextLines("preshared_key");
    IdleLineOk(t, "remove", FlagText(p.remove), true);
    IdleLineOk(t, "update_only", FlagText(p.updateOnly), true);
    NamedPeerLine(t, "preshared_key", KeyText(p.presharedKey));
    if p.presharedKey.Some? {
      HexRoundTripKey(p.presharedKey.value);
    }
    var a, b, c := FlagLine("remove", p.remove), FlagLine("update_only", p.updateOnly),
                   KeyLine("preshared_key", p.presharedKey);
    GoodAppend(t, a, b, true);
    GoodAppend(t, a + b, c, true);
  }

  lemma {:induction false} SettingsGood(t: Host, p: PeerConfig)
    requires GoodKeepalive(p)
    ensures Inner(PeerSettingLines(t, p))
    ensures LinesOk(t, PeerSettingLines(t, p), true) <==> EndpointParses(t, p.endpoint)
  {
    hide PeerKeyOf, LinesOk, Inner, EndpointLine, IntLine, FlagLine, FlagText, TextLine, Atoi, PrintInt, Seconds;
    ReplaceKey();
    FlagNames();
    ValueKeys();
    KeepaliveKey();
    EndpointAsText(t, p.endpoint);
    AsTextLines("persistent_keepalive_interval");
    AsTextLines("replace_allowed_ips");
    NamedPeerLine(t, "endpoint", EndText(t, p.endpoint));
    NamedPeerLine(t, "persistent_keepalive_interval", IntText(Seconds(p.keepalive)));
    if Seconds(p.keepalive).Some? {
      PrintedIntReads(Seconds(p.keepalive).value);
    }
    IdleLineOk(t, "replace_allowed_ips", FlagText(p.replaceAllowedIPs), true);
    var a, b, c := EndpointLine(t, p.endpoint), IntLine("persistent_keepalive_interval", Seconds(p.keepalive)),
                   FlagLine("replace_allowed_ips", p.replaceAllowedIPs);
    GoodAppend(t, a, b, true);
    GoodAppend(t, a + b, c, true);
  }

  lemma {:induction false} AllowedGood(t: Host, ips: seq<IPNet>)
    ensures Inner(AllowedLines(t, ips))
    ensures LinesOk(t, AllowedLines(t, ips), true) <==> IPsParse(t, ips)
  {
    hide IPsParse, PeerKeyOf, LineOk;
    IPsParseCons(t, ips);
    if ips != [] {
      var l := Line("allowed_ip", t.printCIDR(ips[0]));
      AllowedGood(t, ips[1..]);
      ValueKeys();
      NamedPeerLine(t, "allowed_ip", Some(l.value));
      hide Inner, LinesOk;
      GoodAppend(t, [l], AllowedLines(t, ips[1..]), true);
    }
  }

  function Opening(p: PeerConfig): Line { Line("public_key", HexEncode(p.publicKey)) }

  function PeerRest(t: Host, p: PeerConfig): seq<Line> {
    FlagLines(p) + PeerSettingLines(t, p) + AllowedLines(t, p.allowedIPs)
  }

  lemma {:induction false} PeerOpens(t: Host, p: PeerConfig)
    ensures PeerLines(t, p) == [Opening(p)] + PeerRest(t, p)
  {
    hide FlagLine, KeyLine, PeerSettingLines, AllowedLines, HexEncode;
    var o, a, b, c := [Opening(p)], FlagLine("remove", p.remove), FlagLine("update_only", p.updateOnly),
                      KeyLine("preshared_key", p.presharedKey);
    assert o + (a + b + c) == o + a + b + c;
  }

  /** A peer's lines are in order exactly when the texts of its addresses parse. */
  lemma {:induction false} PeerGood(t: Host, p: PeerConfig)
    requires GoodKeepalive(p)
    ensures Inner(PeerRest(t, p))
    ensures LinesOk(t, PeerLines(t, p), true) <==> PeerParses(t, p)
  {
    hide GoodKeepalive, LinesOk, Inner, FlagLines, PeerSettingLines, AllowedLines, EndpointParses, IPsParse, PeerLines;
    hide HexEncode, ParseHexKey;
    var a, b, c := FlagLines(p), PeerSettingLines(t, p), AllowedLines(t, p.allowedIPs);
    PeerOpens(t, p);
    FlagsGood(t, p);
    SettingsGood(t, p);
    AllowedGood(t, p.allowedIPs);
    GoodAppend(t, a, b, true);
    GoodAppend(t, a + b, c, true);
    GoodAppend(t, [Opening(p)], PeerRest(t, p), true);
    OpeningOk(t, p);
  }

  lemma {:induction false} OpeningOk(t: Host, p: PeerConfig)
    ensures LinesOk(t, [Opening(p)], true)
  {
    hide ParseHexKey, HexEncode, PeerLineOk;
    HexRoundTripKey(p.publicKey);
  }

  // ----- what the reader makes of a request

  predicate GoodKeepalives(ps: seq<PeerConfig>) { forall i :: 0 <= i < |ps| ==> GoodKeepalive(ps[i]) }

  /** A request is read as its device lines and one block for each peer, in
      order. */
  lemma {:induction false} RequestLayout(t: Host, cfg: Config)
    requires NumbersFit(cfg) && GoodKeepalives(cfg.peers)
    ensures LayoutOf(ConfigLines(t, cfg)) == Layout(Head(cfg), BlocksOf(t, cfg.peers))
  {
    hide NumbersFit, GoodKeepalive, LayoutOf, Inner, PeersLines, PeerRest, DeviceLines;
    HeadGood(t, cfg);
    HeadLayout(Head(cfg));
    forall i | 0 <= i < |cfg.peers| ensures Inner(PeerRest(t, cfg.peers[i])) {
      PeerGood(t, cfg.peers[i]);
    }
    PeersLayout(t, Head(cfg), cfg.peers);
    assert [] + BlocksOf(t, cfg.peers) == BlocksOf(t, cfg.peers);
  }

  /** All its lines are in order exactly when all its addresses parse. */
  lemma {:induction false} RequestOk(t: Host, cfg: Config)
    requires NumbersFit(cfg) && GoodKeepalives(cfg.peers)
    ensures AllOk(t, ConfigLines(t, cfg)) <==> AllParse(t, cfg.peers)
  {
    hide NumbersFit, GoodKeepalive, LayoutOf, LinesOk, Head, PeerLines, ConfigLines, PeerParses;
    RequestLayout(t, cfg);
    HeadGood(t, cfg);
    var blocks := BlocksOf(t, cfg.peers);
    forall i | 0 <= i < |cfg.peers| ensures LinesOk(t, blocks[i], true) <==> PeerParses(t, cfg.peers[i]) {
      PeerGood(t, cfg.peers[i]);
    }
  }

  /** A peer's block is read as that peer. */
  lemma {:induction false} PeerIsRead(t: Host, p: PeerConfig)
    requires GoodKeepalive(p) && PeerParses(t, p)
    ensures PeerOf(t, PeerLines(t, p)) == ReadBack(t, p)
  {
    hide PeerLines, PeerOf, AllowedOf, LastPeer, AsInt, AsKey, AsAddr, SaidOfPeer, HandshakeTime, WrapInt64;
    hide Seconds, HexEncode;
    hide PeerParses;
    PeerOpens(t, p);
    PeerAt(t, PeerLines(t, p));
    NamedOfPeer(t, p);
    PeerValues(t, p);
    KeyArrives(Some(p.publicKey));
    NoHandshake();
    AllowedRead(t, p);
  }

  lemma {:induction false} NoHandshake()
    ensures HandshakeTime(AsInt(None), AsInt(None)) == None
  {}

  lemma {:induction false} AllowedRead(t: Host, p: PeerConfig)
    requires PeerParses(t, p)
    ensures AllowedOf(t, PeerLines(t, p)) == ReadIPs(t, p.allowedIPs)
  {
    hide AllowedOf, PeerLines, IPsParse, ReadIPs;
    PeerAllows(t, p);
  }

  lemma {:induction false} NamedOfPeer(t: Host, p: PeerConfig)
    ensures forall k: PeerKey :: k != OtherPeerKey && k != AllowedIP ==>
              LastPeer(PeerLines(t, p), k) == SaidOfPeer(t, p, k)
  {
    hide PeerLines, Last, PeerKeyOf, PeerName, SaidOfPeer;
    forall k: PeerKey | k != OtherPeerKey && k != AllowedIP
      ensures LastPeer(PeerLines(t, p), k) == SaidOfPeer(t, p, k)
    {
      PeerKeyIs(PeerName(k), k);
      NotAllowed(k);
      PeerSays(t, p, PeerName(k));
    }
  }

  lemma {:induction false} NotAllowed(k: PeerKey)
    requires k != OtherPeerKey && k != AllowedIP
    ensures PeerName(k) != "allowed_ip"
  {
    hide PeerKeyOf, PeerName;
    PeerKeyIs(PeerName(k), k);
    PeerKeyIs(PeerName(k), AllowedIP);
    AllowedName();
  }

  /** What the values of a peer's lines amount to. */
  lemma {:induction false} PeerValues(t: Host, p: PeerConfig)
    requires GoodKeepalive(p) && PeerParses(t, p)
    ensures AsKey(SaidOfPeer(t, p, PresharedKey)) == p.presharedKey.GetOr(ZERO_KEY)
    ensures AsAddr(t, SaidOfPeer(t, p, Endpoint)) == ReadEnd(t, p.endpoint)
    ensures GivenInt(SaidOfPeer(t, p, Keepalive)) == Seconds(p.keepalive)
    ensures AsInt(SaidOfPeer(t, p, Keepalive)) == Seconds(p.keepalive).GetOr(0)
    ensures var n := Seconds(p.keepalive).GetOr(0) * SECOND; WrapInt64(n) == n
    ensures SaidOfPeer(t, p, HandshakeSec) == SaidOfPeer(t, p, HandshakeNsec) == None
    ensures SaidOfPeer(t, p, TxBytes) == SaidOfPeer(t, p, RxBytes) == SaidOfPeer(t, p, ProtocolVersion) == None
    ensures AsInt(None) == 0
  {
    hide KeyText, IntText, AsKey, GivenInt, Seconds, IPsParse;
    KeyArrives(p.presharedKey);
    IntArrives(Seconds(p.keepalive));
    WrapExact(Seconds(p.keepalive).GetOr(0) * SECOND);
  }

  function ReadBackAll(t: Host, ps: seq<PeerConfig>): seq<Peer> {
    seq(|ps|, i requires 0 <= i < |ps| => ReadBack(t, ps[i]))
  }

  lemma {:induction false} PeersAreRead(t: Host, ps: seq<PeerConfig>)
    requires GoodKeepalives(ps) && AllParse(t, ps)
    ensures IsLayout(Layout([], BlocksOf(t, ps)))
    ensures PeersOf(t, BlocksOf(t, ps)) == ReadBackAll(t, ps)
  {
    hide GoodKeepalive, PeerParses, PeerLines, PeerOf, ReadBack, PeerRest;
    forall i | 0 <= i < |ps| ensures PeerLines(t, ps[i]) != [] && PeerOf(t, PeerLines(t, ps[i])) == ReadBack(t, ps[i]) {
      PeerOpens(t, ps[i]);
      PeerIsRead(t, ps[i]);
    }
  }

  // ----- what a daemon is asked

  /** The device-wide values given under each key, and the instruction. */
  function AskedHead(head: seq<Line>): Config {
    Config(
      GivenKey(Last(head, "private_key")), GivenInt(Last(head, "listen_port")), GivenInt(Last(head, "fwmark")),
      Last(head, "replace_peers") == Some("true"),
      [],
      GivenInt(Last(head, "jc")), GivenInt(Last(head, "jmin")), GivenInt(Last(head, "jmax")),
      GivenInt(Last(head, "s1")), GivenInt(Last(head, "s2")), GivenInt(Last(head, "s3")), GivenInt(Last(head, "s4")),
      Last(head, "h1"), Last(head, "h2"), Last(head, "h3"), Last(head, "h4"),
      Last(head, "i1"), Last(head, "i2"), Last(head, "i3"), Last(head, "i4"), Last(head, "i5"))
  }

  /** What the block of a peer asks; the protocol has no AmneziaWG flags. */
  function AskedPeer(t: Host, block: seq<Line>): PeerConfig
    requires block != []
  {
    var seconds := GivenInt(Last(block, "persistent_keepalive_interval"));
    PeerConfig(
      AsKey(Some(block[0].value)),
      Last(block, "remove") == Some("true"),
      Last(block, "update_only") == Some("true"),
      GivenKey(Last(block, "preshared_key")),
      AsAddr(t, Last(block, "endpoint")),
      if seconds.Some? then Some(seconds.value * 1_000_000_000) else None,
      Last(block, "replace_allowed_ips") == Some("true"),
      AllowedOf(t, block),
      false, false)
  }

  /** The configuration a daemon is asked for by lines with this layout. */
  function AskedConfig(t: Host, y: Layout): Config
    requires IsLayout(y)
  {
    AskedHead(y.head).(
      peers := seq(|y.blocks|, i requires 0 <= i < |y.blocks| => AskedPeer(t, y.blocks[i])))
  }

  /** A peer configuration as its text says it. */
  function AsWritten(t: Host, p: PeerConfig): PeerConfig {
    p.(endpoint := ReadEnd(t, p.endpoint),
       keepalive := if p.keepalive.Some? then Some(WholeSeconds(p.keepalive.value) * SECOND) else None,
       allowedIPs := ReadIPs(t, p.allowedIPs), advancedSecurity := false, disableAdvancedSecurity := false)
  }

  function AllAsWritten(t: Host, ps: seq<PeerConfig>): seq<PeerConfig> {
    seq(|ps|, i requires 0 <= i < |ps| => AsWritten(t, ps[i]))
  }

  lemma {:induction false} NumberAsked(cfg: Config, k: DeviceKey)
    requires IsIntKey(k) && NumbersFit(cfg)
    ensures GivenInt(Last(Head(cfg), DeviceName(k))) == NumberSet(cfg, k)
  {
    hide Head, Last, Said, GivenInt, NumberSet, NumbersFit, DeviceName;
    NamedSays(cfg, k);
    SaidValues(cfg, k);
  }

  lemma {:induction false} TextAsked(cfg: Config, k: DeviceKey)
    requires IsTextKey(k)
    ensures Last(Head(cfg), DeviceName(k)) == TextSet(cfg, k)
  {
    hide Head, Last, Said, TextSet, DeviceName;
    NamedSays(cfg, k);
    TextSaid(cfg, k);
  }

  lemma {:induction false} FirstNumbersAsked(cfg: Config)
    requires NumbersFit(cfg)
    ensures GivenInt(Last(Head(cfg), "listen_port")) == cfg.listenPort
    ensures GivenInt(Last(Head(cfg), "fwmark")) == cfg.firewallMark
    ensures GivenInt(Last(Head(cfg), "jc")) == cfg.jc
    ensures GivenInt(Last(Head(cfg), "jmin")) == cfg.jmin && GivenInt(Last(Head(cfg), "jmax")) == cfg.jmax
  {
    hide Head, Last, GivenInt, NumbersFit;
    NumberAsked(cfg, ListenPort);
    NumberAsked(cfg, Fwmark);
    NumberAsked(cfg, Jc);
    NumberAsked(cfg, Jmin);
    NumberAsked(cfg, Jmax);
  }

  lemma {:induction false} PaddingsAsked(cfg: Config)
    requires NumbersFit(cfg)
    ensures GivenInt(Last(Head(cfg), "s1")) == cfg.s1 && GivenInt(Last(Head(cfg), "s2")) == cfg.s2
    ensures GivenInt(Last(Head(cfg), "s3")) == cfg.s3 && GivenInt(Last(Head(cfg), "s4")) == cfg.s4
  {
    hide Head, Last, GivenInt, NumbersFit;
    NumberAsked(cfg, S1);
    NumberAsked(cfg, S2);
    NumberAsked(cfg, S3);
    NumberAsked(cfg, S4);
  }

  lemma {:induction false} HeadersAsked(cfg: Config)
    ensures Last(Head(cfg), "h1") == cfg.h1 && Last(Head(cfg), "h2") == cfg.h2
    ensures Last(Head(cfg), "h3") == cfg.h3 && Last(Head(cfg), "h4") == cfg.h4
  {
    hide Head, Last;
    TextAsked(cfg, H1);
    TextAsked(cfg, H2);
    TextAsked(cfg, H3);
    TextAsked(cfg, H4);
  }

  lemma {:induction false} SpecsAsked(cfg: Config)
    ensures Last(Head(cfg), "i1") == cfg.i1 && Last(Head(cfg), "i2") == cfg.i2 && Last(Head(cfg), "i3") == cfg.i3
    ensures Last(Head(cfg), "i4") == cfg.i4 && Last(Head(cfg), "i5") == cfg.i5
  {
    hide Head, Last;
    TextAsked(cfg, I1);
    TextAsked(cfg, I2);
    TextAsked(cfg, I3);
    TextAsked(cfg, I4);
    TextAsked(cfg, I5);
  }

  lemma {:induction false} InstructionAsked(cfg: Config)
    ensures GivenKey(Last(Head(cfg), "private_key")) == cfg.privateKey
    ensures Last(Head(cfg), "replace_peers") == FlagText(cfg.replacePeers)
  {
    hide Head, Last, Said, GivenKey, DeviceKeyOf, FlagText;
    NamedSays(cfg, PrivateKey);
    KeySaid(cfg);
    InstructionKeys();
    HeadSays(cfg, "replace_peers");
  }

  /** The device lines ask for exactly what is set. */
  lemma {:induction false} HeadIsAsked(cfg: Config)
    requires NumbersFit(cfg)
    ensures AskedHead(Head(cfg)) == cfg.(peers := [])
  {
    hide Head, Last, GivenInt, GivenKey, NumbersFit;
    FirstNumbersAsked(cfg);
    PaddingsAsked(cfg);
    HeadersAsked(cfg);
    SpecsAsked(cfg);
    InstructionAsked(cfg);
  }

  lemma {:induction false} InstructionsSaid(t: Host, p: PeerConfig)
    ensures Last(PeerLines(t, p), "remove") == FlagText(p.remove)
    ensures Last(PeerLines(t, p), "update_only") == FlagText(p.updateOnly)
    ensures Last(PeerLines(t, p), "replace_allowed_ips") == FlagText(p.replaceAllowedIPs)
  {
    hide PeerLines, Last, PeerKeyOf, FlagText, HexEncode, SaidOfPeer;
    FlagKeys();
    ReplaceKey();
    ValueKeys();
    FlagsDiffer();
    PeerSays(t, p, "remove");
    PeerSays(t, p, "update_only");
    PeerSays(t, p, "replace_allowed_ips");
  }

  lemma {:induction false} FlagsDiffer()
    ensures "remove" != "public_key" && "update_only" != "public_key" && "update_only" != "remove"
  {}

  /** A peer's block asks for exactly what its configuration asks. */
  lemma {:induction false} PeerIsAsked(t: Host, p: PeerConfig)
    requires GoodKeepalive(p) && PeerParses(t, p)
    ensures PeerLines(t, p) != [] && AskedPeer(t, PeerLines(t, p)) == AsWritten(t, p)
  {
    hide AskedPeer, PeerLines, AllowedOf, LastPeer, AsKey, AsAddr, GivenInt, GivenKey, SaidOfPeer, HexEncode;
    hide PeerParses;
    PeerOpens(t, p);
    NamedOfPeer(t, p);
    PeerValues(t, p);
    KeyArrives(Some(p.publicKey));
    PskArrives(t, p);
    InstructionsSaid(t, p);
    AllowedRead(t, p);
    BlockAt(t, PeerLines(t, p));
  }

  lemma {:induction false} PskArrives(t: Host, p: PeerConfig)
    ensures GivenKey(SaidOfPeer(t, p, PresharedKey)) == p.presharedKey
  {
    hide KeyText, GivenKey;
    KeyArrives(p.presharedKey);
  }

  /** What a block asks, key by key. */
  lemma {:induction false} BlockAt(t: Host, block: seq<Line>)
    requires block != []
    ensures var seconds := GivenInt(LastPeer(block, Keepalive));
            AskedPeer(t, block) == PeerConfig(
              AsKey(Some(block[0].value)),
              Last(block, "remove") == Some("true"), Last(block, "update_only") == Some("true"),
              GivenKey(LastPeer(block, PresharedKey)), AsAddr(t, LastPeer(block, Endpoint)),
              if seconds.Some? then Some(seconds.value * SECOND) else None,
              Last(block, "replace_allowed_ips") == Some("true"), AllowedOf(t, block), false, false)
  {
    hide Last, GivenInt, GivenKey, AsKey, AsAddr, AllowedOf;
  }

  /** The lines of a request are a set operation that asks for exactly the
      configuration: every value that is set and no other, whether the peer list
      is replaced, and each peer with its settings and instructions, in order. */
  lemma {:induction false} ConfigIsAsked(t: Host, cfg: Config)
    requires NumbersFit(cfg) && GoodKeepalives(cfg.peers) && AllParse(t, cfg.peers)
    ensures ConfigLines(t, cfg)[0] == Line("set", "1")
    ensures AskedConfig(t, LayoutOf(ConfigLines(t, cfg))) == cfg.(peers := AllAsWritten(t, cfg.peers))
  {
    hide NumbersFit, GoodKeepalive, PeerParses, LayoutOf, AskedHead, AskedPeer, AsWritten, PeerLines, DeviceLines;
    hide PeersLines;
    RequestLayout(t, cfg);
    HeadIsAsked(cfg);
    forall i | 0 <= i < |cfg.peers|
      ensures PeerLines(t, cfg.peers[i]) != [] && AskedPeer(t, PeerLines(t, cfg.peers[i])) == AsWritten(t, cfg.peers[i])
    {
      PeerIsAsked(t, cfg.peers[i]);
    }
  }

  // ----- the lines are plain

  lemma {:induction false} PlainAppend(xs: seq<Line>, ys: seq<Line>)
    ensures AllPlain(xs + ys) <==> AllPlain(xs) && AllPlain(ys)
    ensures SomeLong(xs + ys) <==> SomeLong(xs) || SomeLong(ys)
    ensures AllPlain([]) && !SomeLong([])
  {
    hide IsPlain, IsLong;
    var all := xs + ys;
    if AllPlain(all) {
      assert forall i :: 0 <= i < |xs| ==> xs[i] == all[i];
      assert forall i :: 0 <= i < |ys| ==> ys[i] == all[|xs| + i];
    }
    if SomeLong(xs) {
      var i :| 0 <= i < |xs| && IsLong(xs[i]);
      assert IsLong(all[i]);
    }
    if SomeLong(ys) {
      var i :| 0 <= i < |ys| && IsLong(ys[i]);
      assert IsLong(all[|xs| + i]);
    }
  }

  /** Lines that are neither ambiguous nor long. */
  predicate Fine(lines: seq<Line>) { AllPlain(lines) && !SomeLong(lines) }

  lemma {:induction false} FineAppend(xs: seq<Line>, ys: seq<Line>)
    ensures Fine(xs + ys) <==> Fine(xs) && Fine(ys)
  {
    hide IsPlain, IsLong;
    PlainAppend(xs, ys);
  }

  predicate PlainKey(key: string) { IsPlainText(key) && |key| <= 40 }

  lemma {:induction false} FineLine(key: string, value: string)
    requires PlainKey(key) && IsPlainText(value) && |value| <= 1000
    ensures Fine([Line(key, value)])
  {}

  lemma {:induction false} FineInt(key: string, v: Option<int>)
    requires PlainKey(key) && (v.Some? ==> 0 <= v.value <= MAX_MARK)
    ensures Fine(IntLine(key, v))
  {
    if v.Some? {
      DecIsPlain(v.value);
      DecLength(v.value, 10);
      hide Dec, Fine, IsPlainText;
      FineLine(key, Dec(v.value));
    }
  }

  lemma {:induction false} FineKey(key: string, v: Option<Key>)
    requires PlainKey(key)
    ensures Fine(KeyLine(key, v))
  {
    if v.Some? {
      hide Fine;
      FineLine(key, HexEncode(v.value));
    }
  }

  lemma {:induction false} FineFlag(key: string, b: bool)
    requires PlainKey(key)
    ensures Fine(FlagLine(key, b))
  {
    if b {
      FineLine(key, "true");
    }
  }

  lemma {:induction false} PlainBasicKeys()
    ensures PlainKey("set") && PlainKey("private_key") && PlainKey("listen_port") && PlainKey("fwmark")
  {}

  lemma {:induction false} PlainParameterKeys()
    ensures PlainKey("jc") && PlainKey("jmin") && PlainKey("jmax")
    ensures PlainKey("s1") && PlainKey("s2") && PlainKey("s3") && PlainKey("s4")
    ensures PlainKey("replace_peers")
  {}

  lemma {:induction false} PlainPeerKeys()
    ensures PlainKey("public_key") && PlainKey("remove") && PlainKey("update_only")
  {}

  lemma {:induction false} PlainAddressKeys()
    ensures PlainKey("preshared_key") && PlainKey("endpoint") && PlainKey("allowed_ip")
  {}

  lemma {:induction false} PlainKeepaliveKey()
    ensures PlainKey("persistent_keepalive_interval")
  {}

  lemma {:induction false} PlainReplaceAllowed()
    ensures PlainKey("replace_allowed_ips")
  {}

  lemma {:induction false} FineNumbers(cfg: Config)
    requires NumbersFit(cfg)
    ensures Fine(BasicLines(cfg)) && Fine(JunkLines(cfg)) && Fine(PaddingLines(cfg))
  {
    hide Fine, PlainKey, IntLine, KeyLine;
    PlainBasicKeys();
    PlainParameterKeys();
    FineKey("private_key", cfg.privateKey);
    FineInt("listen_port", cfg.listenPort);
    FineInt("fwmark", cfg.firewallMark);
    FineInt("jc", cfg.jc);
    FineInt("jmin", cfg.jmin);
    FineInt("jmax", cfg.jmax);
    FineInt("s1", cfg.s1);
    FineInt("s2", cfg.s2);
    FineInt("s3", cfg.s3);
    FineInt("s4", cfg.s4);
    Fine3(KeyLine("private_key", cfg.privateKey), IntLine("listen_port", cfg.listenPort),
          IntLine("fwmark", cfg.firewallMark));
    Fine3(IntLine("jc", cfg.jc), IntLine("jmin", cfg.jmin), IntLine("jmax", cfg.jmax));
    Fine3(IntLine("s1", cfg.s1), IntLine("s2", cfg.s2), IntLine("s3", cfg.s3));
    FineAppend(IntLine("s1", cfg.s1) + IntLine("s2", cfg.s2) + IntLine("s3", cfg.s3), IntLine("s4", cfg.s4));
  }

  lemma {:induction false} Fine3(a: seq<Line>, b: seq<Line>, c: seq<Line>)
    ensures Fine(a + b + c) <==> Fine(a) && Fine(b) && Fine(c)
  {
    FineAppend(a, b);
    FineAppend(a + b, c);
  }

  /** A header too long for the reader's line buffer. The validator sets no limit
      on the length of a header text: leading zeros are accepted. */
  predicate LongHeader(h: Option<string>) { h.Some? && |h.value| > MAX_LINE - 3 }

  predicate SomeLongHeader(cfg: Config) {
    LongHeader(cfg.h1) || LongHeader(cfg.h2) || LongHeader(cfg.h3) || LongHeader(cfg.h4)
  }

  lemma {:induction false} OneLine(key: string, value: string)
    requires IsPlainText(key) && IsPlainText(value)
    ensures AllPlain([Line(key, value)]) && (SomeLong([Line(key, value)]) <==> |key| + 1 + |value| > MAX_LINE)
  {
    hide IsPlainText;
    var l := [Line(key, value)];
    assert IsLong(l[0]) <==> |key| + 1 + |value| > MAX_LINE;
  }

  lemma {:induction false} PlainTextLine(key: string, v: Option<string>)
    requires |key| == 2 && IsPlainText(key) && (v.Some? ==> IsPlainText(v.value))
    ensures AllPlain(TextLine(key, v)) && (SomeLong(TextLine(key, v)) <==> LongHeader(v))
  {
    hide AllPlain, SomeLong, IsPlainText;
    PlainAppend([], []);
    if v.Some? {
      OneLine(key, v.value);
    }
  }

  lemma {:induction false} PlainValues(cfg: Config)
    requires Valid(cfg) && LineValuesOk(cfg)
    ensures forall i :: 0 <= i < 9 && TextValues(cfg)[i].Some? ==> IsPlainText(TextValues(cfg)[i].value)
    ensures forall i :: 0 <= i < 5 && Specs(cfg)[i].Some? ==> |Specs(cfg)[i].value| <= MAX_INIT_SPEC_LEN
  {
    hide ParseMagicHeader, Meaning;
    forall i | 0 <= i < 4 && Headers(cfg)[i].Some? ensures IsPlainText(Headers(cfg)[i].value) {
      assert !Violates(cfg, BadHeader(i));
      HeaderAlphabet(Headers(cfg)[i].value);
      assert TextValues(cfg)[i] == Headers(cfg)[i];
    }
    forall i | 0 <= i < 5 && Specs(cfg)[i].Some?
      ensures IsPlainText(Specs(cfg)[i].value) && |Specs(cfg)[i].value| <= MAX_INIT_SPEC_LEN
    {
      assert !Violates(cfg, BadSpec(i)) && !Violates(cfg, LongSpec(i));
      AcceptedSpecIsPlain(Specs(cfg)[i].value);
      assert TextValues(cfg)[4 + i] == Specs(cfg)[i];
    }
    forall i | 0 <= i < 9 && TextValues(cfg)[i].Some? ensures IsPlainText(TextValues(cfg)[i].value) {
      assert TextValues(cfg)[i] == if i < 4 then Headers(cfg)[i] else Specs(cfg)[i - 4];
    }
  }

  lemma {:induction false} PlainHeaders(cfg: Config)
    requires Valid(cfg) && LineValuesOk(cfg)
    ensures AllPlain(HeaderLines(cfg)) && (SomeLong(HeaderLines(cfg)) <==> SomeLongHeader(cfg))
  {
    PlainValues(cfg);
    var vs := TextValues(cfg);
    assert vs[0] == cfg.h1 && vs[1] == cfg.h2 && vs[2] == cfg.h3 && vs[3] == cfg.h4;
    PlainTextLine("h1", cfg.h1);
    PlainTextLine("h2", cfg.h2);
    PlainTextLine("h3", cfg.h3);
    PlainTextLine("h4", cfg.h4);
    hide Valid, LineValuesOk, AllPlain, SomeLong, LongHeader, IsPlainText, TextLine;
    var a, b, c, e := TextLine("h1", cfg.h1), TextLine("h2", cfg.h2), TextLine("h3", cfg.h3), TextLine("h4", cfg.h4);
    PlainAppend(a, b);
    PlainAppend(a + b, c);
    PlainAppend(a + b + c, e);
  }

  lemma {:induction false} FineSpecs(cfg: Config)
    requires Valid(cfg) && LineValuesOk(cfg)
    ensures Fine(SpecLines(cfg))
  {
    PlainValues(cfg);
    var vs, ss := TextValues(cfg), Specs(cfg);
    assert vs[4] == cfg.i1 && vs[5] == cfg.i2 && vs[6] == cfg.i3 && vs[7] == cfg.i4 && vs[8] == cfg.i5;
    assert ss[0] == cfg.i1 && ss[1] == cfg.i2 && ss[2] == cfg.i3 && ss[3] == cfg.i4 && ss[4] == cfg.i5;
    PlainTextLine("i1", cfg.i1);
    PlainTextLine("i2", cfg.i2);
    PlainTextLine("i3", cfg.i3);
    PlainTextLine("i4", cfg.i4);
    PlainTextLine("i5", cfg.i5);
    hide Valid, LineValuesOk, AllPlain, SomeLong, IsPlainText, TextLine;
    Fine3(TextLine("i1", cfg.i1), TextLine("i2", cfg.i2), TextLine("i3", cfg.i3));
    FineAppend(TextLine("i1", cfg.i1) + TextLine("i2", cfg.i2) + TextLine("i3", cfg.i3), TextLine("i4", cfg.i4));
    FineAppend(TextLine("i1", cfg.i1) + TextLine("i2", cfg.i2) + TextLine("i3", cfg.i3) + TextLine("i4", cfg.i4),
               TextLine("i5", cfg.i5));
  }

  /** An address text too long for the reader's line buffer: an IPv6 zone may
      have any length. */
  predicate LongEndpoint(t: Host, e: Option<UDPAddr>) { e.Some? && |t.printAddr(e.value)| > MAX_LINE - 9 }

  predicate SomeLongCIDR(t: Host, ips: seq<IPNet>) {
    ips != [] && (|t.printCIDR(ips[0])| > MAX_LINE - 11 || SomeLongCIDR(t, ips[1..]))
  }

  predicate SomeLongAddress(t: Host, ps: seq<PeerConfig>) {
    ps != []
    && (LongEndpoint(t, ps[0].endpoint) || SomeLongCIDR(t, ps[0].allowedIPs) || SomeLongAddress(t, ps[1..]))
  }

  lemma {:induction false} PlainAllowed(t: Host, ips: seq<IPNet>)
    requires forall i :: 0 <= i < |ips| ==> IsPlainText(t.printCIDR(ips[i]))
    ensures AllPlain(AllowedLines(t, ips)) && (SomeLong(AllowedLines(t, ips)) <==> SomeLongCIDR(t, ips))
  {
    PlainAppend([], []);
    if ips != [] {
      PlainAddressKeys();
      hide IsPlainText, AllPlain, SomeLong;
      OneLine("allowed_ip", t.printCIDR(ips[0]));
      PlainAllowed(t, ips[1..]);
      PlainAppend([Line("allowed_ip", t.printCIDR(ips[0]))], AllowedLines(t, ips[1..]));
    }
  }

  lemma {:induction false} PlainEndpoint(t: Host, e: Option<UDPAddr>)
    requires e.Some? ==> IsPlainText(t.printAddr(e.value))
    ensures AllPlain(EndpointLine(t, e)) && (SomeLong(EndpointLine(t, e)) <==> LongEndpoint(t, e))
  {
    PlainAppend([], []);
    if e.Some? {
      PlainAddressKeys();
      hide IsPlainText, AllPlain, SomeLong;
      OneLine("endpoint", t.printAddr(e.value));
    }
  }

  lemma {:induction false} FinePeerKeys(p: PeerConfig)
    ensures Fine(PeerKeyLines(p))
  {
    PlainPeerKeys();
    PlainAddressKeys();
    hide PlainKey, Fine;
    FineKey("public_key", Some(p.publicKey));
    FineFlag("remove", p.remove);
    FineFlag("update_only", p.updateOnly);
    FineKey("preshared_key", p.presharedKey);
    hide FlagLine, HexEncode;
    var a := [Line("public_key", HexEncode(p.publicKey))];
    assert a == KeyLine("public_key", Some(p.publicKey));
    hide KeyLine;
    Fine3(a, FlagLine("remove", p.remove), FlagLine("update_only", p.updateOnly));
    FineAppend(a + FlagLine("remove", p.remove) + FlagLine("update_only", p.updateOnly),
               KeyLine("preshared_key", p.presharedKey));
  }

  /** A peer's lines are plain, and only an address can make one too long. */
  lemma {:induction false} PlainPeer(t: Host, p: PeerConfig)
    requires PlainPeerTexts(t, p) && GoodKeepalive(p)
    ensures AllPlain(PeerLines(t, p))
    ensures SomeLong(PeerLines(t, p)) <==> LongEndpoint(t, p.endpoint) || SomeLongCIDR(t, p.allowedIPs)
  {
    PlainKeepaliveKey();
    PlainReplaceAllowed();
    hide PlainKey, IsPlainText, AllPlain, SomeLong;
    PlainAllowed(t, p.allowedIPs);
    PlainEndpoint(t, p.endpoint);
    FinePeerKeys(p);
    FineInt("persistent_keepalive_interval", Seconds(p.keepalive));
    FineFlag("replace_allowed_ips", p.replaceAllowedIPs);
    hide FlagLine, IntLine, EndpointLine, AllowedLines, Seconds, PlainPeerTexts, PeerKeyLines, LongEndpoint;
    hide SomeLongCIDR;
    var a, b, c := EndpointLine(t, p.endpoint), IntLine("persistent_keepalive_interval", Seconds(p.keepalive)),
                   FlagLine("replace_allowed_ips", p.replaceAllowedIPs);
    PlainAppend(a, b);
    PlainAppend(a + b, c);
    PlainAppend(PeerKeyLines(p), PeerSettingLines(t, p));
    PlainAppend(PeerKeyLines(p) + PeerSettingLines(t, p), AllowedLines(t, p.allowedIPs));
  }

  lemma {:induction false} PlainPeers(t: Host, ps: seq<PeerConfig>)
    requires forall i :: 0 <= i < |ps| ==> PlainPeerTexts(t, ps[i]) && GoodKeepalive(ps[i])
    ensures AllPlain(PeersLines(t, ps)) && (SomeLong(PeersLines(t, ps)) <==> SomeLongAddress(t, ps))
  {
    PlainAppend([], []);
    if ps != [] {
      hide PeerLines, PlainPeerTexts, GoodKeepalive, AllPlain, SomeLong, LongEndpoint, SomeLongCIDR;
      PlainPeer(t, ps[0]);
      PlainPeers(t, ps[1..]);
      PlainAppend(PeerLines(t, ps[0]), PeersLines(t, ps[1..]));
    }
  }

  /** Some line of the request is too long: that of a header, an endpoint or an
      allowed IP. */
  predicate SomeLongText(t: Host, cfg: Config) {
    SomeLongHeader(cfg) || SomeLongAddress(t, cfg.peers)
  }

  lemma {:induction false} ValidKeepalives(cfg: Config)
    requires Valid(cfg)
    ensures forall i :: 0 <= i < |cfg.peers| ==> GoodKeepalive(cfg.peers[i])
  {
    hide ParseMagicHeader, Meaning;
    forall i | 0 <= i < |cfg.peers| ensures GoodKeepalive(cfg.peers[i]) {
      assert !Violates(cfg, BadKeepalive(i));
    }
  }

  // ----- the main results

  /** Every value of a configuration that passed the checks is plain, so lines
      and pairs can be told apart; and only a header or an address can make a line
      too long. */
  lemma {:induction false} LinesArePlain(t: Host, cfg: Config)
    requires Valid(cfg) && LineValuesOk(cfg) && PlainTexts(t, cfg)
    ensures AllPlain(ConfigLines(t, cfg))
    ensures SomeLong(ConfigLines(t, cfg)) <==> SomeLongText(t, cfg)
  {
    ValidNumbersFit(cfg);
    ValidKeepalives(cfg);
    FineNumbers(cfg);
    PlainHeaders(cfg);
    FineSpecs(cfg);
    PlainPeers(t, cfg.peers);
    PlainParameterKeys();
    PlainBasicKeys();
    FineLine("set", "1");
    FineFlag("replace_peers", cfg.replacePeers);
    hide Valid, LineValuesOk, PlainTexts, AllPlain, SomeLong, PlainKey, SomeLongHeader, SomeLongAddress;
    hide NumbersFit, GoodKeepalive;
    hide BasicLines, JunkLines, PaddingLines, HeaderLines, SpecLines, FlagLine, PeersLines;
    var a, b, c, e, g := BasicLines(cfg), JunkLines(cfg), PaddingLines(cfg), HeaderLines(cfg), SpecLines(cfg);
    var first, last := [Line("set", "1")], FlagLine("replace_peers", cfg.replacePeers);
    PlainAppend(a, b);
    PlainAppend(a + b, c);
    PlainAppend(a + b + c, e);
    PlainAppend(a + b + c + e, g);
    PlainAppend(a + b + c + e + g, last);
    PlainAppend(first, DeviceLines(cfg));
    PlainAppend(first + DeviceLines(cfg), PeersLines(t, cfg.peers));
  }

  /** The reader recovers exactly the intended list of keys and values: no value
      ends the request early or adds a line. */
  lemma {:induction false} RequestIsFramed(t: Host, cfg: Config, rest: string)
    requires Valid(cfg) && LineValuesOk(cfg) && PlainTexts(t, cfg)
    ensures ScanText(Request(t, cfg) + rest) ==
            if SomeLongText(t, cfg) then TooLong else Scanned(ConfigLines(t, cfg))
  {
    hide Valid, LineValuesOk, PlainTexts, SomeLongText, ScanText, ConfigLines, AllPlain, SomeLong, Render;
    LinesArePlain(t, cfg);
    Framing(ConfigLines(t, cfg), "\n" + rest);
    assert Render(ConfigLines(t, cfg)) + "\n" + rest == Render(ConfigLines(t, cfg)) + ("\n" + rest);
  }

  /** The device a reader finds: exactly the fields that were set, the peers in
      order with their allowed IPs in order, keepalive in whole seconds, each
      address as its text parses. The lines that only instruct (replace_peers,
      remove, update_only, replace_allowed_ips) leave no trace. */
  function Expected(t: Host, cfg: Config): Device {
    var f := ApplyFields(ZERO_FIELDS, cfg);
    Device("", t.publicKeyOf(f.privateKey), cfg.jc.Some?, f, ReadBackAll(t, cfg.peers))
  }

  /** The lines of a request, read one after the other. */
  lemma {:induction false} ReadRequest(t: Host, cfg: Config)
    requires NumbersFit(cfg) && GoodKeepalives(cfg.peers)
    ensures var o := Finish(t, StepAll(t, START, ConfigLines(t, cfg)));
            if AllParse(t, cfg.peers) then o == Parsed(Expected(t, cfg)) else o.Failed?
  {
    hide NumbersFit, GoodKeepalives, AllParse, AllOk, ConfigLines, StepAll, Finish, LayoutOf, FieldsOf, PeersOf;
    hide ApplyFields;
    hide ReadBackAll, Head, Last, PeerLines;
    RequestOk(t, cfg);
    DeviceIsDescribed(t, ConfigLines(t, cfg));
    if AllParse(t, cfg.peers) {
      RequestLayout(t, cfg);
      FieldsAreRead(cfg);
      PeersAreRead(t, cfg.peers);
    }
  }

  /** Reading what was written gives the configuration back. It fails exactly when
      the line of a header or of an address is too long, so that nothing is read
      at all, or when the text of an address does not parse. */
  lemma {:induction false} RoundTrip(t: Host, cfg: Config)
    requires Valid(cfg) && LineValuesOk(cfg) && PlainTexts(t, cfg)
    ensures var o := ParseText(t, Request(t, cfg));
            if SomeLongText(t, cfg) then o == Unreadable
            else if AllParse(t, cfg.peers) then o == Parsed(Expected(t, cfg))
            else o.Failed?
  {
    hide Valid, LineValuesOk, SomeLongText, ScanText, NumbersFit, PlainPeerTexts, GoodKeepalive, AllParse;
    hide Request, ConfigLines, StepAll, Expected;
    RequestIsFramed(t, cfg, "");
    assert Request(t, cfg) + "" == Request(t, cfg);
    ValidNumbersFit(cfg);
    ValidKeepalives(cfg);
    ReadRequest(t, cfg);
  }

  /** Taken apart again, the text of a request asks for exactly the
      configuration. */
  lemma {:induction false} RequestIsAsked(t: Host, cfg: Config)
    requires Valid(cfg) && LineValuesOk(cfg) && PlainTexts(t, cfg)
    requires !SomeLongText(t, cfg) && AllParse(t, cfg.peers)
    ensures var scan := ScanText(Request(t, cfg));
            && scan.Scanned? && scan.lines != [] && scan.lines[0] == Line("set", "1")
            && AskedConfig(t, LayoutOf(scan.lines)) == cfg.(peers := AllAsWritten(t, cfg.peers))
  {
    hide Valid, LineValuesOk, PlainTexts, SomeLongText, AllParse, ScanText, NumbersFit, GoodKeepalive, Request;
    hide AskedConfig;
    hide DeviceLines, PeersLines, LayoutOf;
    RequestIsFramed(t, cfg, "");
    assert Request(t, cfg) + "" == Request(t, cfg);
    ValidNumbersFit(cfg);
    ValidKeepalives(cfg);
    ConfigIsAsked(t, cfg);
  }

  /** The texts of a peer's addresses parse back to the addresses. */
  predicate InverseTexts(t: Host, p: PeerConfig) {
    && (p.endpoint.Some? ==> t.parseAddr(t.printAddr(p.endpoint.value)) == p.endpoint)
    && (forall i :: 0 <= i < |p.allowedIPs| ==> t.parseCIDR(t.printCIDR(p.allowedIPs[i])) == Some(p.allowedIPs[i]))
  }

  /** Then the peer comes back with exactly its addresses. */
  lemma {:induction false} InverseReadBack(t: Host, p: PeerConfig)
    requires InverseTexts(t, p)
    ensures PeerParses(t, p)
    ensures ReadBack(t, p).endpoint == p.endpoint && ReadBack(t, p).allowedIPs == p.allowedIPs
  {
    assert forall i :: 0 <= i < |p.allowedIPs| ==> ReadIP(t, p.allowedIPs[i]) == p.allowedIPs[i];
  }

  /** A valid configuration whose request cannot be read: a header of many zeros. */
  lemma {:induction false} LongHeaderIsUnreadable(t: Host)
    ensures var cfg := NO_CONFIG.(h1 := Some(ZeroText(MAX_LINE)));
            Valid(cfg) && LineValuesOk(cfg) && ParseText(t, Request(t, cfg)) == Unreadable
  {
    var cfg := NO_CONFIG.(h1 := Some(ZeroText(MAX_LINE)));
    ZeroHeaderIsValid(MAX_LINE);
    var vs := TextValues(cfg);
    assert forall i :: 1 <= i < 9 ==> vs[i] == None;
    assert LineValuesOk(cfg);
    hide Valid, LineValuesOk, ParseText, Request, ZeroText, SomeLongAddress;
    RoundTrip(t, cfg);
  }
}

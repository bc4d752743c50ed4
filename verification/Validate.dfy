/** Config.Validate (wgtypes/validate.go). */
module Validate {
  import opened Types
  import opened Numbers
  import opened InitSpec

  const MAX_JUNK_COUNT := 128
  const MAX_JUNK_SIZE := 1280
  const MAX_INIT_SPEC_LEN := 0xffff - 4 - 1
  const MAX_PORT := 0xffff
  const MAX_MARK := 0xffff_ffff

  // ----- what the kernel's limits are

  /** Everything that can be wrong with a configuration. An index says which
      peer, which of Jc/Jmin/Jmax, S1-S4, H1-H4 or I1-I5. */
  datatype Fault =
    | BadListenPort
    | BadFirewallMark
    | BadKeepalive(peer: nat)
    | BadEndpointPort(peer: nat)
    | BadSecurity(peer: nat)
    | BadJunk(index: nat)
    | JminAboveJmax
    | BadPadding(index: nat)
    | BadHeader(index: nat)
    | Overlap(index: nat, earlier: nat)
    | LongSpec(index: nat)
    | BadSpec(index: nat)

  /** A set value that is outside 0..max. */
  predicate OutOfRange(v: Option<int>, max: int) {
    v.Some? && (v.value < 0 || v.value > max)
  }

  function Junk(cfg: Config): seq<(Option<int>, int)> {
    [(cfg.jc, MAX_JUNK_COUNT), (cfg.jmin, MAX_JUNK_SIZE), (cfg.jmax, MAX_JUNK_SIZE)]
  }

  /** S1-S4, each with the most that fits beside its message. */
  function Paddings(cfg: Config): seq<(Option<int>, int)> {
    [(cfg.s1, MAX_MESSAGE_SIZE - 148), (cfg.s2, MAX_MESSAGE_SIZE - 92),
     (cfg.s3, MAX_MESSAGE_SIZE - 64), (cfg.s4, MAX_MESSAGE_SIZE - 32)]
  }

  function Headers(cfg: Config): seq<Option<string>> { [cfg.h1, cfg.h2, cfg.h3, cfg.h4] }

  function Specs(cfg: Config): seq<Option<string>> { [cfg.i1, cfg.i2, cfg.i3, cfg.i4, cfg.i5] }

  /** The message type value v belongs to header text h. */
  predicate HeaderHas(h: Option<string>, v: nat) {
    h.Some? && var r := ParseMagicHeader(h.value); r.Some? && r.value.Has(v)
  }

  /** Some message type would belong to both headers. */
  ghost predicate Share(a: Option<string>, b: Option<string>) {
    exists v: nat :: HeaderHas(a, v) && HeaderHas(b, v)
  }

  ghost predicate Violates(cfg: Config, f: Fault) {
    match f
    case BadListenPort => OutOfRange(cfg.listenPort, MAX_PORT)
    case BadFirewallMark => OutOfRange(cfg.firewallMark, MAX_MARK)
    case BadKeepalive(i) => i < |cfg.peers| && OutOfRange(cfg.peers[i].keepalive, 0xffff * SECOND)
    case BadEndpointPort(i) => i < |cfg.peers| && BadPort(cfg.peers[i].endpoint)
    case BadSecurity(i) =>
      i < |cfg.peers| && cfg.peers[i].advancedSecurity && cfg.peers[i].disableAdvancedSecurity
    case BadJunk(i) => i < 3 && OutOfRange(Junk(cfg)[i].0, Junk(cfg)[i].1)
    case JminAboveJmax =>
      cfg.jmin.Some? && cfg.jmax.Some? && cfg.jmax.value != 0 && cfg.jmin.value > cfg.jmax.value
    case BadPadding(i) => i < 4 && OutOfRange(Paddings(cfg)[i].0, Paddings(cfg)[i].1)
    case BadHeader(i) => i < 4 && UnparsedHeader(Headers(cfg)[i])
    case Overlap(j, i) => i < j < 4 && Share(Headers(cfg)[i], Headers(cfg)[j])
    case LongSpec(i) => i < 5 && TooLong(Specs(cfg)[i])
    case BadSpec(i) => i < 5 && UnparsedSpec(Specs(cfg)[i])
  }

  predicate BadPort(e: Option<UDPAddr>) {
    e.Some? && (e.value.port < 0 || e.value.port > MAX_PORT)
  }

  predicate UnparsedHeader(h: Option<string>) { h.Some? && ParseMagicHeader(h.value).None? }

  predicate TooLong(s: Option<string>) { s.Some? && |s.value| > MAX_INIT_SPEC_LEN }

  predicate UnparsedSpec(s: Option<string>) { s.Some? && Bounded(Meaning(s.value)).None? }

  ghost predicate Valid(cfg: Config) {
    forall f: Fault :: !Violates(cfg, f)
  }

  // ----- the order in which faults are looked for

  datatype Position = Position(group: nat, item: nat, check: nat) {
    predicate Before(other: Position) {
      || group < other.group
      || (group == other.group && item < other.item)
      || (group == other.group && item == other.item && check < other.check)
    }
  }

  function PositionOf(f: Fault): Position {
    match f
    case BadListenPort => Position(0, 0, 0)
    case BadFirewallMark => Position(1, 0, 0)
    case BadKeepalive(i) => Position(2, i, 0)
    case BadEndpointPort(i) => Position(2, i, 1)
    case BadSecurity(i) => Position(2, i, 2)
    case BadJunk(i) => Position(3, i, 0)
    case JminAboveJmax => Position(4, 0, 0)
    case BadPadding(i) => Position(5, i, 0)
    case BadHeader(i) => Position(6, i, 0)
    case Overlap(j, i) => Position(6, j, 1 + i)
    case LongSpec(i) => Position(7, i, 0)
    case BadSpec(i) => Position(7, i, 1)
  }

  /** There is no fault before position p. */
  ghost predicate CleanUpTo(cfg: Config, p: Position) {
    forall f: Fault :: Violates(cfg, f) ==> !PositionOf(f).Before(p)
  }

  /** r reports the first fault among those before position p, if there is one. */
  ghost predicate Reports(cfg: Config, r: Option<Fault>, p: Position) {
    match r
    case None => CleanUpTo(cfg, p)
    case Some(f) => Violates(cfg, f) && CleanUpTo(cfg, PositionOf(f))
  }

  // ----- Validate

  /** Returns the first fault, or None when there is none. */
  method Validate(cfg: Config) returns (err: Option<Fault>)
    ensures err.None? <==> Valid(cfg)
    ensures err.Some? ==> Violates(cfg, err.value) && CleanUpTo(cfg, PositionOf(err.value))
  {
    hide ParseMagicHeader, Meaning, Share;
    if cfg.listenPort.Some? && (cfg.listenPort.value < 0 || cfg.listenPort.value > MAX_PORT) {
      assert Violates(cfg, BadListenPort);
      return Some(BadListenPort);
    }
    if cfg.firewallMark.Some? && (cfg.firewallMark.value < 0 || cfg.firewallMark.value > MAX_MARK) {
      assert Violates(cfg, BadFirewallMark);
      return Some(BadFirewallMark);
    }
    err := ValidatePeers(cfg);
    if err.Some? { return; }
    err := ValidateJunk(cfg);
    if err.Some? { return; }
    if cfg.jmin.Some? && cfg.jmax.Some? && cfg.jmax.value != 0 && cfg.jmin.value > cfg.jmax.value {
      assert Violates(cfg, JminAboveJmax);
      return Some(JminAboveJmax);
    }
    err := ValidatePaddings(cfg);
    if err.Some? { return; }
    err := ValidateHeaders(cfg);
    if err.Some? { return; }
    err := ValidateSpecs(cfg);
  }

  method ValidatePeers(cfg: Config) returns (err: Option<Fault>)
    requires CleanUpTo(cfg, Position(2, 0, 0))
    ensures Reports(cfg, err, Position(3, 0, 0))
  {
    hide ParseMagicHeader, Meaning, Share;
    for i := 0 to |cfg.peers|
      invariant CleanUpTo(cfg, Position(2, i, 0))
    {
      var p := cfg.peers[i];
      if p.keepalive.Some? && (p.keepalive.value < 0 || p.keepalive.value > 0xffff * SECOND) {
        return Some(BadKeepalive(i));
      }
      if p.endpoint.Some? && (p.endpoint.value.port < 0 || p.endpoint.value.port > MAX_PORT) {
        return Some(BadEndpointPort(i));
      }
      if p.advancedSecurity && p.disableAdvancedSecurity {
        return Some(BadSecurity(i));
      }
    }
    return None;
  }

  method ValidateJunk(cfg: Config) returns (err: Option<Fault>)
    requires CleanUpTo(cfg, Position(3, 0, 0))
    ensures Reports(cfg, err, Position(4, 0, 0))
  {
    var junk := Junk(cfg);
    for i := 0 to |junk|
      invariant CleanUpTo(cfg, Position(3, i, 0))
    {
      var (v, max) := junk[i];
      if v.Some? && (v.value < 0 || v.value > max) {
        return Some(BadJunk(i));
      }
    }
    return None;
  }

  method ValidatePaddings(cfg: Config) returns (err: Option<Fault>)
    requires CleanUpTo(cfg, Position(5, 0, 0))
    ensures Reports(cfg, err, Position(6, 0, 0))
  {
    var paddings := Paddings(cfg);
    for i := 0 to |paddings|
      invariant CleanUpTo(cfg, Position(5, i, 0))
    {
      var (v, limit) := paddings[i];
      if v.None? {
        continue;
      }
      if v.value < 0 || v.value > limit {
        return Some(BadPadding(i));
      }
    }
    return None;
  }

  /** Two parsed ranges overlap exactly when they share a value. */
  lemma {:induction false} OverlapExact(a: Option<string>, b: Option<string>)
    requires a.Some? && b.Some? && !UnparsedHeader(a) && !UnparsedHeader(b)
    ensures var r, o := ParseMagicHeader(b.value).value, ParseMagicHeader(a.value).value;
            (r.start <= o.end && o.start <= r.end) <==> Share(a, b)
  {
    var r, o := ParseMagicHeader(b.value).value, ParseMagicHeader(a.value).value;
    if r.start <= o.end && o.start <= r.end {
      var v := if r.start <= o.start then o.start else r.start;
      assert HeaderHas(a, v) && HeaderHas(b, v);
    }
  }

  /** The ranges collected by the loop are those of the set headers so far. */
  ghost predicate Collected(hs: seq<Option<string>>, n: nat, found: seq<(nat, Range)>)
    requires n <= |hs|
  {
    && (forall k :: 0 <= k < |found| ==>
          && found[k].0 < n && hs[found[k].0].Some?
          && ParseMagicHeader(hs[found[k].0].value) == Some(found[k].1))
    && (forall k, l :: 0 <= k < l < |found| ==> found[k].0 < found[l].0)
    && (forall i :: 0 <= i < n && hs[i].Some? ==> exists k :: 0 <= k < |found| && found[k].0 == i)
  }

  method ValidateHeaders(cfg: Config) returns (err: Option<Fault>)
    requires CleanUpTo(cfg, Position(6, 0, 0))
    ensures Reports(cfg, err, Position(7, 0, 0))
  {
    hide ParseMagicHeader;
    var hs := Headers(cfg);
    var headers: seq<(nat, Range)> := [];
    for i := 0 to |hs|
      invariant CleanUpTo(cfg, Position(6, i, 0))
      invariant Collected(hs, i, headers)
    {
      var h := hs[i];
      if h.None? {
        SharedAreSet();
        NextHeader(cfg, i);
        continue;
      }
      var r := ParseMagicHeader(h.value);
      if r.None? {
        return Some(BadHeader(i));
      }
      var k := FirstOverlap(hs, i, r.value, headers);
      EarlierDoNotShare(hs, i, headers, k);
      if k < |headers| {
        UpToOverlap(cfg, i, headers[k].0);
        return Some(Overlap(i, headers[k].0));
      }
      NextHeader(cfg, i);
      CollectNext(hs, i, headers, r.value);
      headers := headers + [(i, r.value)];
    }
    return None;
  }

  /** The inner loop: the first earlier header that overlaps the new range. */
  method FirstOverlap(hs: seq<Option<string>>, i: nat, r: Range, headers: seq<(nat, Range)>) returns (k: nat)
    requires i < |hs| && hs[i].Some? && ParseMagicHeader(hs[i].value) == Some(r) && Collected(hs, i, headers)
    ensures k <= |headers|
    ensures forall l :: 0 <= l < k ==> !Share(hs[headers[l].0], hs[i])
    ensures k < |headers| ==> Share(hs[headers[k].0], hs[i])
  {
    k := 0;
    while k < |headers|
      invariant k <= |headers|
      invariant forall l :: 0 <= l < k ==> !Share(hs[headers[l].0], hs[i])
    {
      var (j, o) := headers[k];
      OverlapExact(hs[j], hs[i]);
      if r.start <= o.end && o.start <= r.end {
        return;
      }
      k := k + 1;
    }
  }

  lemma {:induction false} NextHeader(cfg: Config, i: nat)
    requires i < 4 && CleanUpTo(cfg, Position(6, i, 0)) && !UnparsedHeader(Headers(cfg)[i])
    requires forall j :: 0 <= j < i ==> !Share(Headers(cfg)[j], Headers(cfg)[i])
    ensures CleanUpTo(cfg, Position(6, i + 1, 0))
  {
    hide ParseMagicHeader, Meaning, Share;
  }

  lemma {:induction false} UpToOverlap(cfg: Config, i: nat, j: nat)
    requires i < 4 && CleanUpTo(cfg, Position(6, i, 0)) && !UnparsedHeader(Headers(cfg)[i])
    requires j <= i && forall k :: 0 <= k < j ==> !Share(Headers(cfg)[k], Headers(cfg)[i])
    ensures CleanUpTo(cfg, PositionOf(Overlap(i, j)))
  {
    hide ParseMagicHeader, Meaning, Share;
  }

  lemma {:induction false} CollectNext(hs: seq<Option<string>>, i: nat, found: seq<(nat, Range)>, r: Range)
    requires i < |hs| && hs[i].Some? && ParseMagicHeader(hs[i].value) == Some(r) && Collected(hs, i, found)
    ensures Collected(hs, i + 1, found + [(i, r)])
  {
    var all := found + [(i, r)];
    forall m | 0 <= m < i + 1 && hs[m].Some?
      ensures exists k :: 0 <= k < |all| && all[k].0 == m
    {
      if m == i {
        assert all[|found|].0 == i;
      } else {
        var k :| 0 <= k < |found| && found[k].0 == m;
        assert all[k].0 == m;
      }
    }
  }

  /** Only headers that are set share a message type. */
  lemma {:induction false} SharedAreSet()
    ensures forall a, b :: Share(a, b) ==> a.Some? && b.Some?
  {}

  /** If header i shares nothing with the first k collected ones, it shares
      nothing with any header before the k-th collected one. */
  lemma {:induction false} EarlierDoNotShare(hs: seq<Option<string>>, i: nat, found: seq<(nat, Range)>, k: nat)
    requires i < |hs| && Collected(hs, i, found) && k <= |found|
    requires forall l :: 0 <= l < k ==> !Share(hs[found[l].0], hs[i])
    ensures forall j :: 0 <= j < (if k < |found| then found[k].0 else i) ==> !Share(hs[j], hs[i])
  {
    hide Share, ParseMagicHeader;
    SharedAreSet();
    forall j | 0 <= j < (if k < |found| then found[k].0 else i) ensures !Share(hs[j], hs[i]) {
      if hs[j].Some? {
        var l :| 0 <= l < |found| && found[l].0 == j;
        assert l < k;
      }
    }
  }

  method ValidateSpecs(cfg: Config) returns (err: Option<Fault>)
    requires CleanUpTo(cfg, Position(7, 0, 0))
    ensures Reports(cfg, err, Position(8, 0, 0))
  {
    hide ParseMagicHeader, Meaning, Share;
    var specs := Specs(cfg);
    for i := 0 to |specs|
      invariant CleanUpTo(cfg, Position(7, i, 0))
    {
      var s := specs[i];
      if s.None? {
        continue;
      }
      if |s.value| > MAX_INIT_SPEC_LEN {
        return Some(LongSpec(i));
      }
      var size := InitPacketSize(s.value);
      if size.None? {
        return Some(BadSpec(i));
      }
    }
    return None;
  }

  predicate Fits16(v: Option<int>) { v.Some? ==> 0 <= v.value <= 0xffff }

  predicate Fits32(v: Option<int>) { v.Some? ==> 0 <= v.value <= MAX_MARK }

  predicate PeerNumbersFit(p: PeerConfig) {
    && (p.keepalive.Some? ==> 0 <= p.keepalive.value <= 0xffff * SECOND)
    && (p.endpoint.Some? ==> 0 <= p.endpoint.value.port <= 0xffff)
  }

  /** Every number fits the field it is sent in. */
  predicate NumbersFit(cfg: Config) {
    && (forall i :: 0 <= i < |cfg.peers| ==> PeerNumbersFit(cfg.peers[i]))
    && Fits16(cfg.listenPort) && Fits32(cfg.firewallMark)
    && Fits16(cfg.jc) && Fits16(cfg.jmin) && Fits16(cfg.jmax)
    && Fits16(cfg.s1) && Fits16(cfg.s2) && Fits16(cfg.s3) && Fits16(cfg.s4)
  }

  lemma {:induction false} ValidNumbersFit(cfg: Config)
    requires Valid(cfg)
    ensures NumbersFit(cfg)
  {
    hide ParseMagicHeader, Meaning, Share;
    assert !Violates(cfg, BadListenPort) && !Violates(cfg, BadFirewallMark);
    assert !Violates(cfg, BadJunk(0)) && !Violates(cfg, BadJunk(1)) && !Violates(cfg, BadJunk(2));
    assert !Violates(cfg, BadPadding(0)) && !Violates(cfg, BadPadding(1));
    assert !Violates(cfg, BadPadding(2)) && !Violates(cfg, BadPadding(3));
    forall i | 0 <= i < |cfg.peers| ensures PeerNumbersFit(cfg.peers[i]) {
      assert !Violates(cfg, BadKeepalive(i)) && !Violates(cfg, BadEndpointPort(i));
    }
  }

  /** A set value between 0 and the limit, together with what comes with it. */
  predicate Within(v: Option<int>, more: nat, limit: nat) { v.Some? ==> 0 <= v.value && v.value + more <= limit }

  predicate ShortSpec(s: Option<string>) { s.Some? ==> |s.value| + 1 + 4 <= 65535 }

  /** Sizes of junk are in order unless there is no junk. */
  predicate LegalNumbers(cfg: Config) {
    && Within(cfg.listenPort, 0, 65535) && Within(cfg.firewallMark, 0, 4294967295)
    && Within(cfg.jc, 0, 128) && Within(cfg.jmin, 0, 1280) && Within(cfg.jmax, 0, 1280)
    && (cfg.jmin.Some? && cfg.jmax.Some? ==> cfg.jmax == Some(0) || cfg.jmin.value <= cfg.jmax.value)
  }

  /** A padding and its message, of 148, 92, 64 or 32 bytes, make one datagram. */
  predicate LegalPaddings(cfg: Config) {
    && Within(cfg.s1, 148, 65535) && Within(cfg.s2, 92, 65535)
    && Within(cfg.s3, 64, 65535) && Within(cfg.s4, 32, 65535)
  }

  /** A spec is accepted and fits an attribute with its NUL. */
  predicate LegalSpec(s: Option<string>) { ShortSpec(s) && !UnparsedSpec(s) }

  predicate LegalSpecs(cfg: Config) {
    LegalSpec(cfg.i1) && LegalSpec(cfg.i2) && LegalSpec(cfg.i3) && LegalSpec(cfg.i4) && LegalSpec(cfg.i5)
  }

  /** The headers are accepted, and no message type belongs to two of them. */
  ghost predicate LegalHeaders(cfg: Config) {
    && !UnparsedHeader(cfg.h1) && !UnparsedHeader(cfg.h2) && !UnparsedHeader(cfg.h3) && !UnparsedHeader(cfg.h4)
    && !Share(cfg.h1, cfg.h2) && !Share(cfg.h1, cfg.h3) && !Share(cfg.h1, cfg.h4)
    && !Share(cfg.h2, cfg.h3) && !Share(cfg.h2, cfg.h4) && !Share(cfg.h3, cfg.h4)
  }

  /** Whole seconds and ports of 16 bits, and security not both on and off. */
  predicate LegalPeer(p: PeerConfig) {
    && Within(p.keepalive, 0, 65_535_000_000_000)
    && (p.endpoint.Some? ==> 0 <= p.endpoint.value.port <= 65535)
    && !(p.advancedSecurity && p.disableAdvancedSecurity)
  }

  lemma {:induction false} NumbersLegal(cfg: Config)
    ensures LegalNumbers(cfg) <==>
            && !Violates(cfg, BadListenPort) && !Violates(cfg, BadFirewallMark) && !Violates(cfg, JminAboveJmax)
            && (forall i :: 0 <= i < 3 ==> !Violates(cfg, BadJunk(i)))
  {
    var js := Junk(cfg);
    assert js[0] == (cfg.jc, 128) && js[1] == (cfg.jmin, 1280) && js[2] == (cfg.jmax, 1280);
    assert (forall i :: 0 <= i < 3 ==> !Violates(cfg, BadJunk(i))) <==>
           !Violates(cfg, BadJunk(0)) && !Violates(cfg, BadJunk(1)) && !Violates(cfg, BadJunk(2));
  }

  lemma {:induction false} PaddingsLegal(cfg: Config)
    ensures LegalPaddings(cfg) <==> forall i :: 0 <= i < 4 ==> !Violates(cfg, BadPadding(i))
  {
    assert (forall i :: 0 <= i < 4 ==> !Violates(cfg, BadPadding(i))) <==>
           && !Violates(cfg, BadPadding(0)) && !Violates(cfg, BadPadding(1))
           && !Violates(cfg, BadPadding(2)) && !Violates(cfg, BadPadding(3));
  }

  lemma {:induction false} HeadersLegal(cfg: Config)
    ensures LegalHeaders(cfg) <==>
            && (forall i :: 0 <= i < 4 ==> !Violates(cfg, BadHeader(i)))
            && (forall i, j :: 0 <= i < j < 4 ==> !Violates(cfg, Overlap(j, i)))
  {
    hide UnparsedHeader, Share;
    var hs := Headers(cfg);
    assert hs[0] == cfg.h1 && hs[1] == cfg.h2 && hs[2] == cfg.h3 && hs[3] == cfg.h4;
    if && (forall i :: 0 <= i < 4 ==> !Violates(cfg, BadHeader(i)))
       && (forall i, j :: 0 <= i < j < 4 ==> !Violates(cfg, Overlap(j, i)))
    {
      assert !Violates(cfg, BadHeader(0)) && !Violates(cfg, BadHeader(1));
      assert !Violates(cfg, BadHeader(2)) && !Violates(cfg, BadHeader(3));
      assert !Violates(cfg, Overlap(1, 0)) && !Violates(cfg, Overlap(2, 0)) && !Violates(cfg, Overlap(3, 0));
      assert !Violates(cfg, Overlap(2, 1)) && !Violates(cfg, Overlap(3, 1)) && !Violates(cfg, Overlap(3, 2));
    }
  }

  lemma {:induction false} SpecsLegal(cfg: Config)
    ensures LegalSpecs(cfg) <==>
            forall i :: 0 <= i < 5 ==> !Violates(cfg, LongSpec(i)) && !Violates(cfg, BadSpec(i))
  {
    hide UnparsedSpec;
    var ss := Specs(cfg);
    assert ss[0] == cfg.i1 && ss[1] == cfg.i2 && ss[2] == cfg.i3 && ss[3] == cfg.i4 && ss[4] == cfg.i5;
    forall i | 0 <= i < 5 ensures LegalSpec(ss[i]) <==> !Violates(cfg, LongSpec(i)) && !Violates(cfg, BadSpec(i)) {}
    assert LegalSpecs(cfg) <==> forall i :: 0 <= i < 5 ==> LegalSpec(ss[i]);
  }

  lemma {:induction false} PeerLegal(cfg: Config, i: nat)
    requires i < |cfg.peers|
    ensures LegalPeer(cfg.peers[i]) <==>
            !Violates(cfg, BadKeepalive(i)) && !Violates(cfg, BadEndpointPort(i)) && !Violates(cfg, BadSecurity(i))
  {
    hide ParseMagicHeader, Meaning, Share;
  }

  /** What Validate demands, in figures: neither more nor less. */
  lemma {:induction false} ValidExact(cfg: Config)
    ensures Valid(cfg) <==>
            && LegalNumbers(cfg) && LegalPaddings(cfg) && LegalHeaders(cfg) && LegalSpecs(cfg)
            && (forall i :: 0 <= i < |cfg.peers| ==> LegalPeer(cfg.peers[i]))
  {
    hide LegalNumbers, LegalPaddings, LegalHeaders, LegalSpecs, LegalPeer, OutOfRange, TooLong, Share, UnparsedHeader;
    hide UnparsedSpec;
    NumbersLegal(cfg);
    PaddingsLegal(cfg);
    HeadersLegal(cfg);
    SpecsLegal(cfg);
    forall i | 0 <= i < |cfg.peers|
      ensures LegalPeer(cfg.peers[i]) <==>
              !Violates(cfg, BadKeepalive(i)) && !Violates(cfg, BadEndpointPort(i)) && !Violates(cfg, BadSecurity(i))
    {
      PeerLegal(cfg, i);
    }
  }

  lemma {:induction false} ZeroHeaderIsValid(n: nat)
    requires n > 0
    ensures Valid(NO_CONFIG.(h1 := Some(ZeroText(n))))
  {
    hide ZeroText, ParseMagicHeader;
    var cfg := NO_CONFIG.(h1 := Some(ZeroText(n)));
    ZeroHeaderParses(n);
    forall f: Fault ensures !Violates(cfg, f) {}
  }
}

/** Client.ConfigureDevice on Linux (internal/wglinux/client_linux.go): the loop
    that sends the batches to the device. */
module Send {
  import opened Types
  import opened Net
  import opened Attributes
  import opened PeerCodec
  import opened DeviceCodec
  import opened Kernel
  import opened Batching
  import opened Delivery
  import opened Validate
  import opened DeviceMessage
  import opened BatchCodec

  // ----- what a plain WireGuard device must not be sent

  predicate SetsSecurity(p: PeerConfig) { p.advancedSecurity || p.disableAdvancedSecurity }

  /** hasAWGFields. */
  predicate HasAWGFields(cfg: Config) {
    || cfg.jc.Some? || cfg.jmin.Some? || cfg.jmax.Some?
    || cfg.s1.Some? || cfg.s2.Some? || cfg.s3.Some? || cfg.s4.Some?
    || cfg.h1.Some? || cfg.h2.Some? || cfg.h3.Some? || cfg.h4.Some?
    || cfg.i1.Some? || cfg.i2.Some? || cfg.i3.Some? || cfg.i4.Some? || cfg.i5.Some?
    || exists i :: 0 <= i < |cfg.peers| && SetsSecurity(cfg.peers[i])
  }

  /** The request has none of the attributes only AmneziaWG understands. */
  ghost predicate IsPlain(e: Endian, cfg: Config) {
    && JunkAttrs(e, cfg) == [] && PaddingAttrs(e, cfg) == [] && HeaderAttrs(cfg) == [] && SpecAttrs(cfg) == []
    && forall i :: 0 <= i < |cfg.peers| ==>
         FlagBits(cfg.peers[i]) < 8 && Leaf(PEER_ADVANCED_SECURITY, []) !in FlagAttrs(e, cfg.peers[i])
  }

  lemma {:induction false} NoParameters(e: Endian, cfg: Config)
    requires !HasAWGFields(cfg)
    ensures JunkAttrs(e, cfg) == [] && PaddingAttrs(e, cfg) == [] && HeaderAttrs(cfg) == [] && SpecAttrs(cfg) == []
  {}

  lemma {:induction false} BatchIsPlain(cfg: Config, b: Config)
    requires !HasAWGFields(cfg) && b in Batches(cfg)
    ensures !HasAWGFields(b)
  {
    hide Messages, NeedsBatching;
    if NeedsBatching(cfg) {
      var ms := Messages(cfg.peers, {});
      var j :| 0 <= j < |ms| && b == Batch(cfg, j, ms[j]);
      var i := MessagesComeFrom(cfg.peers, {}, ms[j]);
      assert !SetsSecurity(cfg.peers[i]);
    }
  }

  /** A configuration that passes the check sends a plain device nothing it does
      not know, in any batch. */
  lemma {:induction false} PlainBatches(e: Endian, cfg: Config, b: Config)
    requires !HasAWGFields(cfg) && b in Batches(cfg)
    ensures IsPlain(e, b)
  {
    hide FlagBits, FlagAttrs, Batches, JunkAttrs, PaddingAttrs, HeaderAttrs, SpecAttrs;
    BatchIsPlain(cfg, b);
    NoParameters(e, b);
    forall i | 0 <= i < |b.peers|
      ensures FlagBits(b.peers[i]) < 8 && Leaf(PEER_ADVANCED_SECURITY, []) !in FlagAttrs(e, b.peers[i])
    {
      assert !SetsSecurity(b.peers[i]);
      PlainFlags(e, b.peers[i]);
    }
  }

  lemma {:induction false} PlainFlags(e: Endian, p: PeerConfig)
    ensures SetsSecurity(p) <==> FlagBits(p) >= 8
    ensures !SetsSecurity(p) ==> Leaf(PEER_ADVANCED_SECURITY, []) !in FlagAttrs(e, p)
  {
    hide PutUint32;
  }

  lemma {:induction false} SomeParameter(e: Endian, cfg: Config, b: Config)
    requires JunkAttrs(e, b) == [] && PaddingAttrs(e, b) == [] && HeaderAttrs(b) == [] && SpecAttrs(b) == []
    requires b.(peers := []) == cfg.(peers := [])
    requires forall i :: 0 <= i < |cfg.peers| ==> !SetsSecurity(cfg.peers[i])
    ensures !HasAWGFields(cfg)
  {}

  /** The check refuses nothing else: of a configuration it refuses, some batch
      asks for what only AmneziaWG knows. */
  lemma {:induction false} RefusedIsNotPlain(e: Endian, cfg: Config) returns (j: nat)
    requires HasAWGFields(cfg)
    ensures j < |Batches(cfg)| && !IsPlain(e, Batches(cfg)[j])
  {
    hide FlagBits, FlagAttrs, JunkAttrs, PaddingAttrs, HeaderAttrs, SpecAttrs, Messages, EntryOf;
    if i :| 0 <= i < |cfg.peers| && SetsSecurity(cfg.peers[i]) {
      j := 0;
      PlainFlags(e, cfg.peers[i]);
      if NeedsBatching(cfg) {
        j := EveryPeerIsSent(cfg.peers, {}, i);
        var m := Messages(cfg.peers, {})[j];
        EntrySecurity(m, cfg.peers[i]);
        PlainFlags(e, m);
        assert Batches(cfg)[j].peers[0] == m;
      }
    } else {
      j := 0;
      BatchesNonEmpty(cfg);
      var b := Batches(cfg)[0];
      LaterBatches(cfg, 0);
      if IsPlain(e, b) {
        SomeParameter(e, cfg, b);
      }
    }
  }

  lemma {:induction false} EntrySecurity(m: PeerConfig, p: PeerConfig)
    requires EntryOf(m, p)
    ensures SetsSecurity(m) <==> SetsSecurity(p)
  {}

  // ----- what a request does

  /** The request as the kernel reads it from the attributes. */
  function Request(e: Endian, name: string, b: Config): Config {
    AskedConfig(e, ConfigAttrs(e, name, b).GetOr([]))
  }

  function Requests(e: Endian, name: string, bs: seq<Config>): seq<Config> {
    seq(|bs|, i requires 0 <= i < |bs| => Request(e, name, bs[i]))
  }

  /** Addresses in another form and fractions of seconds make no difference. */
  lemma {:induction false} NormalApplies(d: State, p: PeerConfig)
    ensures ApplyPeer(d, NormalPeer(p)) == ApplyPeer(d, p)
  {
    hide Disown, Assign, RouteOf, Routes, NormalIPs;
    RoutesNormal(p.allowedIPs);
    SettingsNormal(p);
  }

  lemma {:induction false} SettingsNormal(p: PeerConfig)
    ensures forall s: PeerState :: UpdateState(s, NormalPeer(p)) == UpdateState(s, p)
  {
    hide NormalIPs, IsMapped;
    if p.endpoint.Some? {
      NormalTwice(p.endpoint.value.ip);
    }
  }

  lemma {:induction false} NormalTwice(ip: seq<byte>)
    ensures Normal(Normal(ip)) == Normal(ip)
  {}

  lemma {:induction false} RoutesNormal(ips: seq<IPNet>)
    ensures Routes(NormalIPs(ips)) == Routes(ips)
  {
    hide Masked, MaskOnes, Normal;
    forall i | 0 <= i < |ips| ensures RouteOf(NormalIP(ips[i])) == RouteOf(ips[i]) {
      NormalTwice(ips[i].ip);
    }
    assert forall i :: 0 <= i < |ips| ==> NormalIPs(ips)[i] == NormalIP(ips[i]);
  }

  lemma {:induction false} NormalPeersApply(d: State, ps: seq<PeerConfig>)
    ensures ApplyPeers(d, NormalPeers(ps)) == ApplyPeers(d, ps)
    decreases |ps|
  {
    hide ApplyPeer, NormalPeer;
    if ps != [] {
      NormalApplies(d, ps[0]);
      NormalPeersApply(ApplyPeer(d, ps[0]), ps[1..]);
      assert NormalPeers(ps)[1..] == NormalPeers(ps[1..]);
    }
  }

  /** The kernel does with the messages what the batches are meant to do. */
  lemma {:induction false} RequestsDo(d: State, e: Endian, name: string, cfg: Config, n: nat)
    requires Valid(cfg) && AllGood(cfg.peers) && n <= |Batches(cfg)|
    ensures Run(d, Requests(e, name, Batches(cfg)[..n])) == Run(d, Batches(cfg)[..n])
  {
    hide Valid, AllGood, Batches, Request, ApplyPeers, NormalPeers;
    if n > 0 {
      var bs := Batches(cfg);
      var b := bs[n - 1];
      RequestsDo(d, e, name, cfg, n - 1);
      assert Requests(e, name, bs[..n]) == Requests(e, name, bs[..n - 1]) + [Request(e, name, b)];
      assert bs[..n] == bs[..n - 1] + [b];
      RunAppend(d, Requests(e, name, bs[..n - 1]), [Request(e, name, b)]);
      RunAppend(d, bs[..n - 1], [b]);
      hide Run, Requests;
      var before := Run(d, bs[..n - 1]);
      OneRequest(before, b);
      OneRequest(before, Request(e, name, b));
      RequestDoes(before, e, name, cfg, b);
    }
  }

  lemma {:induction false} RequestDoes(d: State, e: Endian, name: string, cfg: Config, b: Config)
    requires Valid(cfg) && AllGood(cfg.peers) && b in Batches(cfg)
    ensures Apply(d, Request(e, name, b)) == Apply(d, b)
  {
    hide Valid, AllGood, Batches, ConfigAttrs, AskedConfig, ApplyPeers, NormalPeers;
    BatchIsAsked(e, name, cfg, b);
    NormalPeersApply(ApplyHeader(d, b), b.peers);
  }

  // ----- the loop

  /** How a call ends: complete, or with an error. */
  datatype Result = Sent | NotSupported | ContextEnded | Invalid | Refused

  /** A device reached over netlink. */
  class Link {
    const e: Endian
    const name: string
    const amnezia: bool
    var state: State

    constructor (e: Endian, name: string, amnezia: bool, state: State)
      ensures this.e == e && this.name == name && this.amnezia == amnezia && this.state == state
    {
      this.e, this.name, this.amnezia, this.state := e, name, amnezia, state;
    }

    /** Sends the batches one by one. The context is found alive `alive` times,
        on entry and before each batch; the kernel refuses request number
        `refused`. Wherever the loop stops, the device has seen a prefix of the
        batches: without repeated settings, a truncation of the configuration at
        exactly that point. */
    method ConfigureDevice(cfg: Config, alive: nat, refused: nat) returns (r: Result, ghost sent: nat)
      modifies this
      ensures sent <= |Batches(cfg)| && state == Run(old(state), Requests(e, name, Batches(cfg)[..sent]))
      ensures Valid(cfg) && AllGood(cfg.peers) ==> state == Run(old(state), Batches(cfg)[..sent])
      ensures r == NotSupported <==> alive > 0 && !amnezia && HasAWGFields(cfg)
      ensures r == NotSupported ==> sent == 0
      ensures r == Sent <==> sent == |Batches(cfg)|
      ensures r == ContextEnded <==> alive == 0 || (r != NotSupported && sent < |Batches(cfg)| && alive == sent + 1)
      ensures r == Invalid ==> ConfigAttrs(e, name, Batches(cfg)[sent]).None?
      ensures r == Refused ==> sent == refused && ConfigAttrs(e, name, Batches(cfg)[sent]).Some?
      ensures sent <= refused && (sent < alive || sent == 0)
      ensures Valid(cfg) && AllGood(cfg.peers) ==> r != Invalid
      ensures forall i :: 0 <= i < sent ==> ConfigAttrs(e, name, Batches(cfg)[i]).Some?
      ensures sent == 0 ==> state == old(state)
      ensures Valid(cfg) && AllGood(cfg.peers) && sent > 0 && (!NeedsBatching(cfg) || CleanRepeats(cfg.peers, {})) ==>
                state == Apply(old(state), Truncate(cfg, sent))
      ensures Valid(cfg) && AllGood(cfg.peers) && r == Sent && (!NeedsBatching(cfg) || CleanRepeats(cfg.peers, {})) ==>
                state == Apply(old(state), cfg)
    {
      hide NeedsBatching, CleanRepeats, HasAWGFields, ConfigAttrs, Apply, Valid, AllGood, Truncate;
      hide Batches, Run, Requests, AskedConfig;
      sent := 0;
      Interrupted(state, e, name, cfg, 0);
      BatchesNonEmpty(cfg);
      if alive == 0 {
        return ContextEnded, 0;
      }
      if !amnezia && HasAWGFields(cfg) {
        return NotSupported, 0;
      }
      var batches := BuildBatches(cfg);
      for i := 0 to |batches|
        invariant sent == i && batches == Batches(cfg) && i <= refused && i < alive
        invariant state == Run(old(state), Requests(e, name, batches[..i]))
        invariant forall j :: 0 <= j < i ==> ConfigAttrs(e, name, batches[j]).Some?
      {
        Interrupted(old(state), e, name, cfg, sent);
        if i + 1 == alive {
          return ContextEnded, sent;
        }
        var attrs := EncodeConfig(e, name, batches[i]);
        if attrs.None? {
          if Valid(cfg) && AllGood(cfg.peers) {
            BatchIsAsked(e, name, cfg, batches[i]);
          }
          return Invalid, sent;
        }
        if i == refused {
          return Refused, sent;
        }
        OneMoreRequest(old(state), e, name, batches, i);
        state := Apply(state, AskedConfig(e, attrs.value));
        sent := i + 1;
      }
      assert batches[..|batches|] == batches;
      Interrupted(old(state), e, name, cfg, sent);
      return Sent, sent;
    }
  }

  /** configAttrs. */
  method EncodeConfig(e: Endian, name: string, cfg: Config) returns (r: Option<seq<Attr>>)
    ensures r == ConfigAttrs(e, name, cfg)
  {
    hide FieldAttrs, EncodePeers;
    var ae := FieldAttrs(e, name, cfg);
    if |cfg.peers| > 0 {
      var peers := EncodePeerList(e, cfg.peers);
      if peers.None? {
        return None;
      }
      ae := ae + [Nest(A_PEERS, peers.value)];
    } else {
      assert ae + [] == ae;
    }
    return Some(ae);
  }

  /** A run of a prefix, one request longer. */
  lemma {:induction false} RunOneMore(d: State, bs: seq<Config>, i: nat)
    requires i < |bs|
    ensures Run(d, bs[..i + 1]) == Apply(Run(d, bs[..i]), bs[i])
  {
    assert bs[..i + 1] == bs[..i] + [bs[i]];
    RunAppend(d, bs[..i], [bs[i]]);
    OneRequest(Run(d, bs[..i]), bs[i]);
  }

  /** A run of messages, one longer. */
  lemma {:induction false} OneMoreRequest(d: State, e: Endian, name: string, bs: seq<Config>, i: nat)
    requires i < |bs|
    ensures Run(d, Requests(e, name, bs[..i + 1])) == Apply(Run(d, Requests(e, name, bs[..i])), Request(e, name, bs[i]))
  {
    hide Run, Apply, Request;
    var all := Requests(e, name, bs);
    assert all[..i + 1] == Requests(e, name, bs[..i + 1]) && all[..i] == Requests(e, name, bs[..i]);
    RunOneMore(d, all, i);
  }

  lemma {:induction false} Interrupted(d: State, e: Endian, name: string, cfg: Config, sent: nat)
    requires sent <= |Batches(cfg)|
    ensures var after := Run(d, Requests(e, name, Batches(cfg)[..sent]));
            && (sent == 0 ==> after == d)
            && (Valid(cfg) && AllGood(cfg.peers) ==>
                  && after == Run(d, Batches(cfg)[..sent])
                  && (!NeedsBatching(cfg) || CleanRepeats(cfg.peers, {}) ==>
                        && (sent > 0 ==> after == Apply(d, Truncate(cfg, sent)))
                        && (sent == |Batches(cfg)| ==> after == Apply(d, cfg))))
  {
    hide NeedsBatching, CleanRepeats, Batches, Apply, Truncate, Request, Valid, AllGood;
    assert sent == 0 ==> Requests(e, name, Batches(cfg)[..sent]) == [];
    hide Requests;
    if Valid(cfg) && AllGood(cfg.peers) {
      RequestsDo(d, e, name, cfg, sent);
      if !NeedsBatching(cfg) || CleanRepeats(cfg.peers, {}) {
        if sent > 0 {
          InterruptedIsTruncation(d, cfg, sent);
        }
        BatchingPreservesMeaning(d, cfg);
        assert Batches(cfg)[..|Batches(cfg)|] == Batches(cfg);
      }
    }
  }
}

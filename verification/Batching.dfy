/** shouldBatch and buildBatches (internal/wglinux/configure_linux.go): one
    large request becomes a sequence of small ones. */
module Batching {
  import opened Types

  const IP_BATCH_CHUNK := 256
  const PEER_BATCH_CHUNK := 32

  function CountIPs(ps: seq<PeerConfig>): nat {
    if ps == [] then 0 else |ps[0].allowedIPs| + CountIPs(ps[1..])
  }

  predicate NeedsBatching(cfg: Config) {
    |cfg.peers| > PEER_BATCH_CHUNK || CountIPs(cfg.peers) > IP_BATCH_CHUNK
  }

  // ----- what the batches are

  /** The request without its AmneziaWG parameters. */
  function Strip(cfg: Config): Config {
    cfg.(jc := None, jmin := None, jmax := None,
         s1 := None, s2 := None, s3 := None, s4 := None,
         h1 := None, h2 := None, h3 := None, h4 := None,
         i1 := None, i2 := None, i3 := None, i4 := None, i5 := None)
  }

  /** The entry sent for one chunk of a peer's allowed IPs. */
  function Message(p: PeerConfig, ips: seq<IPNet>, first: bool): PeerConfig {
    if first then p.(allowedIPs := ips)
    else p.(allowedIPs := ips, presharedKey := None, endpoint := None, keepalive := None, replaceAllowedIPs := false)
  }

  /** The entries for one peer: its allowed IPs in chunks. */
  function PeerMessages(p: PeerConfig, ips: seq<IPNet>, first: bool): (ms: seq<PeerConfig>)
    ensures |ms| >= 1
    decreases |ips|
  {
    if |ips| <= IP_BATCH_CHUNK then [Message(p, ips, first)]
    else [Message(p, ips[..IP_BATCH_CHUNK], first)] + PeerMessages(p, ips[IP_BATCH_CHUNK..], false)
  }

  /** The entries for all peers; `known` are the keys seen before. */
  function Messages(ps: seq<PeerConfig>, known: set<Key>): seq<PeerConfig>
    decreases |ps|
  {
    if ps == [] then []
    else
      PeerMessages(ps[0], ps[0].allowedIPs, ps[0].publicKey !in known)
      + Messages(ps[1..], known + {ps[0].publicKey})
  }

  /** The j-th batch of cfg, carrying entry m. */
  function Batch(cfg: Config, j: nat, m: PeerConfig): Config {
    (if j == 0 then cfg else Strip(cfg).(replacePeers := false)).(peers := [m])
  }

  function AllBatches(cfg: Config, ms: seq<PeerConfig>): seq<Config> {
    seq(|ms|, j requires 0 <= j < |ms| => Batch(cfg, j, ms[j]))
  }

  /** The batches of a configuration. */
  function Batches(cfg: Config): seq<Config> {
    if NeedsBatching(cfg) then AllBatches(cfg, Messages(cfg.peers, {})) else [cfg]
  }

  // ----- the algorithm

  method ShouldBatch(cfg: Config) returns (b: bool)
    ensures b == NeedsBatching(cfg)
    ensures b <==> |cfg.peers| > 32 || CountIPs(cfg.peers) > 256
  {
    if |cfg.peers| > PEER_BATCH_CHUNK {
      return true;
    }
    var ips := 0;
    for i := 0 to |cfg.peers|
      invariant ips + CountIPs(cfg.peers[i..]) == CountIPs(cfg.peers)
    {
      ips := ips + |cfg.peers[i].allowedIPs|;
    }
    return ips > IP_BATCH_CHUNK;
  }

  /** A batch before ReplacePeers is cleared. */
  function RawBatch(cfg: Config, j: nat, m: PeerConfig): Config {
    (if j == 0 then cfg else Strip(cfg)).(peers := [m])
  }

  /** The batches built for the entries sent so far, ReplacePeers still in each. */
  ghost predicate Built(cfg: Config, sent: seq<PeerConfig>, batches: seq<Config>) {
    |batches| == |sent| && forall j :: 0 <= j < |batches| ==> batches[j] == RawBatch(cfg, j, sent[j])
  }

  lemma {:induction false} BuiltNext(cfg: Config, sent: seq<PeerConfig>, batches: seq<Config>, next: Config, m: PeerConfig)
    requires Built(cfg, sent, batches)
    requires next == (if batches == [] then cfg else Strip(cfg)).(peers := [m])
    ensures Built(cfg, sent + [m], batches + [next])
  {
    hide Strip;
  }

  /** ms consists of what was sent followed by what is left. */
  ghost predicate Divided(ms: seq<PeerConfig>, sent: seq<PeerConfig>, left: seq<PeerConfig>) {
    ms == sent + left
  }

  /** One round of the inner loop takes the next entry off the list. */
  lemma {:induction false} NextMessage(ms: seq<PeerConfig>, sent: seq<PeerConfig>, p: PeerConfig, ips: seq<IPNet>,
                                       first: bool, later: seq<PeerConfig>, m: PeerConfig)
    requires Divided(ms, sent, PeerMessages(p, ips, first) + later)
    requires m == Message(p, if |ips| <= IP_BATCH_CHUNK then ips else ips[..IP_BATCH_CHUNK], first)
    ensures Divided(ms, sent + [m], if |ips| <= IP_BATCH_CHUNK then later
                                    else PeerMessages(p, ips[IP_BATCH_CHUNK..], false) + later)
  {}

  lemma {:induction false} NextPeer(ps: seq<PeerConfig>, i: nat, known: set<Key>)
    requires i < |ps|
    ensures Messages(ps[i..], known) == PeerMessages(ps[i], ps[i].allowedIPs, ps[i].publicKey !in known)
                                        + Messages(ps[i + 1..], known + {ps[i].publicKey})
  {
    assert ps[i..][1..] == ps[i + 1..];
  }

  method BuildBatches(cfg: Config) returns (batches: seq<Config>)
    ensures batches == Batches(cfg)
  {
    var batch := ShouldBatch(cfg);
    if !batch {
      return [cfg];
    }
    hide PeerMessages, Messages, NeedsBatching, Strip, Message, Batches;
    var base := Strip(cfg).(peers := []);
    var baseAWG := cfg.(peers := []);
    var knownPeers: set<Key> := {};
    batches := [];
    var firstBatch := true;
    ghost var ms, sent := Messages(cfg.peers, {}), [];
    for i := 0 to |cfg.peers|
      invariant Built(cfg, sent, batches)
      invariant Divided(ms, sent, Messages(cfg.peers[i..], knownPeers))
      invariant firstBatch == (batches == [])
    {
      hide Built, Divided;
      var p := cfg.peers[i];
      var ips := p.allowedIPs;
      var done := false;
      NextPeer(cfg.peers, i, knownPeers);
      ghost var seen := knownPeers + {p.publicKey};
      ghost var later := Messages(cfg.peers[i + 1..], seen);
      while !done
        invariant Built(cfg, sent, batches)
        invariant Divided(ms, sent, if done then later else PeerMessages(p, ips, p.publicKey !in knownPeers) + later)
        invariant seen == knownPeers + {p.publicKey}
        invariant done ==> p.publicKey in knownPeers
        invariant firstBatch == (batches == [])
        decreases !done, |ips|
      {
        var next := if firstBatch then baseAWG else base;
        firstBatch := false;
        ghost var first, whole := p.publicKey !in knownPeers, ips;
        var tmp;
        tmp, ips, done := NextChunk(ips);
        var pcfg;
        pcfg, knownPeers := Entry(p, tmp, knownPeers);
        NextMessage(ms, sent, p, whole, first, later, pcfg);
        BuiltNext(cfg, sent, batches, next.(peers := [pcfg]), pcfg);
        batches := batches + [next.(peers := [pcfg])];
        sent := sent + [pcfg];
      }
      assert knownPeers == seen;
    }
    assert cfg.peers[|cfg.peers|..] == [];
    assert ms == sent;
    batches := ClearReplacePeers(cfg, batches);
  }

  /** Takes one chunk off the allowed IPs. */
  method NextChunk(ips: seq<IPNet>) returns (tmp: seq<IPNet>, rest: seq<IPNet>, done: bool)
    ensures done <==> |ips| <= IP_BATCH_CHUNK
    ensures tmp == if done then ips else ips[..IP_BATCH_CHUNK]
    ensures !done ==> rest == ips[IP_BATCH_CHUNK..]
  {
    if |ips| < IP_BATCH_CHUNK {
      return ips, ips, true;
    }
    tmp, rest := ips[..IP_BATCH_CHUNK], ips[IP_BATCH_CHUNK..];
    done := |rest| == 0;
  }

  /** The entry for one chunk; certain fields only on the first occurrence. */
  method Entry(p: PeerConfig, tmp: seq<IPNet>, known: set<Key>) returns (pcfg: PeerConfig, seen: set<Key>)
    ensures pcfg == Message(p, tmp, p.publicKey !in known)
    ensures seen == known + {p.publicKey}
  {
    pcfg := PeerConfig(
      p.publicKey, p.remove, p.updateOnly, None, None, None, false, tmp,
      p.advancedSecurity, p.disableAdvancedSecurity);
    seen := known;
    if p.publicKey !in known {
      seen := known + {p.publicKey};
      pcfg := pcfg.(presharedKey := p.presharedKey, endpoint := p.endpoint,
                    keepalive := p.keepalive, replaceAllowedIPs := p.replaceAllowedIPs);
    }
  }

  /** The final loop of buildBatches: ReplacePeers stays in the first batch only. */
  method ClearReplacePeers(cfg: Config, raw: seq<Config>) returns (batches: seq<Config>)
    requires NeedsBatching(cfg)
    requires Built(cfg, Messages(cfg.peers, {}), raw)
    ensures batches == Batches(cfg)
  {
    ghost var ms := Messages(cfg.peers, {});
    batches := raw;
    for i := 0 to |batches|
      invariant |batches| == |ms|
      invariant forall j :: 0 <= j < i ==> batches[j] == Batch(cfg, j, ms[j])
      invariant forall j :: i <= j < |batches| ==> batches[j] == RawBatch(cfg, j, ms[j])
    {
      if i > 0 {
        batches := batches[i := batches[i].(replacePeers := false)];
      }
    }
  }

  // ----- where the entries come from

  /** m carries some of p's allowed IPs, with or without p's first-only settings. */
  predicate EntryOf(m: PeerConfig, p: PeerConfig) {
    && (m == Message(p, m.allowedIPs, true) || m == Message(p, m.allowedIPs, false))
    && forall k :: 0 <= k < |m.allowedIPs| ==> m.allowedIPs[k] in p.allowedIPs
  }

  lemma {:induction false} PeerMessagesComeFrom(p: PeerConfig, ips: seq<IPNet>, first: bool, m: PeerConfig)
    requires m in PeerMessages(p, ips, first) && forall k :: 0 <= k < |ips| ==> ips[k] in p.allowedIPs
    ensures EntryOf(m, p)
    decreases |ips|
  {
    if |ips| > IP_BATCH_CHUNK && m in PeerMessages(p, ips[IP_BATCH_CHUNK..], false) {
      PeerMessagesComeFrom(p, ips[IP_BATCH_CHUNK..], false, m);
    }
  }

  /** Every entry is one of some peer of the configuration. */
  lemma {:induction false} MessagesComeFrom(ps: seq<PeerConfig>, known: set<Key>, m: PeerConfig) returns (i: nat)
    requires m in Messages(ps, known)
    ensures i < |ps| && EntryOf(m, ps[i])
    decreases |ps|
  {
    hide PeerMessages, EntryOf;
    if m in PeerMessages(ps[0], ps[0].allowedIPs, ps[0].publicKey !in known) {
      PeerMessagesComeFrom(ps[0], ps[0].allowedIPs, ps[0].publicKey !in known, m);
      i := 0;
    } else {
      assert m in Messages(ps[1..], known + {ps[0].publicKey});
      i := MessagesComeFrom(ps[1..], known + {ps[0].publicKey}, m);
      i := i + 1;
    }
  }

  /** And every peer has an entry. */
  lemma {:induction false} EveryPeerIsSent(ps: seq<PeerConfig>, known: set<Key>, i: nat) returns (j: nat)
    requires i < |ps|
    ensures j < |Messages(ps, known)| && EntryOf(Messages(ps, known)[j], ps[i])
    decreases |ps|
  {
    hide EntryOf, PeerMessages;
    var own := PeerMessages(ps[0], ps[0].allowedIPs, ps[0].publicKey !in known);
    if i == 0 {
      j := 0;
      PeerMessagesComeFrom(ps[0], ps[0].allowedIPs, ps[0].publicKey !in known, own[0]);
    } else {
      j := EveryPeerIsSent(ps[1..], known + {ps[0].publicKey}, i - 1);
      j := |own| + j;
    }
  }

  /** How many entries a peer with so many allowed IPs takes. */
  function EntryCount(n: nat): (count: nat)
    ensures count >= 1
  {
    if n == 0 then 1 else (n + IP_BATCH_CHUNK - 1) / IP_BATCH_CHUNK
  }

  lemma {:induction false} PeerMessagesCount(p: PeerConfig, ips: seq<IPNet>, first: bool)
    ensures |PeerMessages(p, ips, first)| == EntryCount(|ips|)
    decreases |ips|
  {
    if |ips| > IP_BATCH_CHUNK {
      PeerMessagesCount(p, ips[IP_BATCH_CHUNK..], false);
    }
  }

  // ----- size limits

  lemma {:induction false} PeerMessagesAreSmall(p: PeerConfig, ips: seq<IPNet>, first: bool)
    ensures forall m :: m in PeerMessages(p, ips, first) ==> |m.allowedIPs| <= IP_BATCH_CHUNK
    decreases |ips|
  {
    if |ips| > IP_BATCH_CHUNK {
      PeerMessagesAreSmall(p, ips[IP_BATCH_CHUNK..], false);
    }
  }

  lemma {:induction false} MessagesAreSmall(ps: seq<PeerConfig>, known: set<Key>)
    ensures forall m :: m in Messages(ps, known) ==> |m.allowedIPs| <= IP_BATCH_CHUNK
    decreases |ps|
  {
    if ps != [] {
      PeerMessagesAreSmall(ps[0], ps[0].allowedIPs, ps[0].publicKey !in known);
      MessagesAreSmall(ps[1..], known + {ps[0].publicKey});
    }
  }

  /** Every batch holds at most 32 peers and at most 256 allowed IPs in all. */
  lemma {:induction false} BatchesAreSmall(cfg: Config, b: Config)
    requires b in Batches(cfg)
    ensures |b.peers| <= 32 && CountIPs(b.peers) <= 256
  {
    if NeedsBatching(cfg) {
      var ms := Messages(cfg.peers, {});
      MessagesAreSmall(cfg.peers, {});
      var j :| 0 <= j < |ms| && b == Batch(cfg, j, ms[j]);
      assert b.peers[1..] == [];
    }
  }

  /** The first batch has the device-wide values of the request; every later one
      has its key, port and mark, no AmneziaWG parameter, and leaves the peers
      before it in place. */
  lemma {:induction false} LaterBatches(cfg: Config, j: nat)
    requires j < |Batches(cfg)|
    ensures var b := Batches(cfg)[j].(peers := []);
            if j == 0 then b == cfg.(peers := [])
            else b == NO_CONFIG.(privateKey := cfg.privateKey, listenPort := cfg.listenPort,
                                 firewallMark := cfg.firewallMark)
  {
    hide Messages, NeedsBatching;
  }

  /** There is always a first batch: the empty check of ConfigureDevice never fires. */
  lemma {:induction false} BatchesNonEmpty(cfg: Config)
    ensures |Batches(cfg)| >= 1
  {}

  // ----- what the batches ask the device to do

  datatype Mode = Mode(remove: bool, updateOnly: bool, advancedSecurity: bool, disableAdvancedSecurity: bool)

  /** `Touch` is what every entry does: it creates, updates or removes its peer,
      as its mode says. */
  datatype Action =
    | Touch
    | SetPresharedKey(psk: Key)
    | SetEndpoint(endpoint: UDPAddr)
    | SetKeepalive(interval: int)
    | ClearAllowedIPs
    | AddAllowedIP(ip: IPNet)

  /** One change asked of one peer, under the flags of its entry. */
  datatype Op = Op(key: Key, mode: Mode, action: Action)

  function ModeOf(p: PeerConfig): Mode {
    Mode(p.remove, p.updateOnly, p.advancedSecurity, p.disableAdvancedSecurity)
  }

  /** The settings of an entry that are sent with its first chunk only. */
  function FirstOnlyActions(p: PeerConfig): seq<Action> {
    (if p.presharedKey.Some? then [SetPresharedKey(p.presharedKey.value)] else [])
    + (if p.endpoint.Some? then [SetEndpoint(p.endpoint.value)] else [])
    + (if p.keepalive.Some? then [SetKeepalive(p.keepalive.value)] else [])
    + (if p.replaceAllowedIPs then [ClearAllowedIPs] else [])
  }

  function AddActions(ips: seq<IPNet>): seq<Action> {
    seq(|ips|, i requires 0 <= i < |ips| => AddAllowedIP(ips[i]))
  }

  /** The actions as changes of one peer under one mode. */
  function Tagged(key: Key, mode: Mode, actions: seq<Action>): seq<Op> {
    seq(|actions|, i requires 0 <= i < |actions| => Op(key, mode, actions[i]))
  }

  /** What an entry changes: a removed peer has no settings. */
  function Changes(p: PeerConfig): seq<Action> {
    if p.remove then [] else FirstOnlyActions(p) + AddActions(p.allowedIPs)
  }

  function PeerOps(p: PeerConfig): (ops: seq<Op>)
    ensures |ops| == 1 + |Changes(p)|
  {
    Tagged(p.publicKey, ModeOf(p), [Touch] + Changes(p))
  }

  /** The changes a list of entries asks for, in order. */
  function Ops(ps: seq<PeerConfig>): seq<Op> {
    if ps == [] then [] else PeerOps(ps[0]) + Ops(ps[1..])
  }

  function RequestOps(cfgs: seq<Config>): seq<Op> {
    if cfgs == [] then [] else Ops(cfgs[0].peers) + RequestOps(cfgs[1..])
  }

  /** The changes without the touches of a peer that was just changed in the same
      mode: those do nothing. */
  function Squeeze(before: Option<(Key, Mode)>, ops: seq<Op>): seq<Op>
    decreases |ops|
  {
    if ops == [] then [] else Kept(before, ops[0]) + Squeeze(Some(TagOf(ops[0])), ops[1..])
  }

  function Kept(before: Option<(Key, Mode)>, op: Op): seq<Op> {
    if op.action.Touch? && before == Some(TagOf(op)) then [] else [op]
  }

  function TagOf(op: Op): (Key, Mode) { (op.key, op.mode) }

  function LastTag(before: Option<(Key, Mode)>, ops: seq<Op>): Option<(Key, Mode)> {
    if ops == [] then before else Some(TagOf(ops[|ops| - 1]))
  }

  /** No entry for a key seen before carries a first-only setting, unless it
      removes the peer. */
  predicate CleanRepeats(ps: seq<PeerConfig>, known: set<Key>)
    decreases |ps|
  {
    ps == [] ||
    ((ps[0].publicKey in known && !ps[0].remove ==> FirstOnlyActions(ps[0]) == [])
     && CleanRepeats(ps[1..], known + {ps[0].publicKey}))
  }

  predicate DistinctKeys(ps: seq<PeerConfig>) {
    forall i, j :: 0 <= i < j < |ps| ==> ps[i].publicKey != ps[j].publicKey
  }

  lemma {:induction false} DistinctKeysAreClean(ps: seq<PeerConfig>, known: set<Key>)
    requires DistinctKeys(ps)
    requires forall i :: 0 <= i < |ps| ==> ps[i].publicKey !in known
    ensures CleanRepeats(ps, known)
    decreases |ps|
  {
    if ps != [] {
      DistinctKeysAreClean(ps[1..], known + {ps[0].publicKey});
    }
  }

  lemma {:induction false} OpsAppend(ps: seq<PeerConfig>, qs: seq<PeerConfig>)
    ensures Ops(ps + qs) == Ops(ps) + Ops(qs)
  {
    if ps == [] {
      assert ps + qs == qs;
    } else {
      assert (ps + qs)[1..] == ps[1..] + qs;
      OpsAppend(ps[1..], qs);
    }
  }

  lemma {:induction false} TaggedAppend(key: Key, mode: Mode, xs: seq<Action>, ys: seq<Action>)
    ensures Tagged(key, mode, xs + ys) == Tagged(key, mode, xs) + Tagged(key, mode, ys)
  {}

  lemma {:induction false} AddActionsAppend(a: seq<IPNet>, b: seq<IPNet>)
    ensures AddActions(a + b) == AddActions(a) + AddActions(b)
  {}

  /** How many changes there are besides touches. */
  function Count(ops: seq<Op>): nat {
    if ops == [] then 0 else (if ops[0].action.Touch? then 0 else 1) + Count(ops[1..])
  }

  lemma {:induction false} CountAppend(a: seq<Op>, b: seq<Op>)
    ensures Count(a + b) == Count(a) + Count(b)
  {
    if a == [] {
      assert a + b == b;
    } else {
      assert (a + b)[1..] == a[1..] + b;
      CountAppend(a[1..], b);
    }
  }

  lemma {:induction false} SqueezeAppend(before: Option<(Key, Mode)>, a: seq<Op>, b: seq<Op>)
    ensures Squeeze(before, a + b) == Squeeze(before, a) + Squeeze(LastTag(before, a), b)
    ensures LastTag(before, a + b) == LastTag(LastTag(before, a), b)
    decreases |a|
  {
    hide Kept, TagOf;
    if a == [] {
      assert a + b == b;
    } else {
      var own, tag, rest := Kept(before, a[0]), Some(TagOf(a[0])), a[1..];
      assert (a + b)[1..] == rest + b && (a + b)[0] == a[0];
      SqueezeAppend(tag, rest, b);
      assert LastTag(tag, rest) == LastTag(before, a);
      assert own + (Squeeze(tag, rest) + Squeeze(LastTag(tag, rest), b))
          == own + Squeeze(tag, rest) + Squeeze(LastTag(tag, rest), b);
    }
  }

  /** Changes other than touches stay. */
  lemma {:induction false} SqueezeChanges(before: Option<(Key, Mode)>, key: Key, mode: Mode, actions: seq<Action>)
    requires forall i :: 0 <= i < |actions| ==> !actions[i].Touch?
    ensures Squeeze(before, Tagged(key, mode, actions)) == Tagged(key, mode, actions)
    ensures Count(Tagged(key, mode, actions)) == |actions|
    decreases |actions|
  {
    if actions != [] {
      var ops := Tagged(key, mode, actions);
      assert ops[1..] == Tagged(key, mode, actions[1..]);
      SqueezeChanges(Some((key, mode)), key, mode, actions[1..]);
    }
  }

  lemma {:induction false} SqueezeEntry(before: Option<(Key, Mode)>, m: PeerConfig)
    ensures var tag := (m.publicKey, ModeOf(m));
            && Squeeze(before, PeerOps(m)) == (if before == Some(tag) then [] else [Op(m.publicKey, ModeOf(m), Touch)])
                                              + Tagged(m.publicKey, ModeOf(m), Changes(m))
            && LastTag(before, PeerOps(m)) == Some(tag) && Count(PeerOps(m)) == |Changes(m)|
  {
    var ops := PeerOps(m);
    assert ops[1..] == Tagged(m.publicKey, ModeOf(m), Changes(m));
    SqueezeChanges(Some((m.publicKey, ModeOf(m))), m.publicKey, ModeOf(m), Changes(m));
  }

  lemma {:induction false} ChangesSplit(p: PeerConfig, a: seq<IPNet>, b: seq<IPNet>, first: bool)
    ensures Changes(Message(p, a + b, first)) == Changes(Message(p, a, first)) + Changes(Message(p, b, false))
    ensures Changes(Message(p, a, first))
            == if p.remove then [] else (if first then FirstOnlyActions(p) else []) + AddActions(a)
  {
    hide AddActions;
    AddActionsAppend(a, b);
    var own := if first then FirstOnlyActions(p) else [];
    assert FirstOnlyActions(Message(p, a, first)) == FirstOnlyActions(Message(p, a + b, first)) == own;
    assert FirstOnlyActions(Message(p, b, false)) == [];
    assert own + (AddActions(a) + AddActions(b)) == own + AddActions(a) + ([] + AddActions(b));
  }

  /** Two chunks ask for what the whole entry asks for. */
  lemma {:induction false} SqueezeTwo(before: Option<(Key, Mode)>, p: PeerConfig, a: seq<IPNet>, b: seq<IPNet>,
                                      first: bool)
    ensures Squeeze(before, PeerOps(Message(p, a, first)))
            + Squeeze(Some((p.publicKey, ModeOf(p))), PeerOps(Message(p, b, false)))
            == Squeeze(before, PeerOps(Message(p, a + b, first)))
  {
    hide Squeeze, LastTag, PeerOps, Changes, Tagged, Message, ModeOf;
    var m, n := Message(p, a, first), Message(p, b, false);
    MessageKeeps(p, a, first);
    MessageKeeps(p, b, false);
    MessageKeeps(p, a + b, first);
    SqueezeEntry(before, Message(p, a + b, first));
    SqueezeEntry(before, m);
    SqueezeEntry(Some((p.publicKey, ModeOf(p))), n);
    ChangesSplit(p, a, b, first);
    TaggedAppend(p.publicKey, ModeOf(p), Changes(m), Changes(n));
    var key, mode := p.publicKey, ModeOf(p);
    var touch := if before == Some((key, mode)) then [] else [Op(key, mode, Touch)];
    var more := Tagged(key, mode, Changes(n));
    assert Squeeze(Some((key, mode)), PeerOps(n)) == [] + more == more;
    assert (touch + Tagged(key, mode, Changes(m))) + more == touch + (Tagged(key, mode, Changes(m)) + more);
  }

  lemma {:induction false} MessageKeeps(p: PeerConfig, ips: seq<IPNet>, first: bool)
    ensures var m := Message(p, ips, first);
            && m.publicKey == p.publicKey && ModeOf(m) == ModeOf(p) && m.allowedIPs == ips
            && m.remove == p.remove && m.updateOnly == p.updateOnly
            && m.replaceAllowedIPs == (first && p.replaceAllowedIPs)
  {}

  /** The chunks of a peer ask for what the whole entry asks for. */
  lemma {:induction false} PeerMessagesOps(before: Option<(Key, Mode)>, p: PeerConfig, ips: seq<IPNet>, first: bool)
    ensures var ops, tag := Ops(PeerMessages(p, ips, first)), (p.publicKey, ModeOf(p));
            Squeeze(before, ops) == Squeeze(before, PeerOps(Message(p, ips, first))) && LastTag(before, ops) == Some(tag)
    decreases |ips|
  {
    hide Squeeze, LastTag, PeerOps;
    var ms := PeerMessages(p, ips, first);
    if |ips| <= IP_BATCH_CHUNK {
      SqueezeEntry(before, ms[0]);
      assert Ops(ms) == PeerOps(ms[0]) by { assert ms[1..] == []; }
    } else {
      var a, b := ips[..IP_BATCH_CHUNK], ips[IP_BATCH_CHUNK..];
      assert a + b == ips && ms[1..] == PeerMessages(p, b, false);
      PeerMessagesOps(Some((p.publicKey, ModeOf(p))), p, b, false);
      SqueezeAppend(before, PeerOps(ms[0]), Ops(ms[1..]));
      SqueezeEntry(before, ms[0]);
      SqueezeTwo(before, p, a, b, first);
    }
  }

  lemma {:induction false} CountSqueezed(before: Option<(Key, Mode)>, ops: seq<Op>)
    ensures Count(Squeeze(before, ops)) == Count(ops)
    decreases |ops|
  {
    if ops != [] {
      var s, rest := Squeeze(before, ops), Squeeze(Some(TagOf(ops[0])), ops[1..]);
      CountSqueezed(Some(TagOf(ops[0])), ops[1..]);
      assert s == rest || (s[0] == ops[0] && s[1..] == rest);
    }
  }

  lemma {:induction false} CountEntry(p: PeerConfig, first: bool)
    ensures Count(Ops(PeerMessages(p, p.allowedIPs, first))) <= Count(PeerOps(p))
    ensures Count(Ops(PeerMessages(p, p.allowedIPs, first))) == Count(PeerOps(p)) <==>
              first || p.remove || FirstOnlyActions(p) == []
    ensures first || p.remove || FirstOnlyActions(p) == [] ==>
              PeerOps(Message(p, p.allowedIPs, first)) == PeerOps(p)
  {
    hide Ops, PeerMessages, FirstOnlyActions, Squeeze, LastTag, Count;
    var m := Message(p, p.allowedIPs, first);
    PeerMessagesOps(None, p, p.allowedIPs, first);
    CountSqueezed(None, Ops(PeerMessages(p, p.allowedIPs, first)));
    CountSqueezed(None, PeerOps(m));
    SqueezeEntry(None, m);
    SqueezeEntry(None, p);
    ChangesSplit(p, p.allowedIPs, [], first);
  }

  /** Batching never invents a change: it keeps all of them or loses some, and
      it keeps all of them exactly when the repeats are clean. */
  lemma {:induction false} MessagesOps(before: Option<(Key, Mode)>, ps: seq<PeerConfig>, known: set<Key>)
    ensures Count(Ops(Messages(ps, known))) <= Count(Ops(ps))
    ensures Count(Ops(Messages(ps, known))) == Count(Ops(ps)) ==> CleanRepeats(ps, known)
    ensures CleanRepeats(ps, known) ==> Squeeze(before, Ops(Messages(ps, known))) == Squeeze(before, Ops(ps))
    decreases |ps|
  {
    hide PeerMessages, PeerOps, FirstOnlyActions, Squeeze, LastTag, Count;
    if ps != [] {
      var p, first := ps[0], ps[0].publicKey !in known;
      var rest, own := known + {p.publicKey}, PeerMessages(p, p.allowedIPs, first);
      MessagesOps(Some((p.publicKey, ModeOf(p))), ps[1..], rest);
      OpsAppend(own, Messages(ps[1..], rest));
      CountAppend(Ops(own), Ops(Messages(ps[1..], rest)));
      CountAppend(PeerOps(p), Ops(ps[1..]));
      CountEntry(p, first);
      SqueezeAppend(before, Ops(own), Ops(Messages(ps[1..], rest)));
      SqueezeAppend(before, PeerOps(p), Ops(ps[1..]));
      PeerMessagesOps(before, p, p.allowedIPs, first);
      SqueezeEntry(before, p);
    }
  }

  lemma {:induction false} OpsOfBatches(cfg: Config, ms: seq<PeerConfig>, from: nat)
    requires from <= |ms|
    ensures RequestOps(AllBatches(cfg, ms)[from..]) == Ops(ms[from..])
    decreases |ms| - from
  {
    var bs := AllBatches(cfg, ms);
    if from < |ms| {
      OpsOfBatches(cfg, ms, from + 1);
      assert bs[from..][1..] == bs[from + 1..];
      assert ms[from..][1..] == ms[from + 1..];
      assert bs[from].peers == [ms[from]];
      assert Ops([ms[from]]) == PeerOps(ms[from]) by { assert [ms[from]][1..] == []; }
    }
  }

  /** The batches ask for exactly the changes of the configuration, in the same
      order and but for touches that do nothing, if and only if no batching takes
      place or no repeated key carries a first-only setting. */
  lemma {:induction false} BatchesAskTheSame(cfg: Config)
    ensures Squeeze(None, RequestOps(Batches(cfg))) == Squeeze(None, Ops(cfg.peers)) <==>
            !NeedsBatching(cfg) || CleanRepeats(cfg.peers, {})
  {
    hide Messages, Squeeze, Count;
    if NeedsBatching(cfg) {
      var ms := Messages(cfg.peers, {});
      OpsOfBatches(cfg, ms, 0);
      assert Batches(cfg)[0..] == Batches(cfg) && ms[0..] == ms;
      MessagesOps(None, cfg.peers, {});
      CountSqueezed(None, Ops(ms));
      CountSqueezed(None, Ops(cfg.peers));
    } else {
      assert Batches(cfg) == [cfg] && [cfg][1..] == [];
      assert Ops(cfg.peers) + [] == Ops(cfg.peers);
    }
  }
}

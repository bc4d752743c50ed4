/** What the batches do to a device: sent in full they do what the whole
    configuration would do, and interrupted they do what a truncation of it
    would do (internal/wglinux/configure_linux.go, client_linux.go). */
module Delivery {
  import opened Types
  import opened Net
  import opened Kernel
  import opened Batching
  import opened Validate
  import InitSpec
  import Numbers

  // ----- one peer split into chunks

  lemma {:induction false} RoutesAppend(a: seq<IPNet>, b: seq<IPNet>)
    ensures Routes(a + b) == Routes(a) + Routes(b)
  {
    var all := a + b;
    forall r | r in Routes(all) ensures r in Routes(a) + Routes(b) {
      var i :| 0 <= i < |all| && r == RouteOf(all[i]);
      assert if i < |a| then r == RouteOf(a[i]) else r == RouteOf(b[i - |a|]);
    }
    forall r | r in Routes(a) + Routes(b) ensures r in Routes(all) {
      if r in Routes(a) {
        var i :| 0 <= i < |a| && r == RouteOf(a[i]);
        assert r == RouteOf(all[i]);
      } else {
        var i :| 0 <= i < |b| && r == RouteOf(b[i]);
        assert r == RouteOf(all[|a| + i]);
      }
    }
  }

  lemma {:induction false} AssignTwice(owner: map<Route, Key>, x: set<Route>, y: set<Route>, key: Key)
    ensures Assign(Assign(owner, x, key), y, key) == Assign(owner, x + y, key)
  {}

  /** The settings are those of the first chunk. */
  lemma {:induction false} UpdateTwice(s: PeerState, p: PeerConfig, a: seq<IPNet>, b: seq<IPNet>, first: bool)
    ensures UpdateState(UpdateState(s, Message(p, a, first)), Message(p, b, false)) ==
            UpdateState(s, Message(p, a + b, first))
    ensures UpdateState(s, Message(p, a, first)) == UpdateState(s, Message(p, a + b, first))
  {}

  /** Two chunks of one entry do what the entry does. */
  lemma {:induction false} SplitEntry(d: State, p: PeerConfig, a: seq<IPNet>, b: seq<IPNet>, first: bool)
    ensures ApplyPeer(ApplyPeer(d, Message(p, a, first)), Message(p, b, false)) ==
            ApplyPeer(d, Message(p, a + b, first))
  {
    hide Routes, Disown, Assign, UpdateState, Message;
    MessageKeeps(p, a, first);
    MessageKeeps(p, b, false);
    MessageKeeps(p, a + b, first);
    RoutesAppend(a, b);
    var key := p.publicKey;
    var owner := if first && p.replaceAllowedIPs then Disown(d.owner, key) else d.owner;
    AssignTwice(owner, Routes(a), Routes(b), key);
    if !p.remove && (key in d.peers || !p.updateOnly) {
      var before := if key in d.peers then d.peers[key] else d.initial;
      UpdateTwice(before, p, a, b, first);
      var after := UpdateState(before, Message(p, a, first));
      assert d.peers[key := after][key := after] == d.peers[key := after];
    }
  }

  lemma {:induction false} PeerMessagesApply(d: State, p: PeerConfig, ips: seq<IPNet>, first: bool)
    ensures ApplyPeers(d, PeerMessages(p, ips, first)) == ApplyPeer(d, Message(p, ips, first))
    decreases |ips|
  {
    hide ApplyPeer, Message;
    var ms := PeerMessages(p, ips, first);
    if |ips| <= IP_BATCH_CHUNK {
      assert ms[1..] == [];
    } else {
      var a, b := ips[..IP_BATCH_CHUNK], ips[IP_BATCH_CHUNK..];
      assert a + b == ips && ms[1..] == PeerMessages(p, b, false);
      PeerMessagesApply(ApplyPeer(d, Message(p, a, first)), p, b, false);
      SplitEntry(d, p, a, b, first);
    }
  }

  /** Nothing is lost with the settings of an entry that has none or removes its
      peer. */
  lemma {:induction false} WholeMessage(d: State, p: PeerConfig, first: bool)
    requires first || p.remove || FirstOnlyActions(p) == []
    ensures ApplyPeer(d, Message(p, p.allowedIPs, first)) == ApplyPeer(d, p)
  {}

  lemma {:induction false} MessagesApply(d: State, ps: seq<PeerConfig>, known: set<Key>)
    requires CleanRepeats(ps, known)
    ensures ApplyPeers(d, Messages(ps, known)) == ApplyPeers(d, ps)
    decreases |ps|
  {
    hide ApplyPeer, PeerMessages, Message, FirstOnlyActions;
    if ps != [] {
      var p, first := ps[0], ps[0].publicKey !in known;
      WholeMessage(d, p, first);
      PeerMessagesApply(d, p, p.allowedIPs, first);
      MessagesApply(ApplyPeer(d, p), ps[1..], known + {p.publicKey});
      ApplyPeersAppend(d, PeerMessages(p, p.allowedIPs, first), Messages(ps[1..], known + {p.publicKey}));
    }
  }

  // ----- the batches of a request

  /** The first batch sets the device-wide state; once set, later batches leave it alone. */
  lemma {:induction false} BatchHeader(d: State, f: Fields, cfg: Config, j: nat, m: PeerConfig)
    ensures j > 0 && d.fields == ApplyFields(f, cfg) ==> ApplyHeader(d, Batch(cfg, j, m)) == d
    ensures ApplyHeader(d, Batch(cfg, 0, m)) == ApplyHeader(d, cfg)
    ensures ApplyHeader(d, cfg).fields == ApplyFields(d.fields, cfg)
  {}

  lemma {:induction false} BatchesApply(d: State, cfg: Config, ms: seq<PeerConfig>, n: nat)
    requires 1 <= n <= |ms|
    ensures Run(d, AllBatches(cfg, ms)[..n]) == ApplyPeers(ApplyHeader(d, cfg), ms[..n])
  {
    hide ApplyFields, ApplyHeader, ApplyPeers, Run, Strip;
    var bs, h := AllBatches(cfg, ms), ApplyHeader(d, cfg);
    BatchHeader(d, d.fields, cfg, 0, ms[0]);
    if n == 1 {
      OneRequest(d, bs[0]);
      assert bs[..1] == [bs[0]] && bs[0].peers == ms[..1];
    } else {
      BatchesApply(d, cfg, ms, n - 1);
      var e := ApplyPeers(h, ms[..n - 1]);
      PeersKeepFields(h, ms[..n - 1]);
      BatchHeader(e, d.fields, cfg, n - 1, ms[n - 1]);
      assert bs[..n] == bs[..n - 1] + [bs[n - 1]];
      RunAppend(d, bs[..n - 1], [bs[n - 1]]);
      OneRequest(e, bs[n - 1]);
      assert ms[..n] == ms[..n - 1] + [ms[n - 1]];
      ApplyPeersAppend(h, ms[..n - 1], [ms[n - 1]]);
    }
  }

  lemma {:induction false} OneRequest(d: State, cfg: Config)
    ensures Run(d, [cfg]) == Apply(d, cfg)
  {
    assert [cfg][1..] == [];
  }

  // ----- the main results

  /** Sent in full, the batches do exactly what the configuration does. */
  lemma {:induction false} BatchingPreservesMeaning(d: State, cfg: Config)
    requires !NeedsBatching(cfg) || CleanRepeats(cfg.peers, {})
    ensures Run(d, Batches(cfg)) == Apply(d, cfg)
  {
    if NeedsBatching(cfg) {
      hide Messages, CleanRepeats;
      var ms := Messages(cfg.peers, {});
      MessagesNonEmpty(cfg);
      BatchesApply(d, cfg, ms, |ms|);
      assert AllBatches(cfg, ms)[..|ms|] == Batches(cfg) && ms[..|ms|] == ms;
      MessagesApply(ApplyHeader(d, cfg), cfg.peers, {});
    } else {
      OneRequest(d, cfg);
    }
  }

  lemma {:induction false} MessagesNonEmpty(cfg: Config)
    requires NeedsBatching(cfg)
    ensures |Messages(cfg.peers, {})| >= 1
  {}

  /** The peers the first n entries amount to: each peer takes an entry for every
      256 allowed IPs, and the last peer reached may be cut. */
  function Sent(ps: seq<PeerConfig>, n: nat): seq<PeerConfig> {
    if ps == [] || n == 0 then []
    else if IP_BATCH_CHUNK * n < |ps[0].allowedIPs| then [Cut(ps[0], IP_BATCH_CHUNK * n)]
    else [ps[0]] + Sent(ps[1..], Minus(n, EntryCount(|ps[0].allowedIPs|)))
  }

  function Cut(p: PeerConfig, c: nat): PeerConfig
    requires c <= |p.allowedIPs|
  {
    p.(allowedIPs := p.allowedIPs[..c])
  }

  function Minus(n: nat, m: nat): nat { if n < m then 0 else n - m }

  /** The first n entries for a peer are the entries for its first 256 * n IPs. */
  lemma {:induction false} PeerMessagesPrefix(p: PeerConfig, ips: seq<IPNet>, first: bool, n: nat)
    requires 1 <= n <= |PeerMessages(p, ips, first)|
    ensures var c := if IP_BATCH_CHUNK * n < |ips| then IP_BATCH_CHUNK * n else |ips|;
            PeerMessages(p, ips, first)[..n] == PeerMessages(p, ips[..c], first)
    decreases |ips|
  {
    hide Message;
    var ms := PeerMessages(p, ips, first);
    var c := if IP_BATCH_CHUNK * n < |ips| then IP_BATCH_CHUNK * n else |ips|;
    if |ips| <= IP_BATCH_CHUNK {
      assert ips[..c] == ips && ms[..n] == ms;
    } else if n == 1 {
      assert ips[..c] == ips[..IP_BATCH_CHUNK];
      assert ms[..1] == [ms[0]];
    } else {
      var rest := ips[IP_BATCH_CHUNK..];
      PeerMessagesPrefix(p, rest, false, n - 1);
      assert ms[..n] == [ms[0]] + ms[1..][..n - 1];
      assert ips[..c][..IP_BATCH_CHUNK] == ips[..IP_BATCH_CHUNK];
      assert ips[..c][IP_BATCH_CHUNK..] == rest[..c - IP_BATCH_CHUNK];
    }
  }

  lemma {:induction false} PeerMessagesIgnoreOwn(p: PeerConfig, own: seq<IPNet>, ips: seq<IPNet>, first: bool)
    ensures PeerMessages(p.(allowedIPs := own), ips, first) == PeerMessages(p, ips, first)
    decreases |ips|
  {
    if |ips| > IP_BATCH_CHUNK {
      PeerMessagesIgnoreOwn(p, own, ips[IP_BATCH_CHUNK..], false);
    }
  }

  lemma {:induction false} MessagesUnfold(ps: seq<PeerConfig>, known: set<Key>)
    ensures Messages(ps, known) ==
            if ps == [] then []
            else PeerMessages(ps[0], ps[0].allowedIPs, ps[0].publicKey !in known)
                 + Messages(ps[1..], known + {ps[0].publicKey})
  {}

  /** The first n entries are the entries for the peers they amount to. */
  lemma {:induction false} MessagesPrefix(ps: seq<PeerConfig>, known: set<Key>, n: nat)
    requires n <= |Messages(ps, known)|
    ensures Messages(ps, known)[..n] == Messages(Sent(ps, n), known)
    decreases |ps|
  {
    if n > 0 {
      hide PeerMessages, EntryCount, Messages;
      MessagesUnfold(ps, known);
      var p, first := ps[0], ps[0].publicKey !in known;
      var own, rest := PeerMessages(p, p.allowedIPs, first), known + {p.publicKey};
      PeerMessagesCount(p, p.allowedIPs, first);
      CountReached(|p.allowedIPs|, n);
      if IP_BATCH_CHUNK * n < |p.allowedIPs| {
        CutPrefix(p, known, n);
        assert Messages(ps, known)[..n] == own[..n];
      } else {
        var left := Minus(n, |own|);
        MessagesPrefix(ps[1..], rest, left);
        assert Messages(ps, known)[..n] == own + Messages(ps[1..], rest)[..left];
        var sent := Sent(ps, n);
        assert sent[0] == p && sent[1..] == Sent(ps[1..], left);
        MessagesUnfold(sent, known);
      }
    } else {
      MessagesUnfold([], known);
    }
  }

  /** A peer is cut short exactly by fewer entries than it takes. */
  lemma {:induction false} CountReached(size: nat, n: nat)
    requires n > 0
    ensures IP_BATCH_CHUNK * n < size <==> n < EntryCount(size)
  {}

  lemma {:induction false} CutPrefix(p: PeerConfig, known: set<Key>, n: nat)
    requires 0 < n && IP_BATCH_CHUNK * n < |p.allowedIPs|
    ensures var first := p.publicKey !in known;
            n <= |PeerMessages(p, p.allowedIPs, first)|
            && PeerMessages(p, p.allowedIPs, first)[..n] == Messages([Cut(p, IP_BATCH_CHUNK * n)], known)
  {
    hide PeerMessages;
    var first, cut := p.publicKey !in known, Cut(p, IP_BATCH_CHUNK * n);
    PeerMessagesCount(p, p.allowedIPs, first);
    PeerMessagesPrefix(p, p.allowedIPs, first, n);
    PeerMessagesIgnoreOwn(p, cut.allowedIPs, cut.allowedIPs, first);
    assert [cut][1..] == [];
    MessagesUnfold([], known + {p.publicKey});
  }

  lemma {:induction false} SentIsClean(ps: seq<PeerConfig>, known: set<Key>, n: nat)
    requires CleanRepeats(ps, known)
    ensures CleanRepeats(Sent(ps, n), known)
    decreases |ps|
  {
    var sent := Sent(ps, n);
    if sent != [] {
      if IP_BATCH_CHUNK * n < |ps[0].allowedIPs| {
        assert sent[1..] == [];
      } else {
        var left := Minus(n, EntryCount(|ps[0].allowedIPs|));
        assert sent[1..] == Sent(ps[1..], left);
        SentIsClean(ps[1..], known + {ps[0].publicKey}, left);
      }
    }
  }

  /** The list is cut at some peer, and that peer's IPs at a multiple of 256 or
      not at all. */
  lemma {:induction false} SentIsCut(ps: seq<PeerConfig>, n: nat) returns (i: nat, c: nat)
    requires ps != [] && n > 0
    ensures i < |ps| && c <= |ps[i].allowedIPs|
    ensures c % 256 == 0 || c == |ps[i].allowedIPs|
    ensures Sent(ps, n) == ps[..i] + [Cut(ps[i], c)]
    decreases |ps|
  {
    hide EntryCount;
    i := 0;
    if IP_BATCH_CHUNK * n < |ps[0].allowedIPs| {
      c := IP_BATCH_CHUNK * n;
    } else {
      c := |ps[0].allowedIPs|;
      assert Cut(ps[0], c) == ps[0];
      var left := Minus(n, EntryCount(c));
      if ps[1..] != [] && left > 0 {
        i, c := SentIsCut(ps[1..], left);
        i := i + 1;
      }
    }
  }

  /** What fewer entries amount to is a cut of what more entries amount to: a
      longer run of batches only adds. */
  lemma {:induction false} SentGrows(ps: seq<PeerConfig>, m: nat, n: nat)
    requires m <= n
    ensures Sent(Sent(ps, n), m) == Sent(ps, m)
    decreases |ps|
  {
    var sent := Sent(ps, n);
    if m > 0 && ps != [] {
      var p, size := ps[0], |ps[0].allowedIPs|;
      CountReached(size, m);
      CountReached(size, n);
      hide EntryCount;
      if IP_BATCH_CHUNK * n < size {
        var cut := Cut(p, IP_BATCH_CHUNK * n);
        assert sent[1..] == [];
        if m < n {
          assert cut.allowedIPs[..IP_BATCH_CHUNK * m] == p.allowedIPs[..IP_BATCH_CHUNK * m];
        }
      } else {
        var left := Minus(n, EntryCount(size));
        assert sent[0] == p && sent[1..] == Sent(ps[1..], left);
        if IP_BATCH_CHUNK * m >= size {
          SentGrows(ps[1..], Minus(m, EntryCount(size)), left);
        }
      }
    }
  }

  /** All entries together amount to the whole list. */
  lemma {:induction false} AllSent(ps: seq<PeerConfig>, known: set<Key>, n: nat)
    requires n >= |Messages(ps, known)|
    ensures Sent(ps, n) == ps
    decreases |ps|
  {
    hide Messages, PeerMessages, EntryCount;
    if ps != [] {
      var p, rest := ps[0], known + {ps[0].publicKey};
      MessagesUnfold(ps, known);
      PeerMessagesCount(p, p.allowedIPs, p.publicKey !in known);
      var own := EntryCount(|p.allowedIPs|);
      assert n >= own + |Messages(ps[1..], rest)|;
      CountReached(|p.allowedIPs|, n);
      AllSent(ps[1..], rest, n - own);
      assert Sent(ps, n) == [p] + Sent(ps[1..], n - own);
      assert ps == [p] + ps[1..];
    }
  }

  /** The configuration that n batches of cfg amount to. */
  function Truncate(cfg: Config, n: nat): Config {
    if NeedsBatching(cfg) then cfg.(peers := Sent(cfg.peers, n)) else cfg
  }

  /** However many batches get through, if any, the device is as if the
      configuration truncated at that point had been applied in one piece. */
  lemma {:induction false} InterruptedIsTruncation(d: State, cfg: Config, n: nat)
    requires !NeedsBatching(cfg) || CleanRepeats(cfg.peers, {})
    requires 1 <= n <= |Batches(cfg)|
    ensures Run(d, Batches(cfg)[..n]) == Apply(d, Truncate(cfg, n))
  {
    if NeedsBatching(cfg) {
      hide Messages, CleanRepeats, Sent;
      var ms := Messages(cfg.peers, {});
      BatchesApply(d, cfg, ms, n);
      MessagesPrefix(cfg.peers, {}, n);
      SentIsClean(cfg.peers, {}, n);
      MessagesApply(ApplyHeader(d, cfg), Sent(cfg.peers, n), {});
      assert ApplyHeader(d, cfg) == ApplyHeader(d, Truncate(cfg, n));
    } else {
      assert Batches(cfg)[..n] == [cfg];
      OneRequest(d, cfg);
    }
  }

  // ----- consequences for the peer list

  lemma {:induction false} PeersComeFromList(d: State, ps: seq<PeerConfig>, k: Key)
    requires k in ApplyPeers(d, ps).peers
    ensures k in d.peers || exists i :: 0 <= i < |ps| && ps[i].publicKey == k
    decreases |ps|
  {
    if ps != [] {
      var e := ApplyPeer(d, ps[0]);
      PeersComeFromList(e, ps[1..], k);
      if k !in e.peers {
        var i :| 0 <= i < |ps[1..]| && ps[1..][i].publicKey == k;
        assert ps[i + 1].publicKey == k;
      } else if k !in d.peers {
        assert ps[0].publicKey == k;
      }
    }
  }

  /** With ReplacePeers no peer outside the configuration survives the first
      batch, whatever keys it repeats. */
  lemma {:induction false} ReplacedPeersAreGone(d: State, cfg: Config, n: nat, k: Key)
    requires cfg.replacePeers && 1 <= n <= |Batches(cfg)|
    requires k in Run(d, Batches(cfg)[..n]).peers
    ensures exists i :: 0 <= i < |cfg.peers| && cfg.peers[i].publicKey == k
  {
    hide Messages, Run, ApplyPeers;
    var h := ApplyHeader(d, cfg);
    if NeedsBatching(cfg) {
      var ms := Messages(cfg.peers, {});
      BatchesApply(d, cfg, ms, n);
      PeersComeFromList(h, ms[..n], k);
      var i :| 0 <= i < n && ms[..n][i].publicKey == k;
      var j := MessagesComeFrom(cfg.peers, {}, ms[i]);
    } else {
      assert Batches(cfg)[..n] == [cfg];
      OneRequest(d, cfg);
      PeersComeFromList(h, cfg.peers, k);
    }
  }

  lemma {:induction false} PeersStay(d: State, ps: seq<PeerConfig>, k: Key)
    requires k in d.peers && forall i :: 0 <= i < |ps| && ps[i].publicKey == k ==> !ps[i].remove
    ensures k in ApplyPeers(d, ps).peers
    decreases |ps|
  {
    if ps != [] {
      PeersStay(ApplyPeer(d, ps[0]), ps[1..], k);
    }
  }

  lemma {:induction false} NeverRemoved(ps: seq<PeerConfig>, k: Key, m: PeerConfig)
    requires forall i :: 0 <= i < |ps| && ps[i].publicKey == k ==> !ps[i].remove
    requires m in Messages(ps, {}) && m.publicKey == k
    ensures !m.remove
  {
    hide Messages;
    var i := MessagesComeFrom(ps, {}, m);
  }

  /** No batch discards a peer an earlier batch left on the device, unless the
      configuration asks for its removal. */
  lemma {:induction false} LaterBatchesKeepPeers(d: State, cfg: Config, m: nat, n: nat, k: Key)
    requires NeedsBatching(cfg) && 1 <= m <= n <= |Batches(cfg)|
    requires k in Run(d, Batches(cfg)[..m]).peers
    requires forall i :: 0 <= i < |cfg.peers| && cfg.peers[i].publicKey == k ==> !cfg.peers[i].remove
    ensures k in Run(d, Batches(cfg)[..n]).peers
  {
    hide Messages, Run, ApplyPeers, ApplyHeader, Batch;
    var ms, h := Messages(cfg.peers, {}), ApplyHeader(d, cfg);
    BatchesApply(d, cfg, ms, m);
    BatchesApply(d, cfg, ms, n);
    var later := ms[m..n];
    assert ms[..n] == ms[..m] + later;
    ApplyPeersAppend(h, ms[..m], later);
    forall i | 0 <= i < |later| && later[i].publicKey == k ensures !later[i].remove {
      assert later[i] == ms[m + i];
      NeverRemoved(cfg.peers, k, later[i]);
    }
    PeersStay(ApplyPeers(h, ms[..m]), later, k);
  }

  // ----- why the condition on repeated keys is there

  function PlainPeer(key: Key): PeerConfig {
    PeerConfig(key, false, false, None, None, None, false, [], false, false)
  }

  /** 33 entries for one key, the last of which sets a preshared key: applied
      whole it is set, applied in batches it is dropped. */
  lemma {:induction false} RepeatedKeyLosesSetting(d: State, key: Key, psk: Key)
    requires key !in d.peers && d.initial.presharedKey != psk
    ensures var repeat := seq(PEER_BATCH_CHUNK, i => PlainPeer(key));
            var cfg := NO_CONFIG.(peers := repeat + [PlainPeer(key).(presharedKey := Some(psk))]);
            var whole, batched := Apply(d, cfg), Run(d, Batches(cfg));
            && Valid(cfg)
            && key in whole.peers && whole.peers[key].presharedKey == psk
            && key in batched.peers && batched.peers[key].presharedKey != psk
  {
    var repeat := seq(PEER_BATCH_CHUNK, i => PlainPeer(key));
    var last := PlainPeer(key).(presharedKey := Some(psk));
    var cfg := NO_CONFIG.(peers := repeat + [last]);
    PlainIsValid(cfg.peers);
    hide Valid;
    PlainMessages(key, cfg.peers, {});
    MessagesNonEmpty(cfg);
    var ms := Messages(cfg.peers, {});
    var h := ApplyHeader(d, cfg);
    BatchesApply(d, cfg, ms, |ms|);
    assert AllBatches(cfg, ms)[..|ms|] == Batches(cfg) && ms[..|ms|] == ms;
    PlainPeersKeepKey(h, ms, key);
    ApplyPeersAppend(h, repeat, [last]);
    assert [last][1..] == [];
    PlainPeersKeepKey(h, repeat, key);
  }

  lemma {:induction false} PlainIsValid(ps: seq<PeerConfig>)
    requires forall i :: 0 <= i < |ps| ==> ps[i].(presharedKey := None) == PlainPeer(ps[i].publicKey)
    ensures Valid(NO_CONFIG.(peers := ps))
  {
    hide Share, InitSpec.Meaning, Numbers.ParseMagicHeader;
    SharedAreSet();
    forall f: Fault ensures !Violates(NO_CONFIG.(peers := ps), f) {}
  }

  predicate IsPlain(p: PeerConfig, key: Key) {
    p == PlainPeer(key)
  }

  /** The entries for a list of entries for one key without IPs: the settings
      of all but the first are dropped. */
  lemma {:induction false} PlainMessages(key: Key, ps: seq<PeerConfig>, known: set<Key>)
    requires ps != [] && (key in known || IsPlain(ps[0], key))
    requires forall i :: 0 <= i < |ps| ==> ps[i].(presharedKey := None) == PlainPeer(key)
    ensures Messages(ps, known) == seq(|ps|, i => PlainPeer(key))
    decreases |ps|
  {
    var p := ps[0];
    assert PeerMessages(p, p.allowedIPs, key !in known) == [PlainPeer(key)];
    if |ps| == 1 {
      assert ps[1..] == [];
    } else {
      PlainMessages(key, ps[1..], known + {key});
    }
  }

  lemma {:induction false} PlainPeersKeepKey(d: State, ps: seq<PeerConfig>, key: Key)
    requires ps != [] && forall i :: 0 <= i < |ps| ==> IsPlain(ps[i], key)
    requires key in d.peers ==> d.peers[key].presharedKey == d.initial.presharedKey
    ensures var e := ApplyPeers(d, ps); key in e.peers && e.peers[key].presharedKey == d.initial.presharedKey
    decreases |ps|
  {
    var e := ApplyPeer(d, ps[0]);
    if |ps| > 1 {
      PlainPeersKeepKey(e, ps[1..], key);
    } else {
      assert ps[1..] == [];
    }
  }
}

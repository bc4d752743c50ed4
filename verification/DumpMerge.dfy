/** parseDevice and mergeDevices (internal/wglinux/parse_linux.go): the messages
    of one dump become one device. */
module DumpMerge {
  import opened Types
  import opened Attributes
  import opened DeviceMessage

  // ----- one fragment taken into a list of peers

  /** Where the list last has a peer with this key; its length if nowhere. */
  function LastIndexOf(ps: seq<Peer>, key: Key): (i: nat)
    ensures i <= |ps|
  {
    if ps == [] then 0
    else
      var j := LastIndexOf(ps[1..], key);
      if j < |ps| - 1 then 1 + j else if ps[0].publicKey == key then 0 else |ps|
  }

  /** Where the list first has a peer with this key; its length if nowhere. */
  function FirstIndexOf(ps: seq<Peer>, key: Key): (i: nat)
    ensures i <= |ps|
  {
    if ps == [] || ps[0].publicKey == key then 0 else 1 + FirstIndexOf(ps[1..], key)
  }

  function Extend(p: Peer, ips: seq<IPNet>): Peer {
    p.(allowedIPs := p.allowedIPs + ips)
  }

  /** A known peer gains the fragment's allowed IPs, a new one is appended. */
  function Absorb(ps: seq<Peer>, f: Peer): seq<Peer> {
    var i := LastIndexOf(ps, f.publicKey);
    if i < |ps| then ps[i := Extend(ps[i], f.allowedIPs)] else ps + [f]
  }

  function AbsorbAll(ps: seq<Peer>, fs: seq<Peer>): seq<Peer>
    decreases |fs|
  {
    if fs == [] then ps else AbsorbAll(Absorb(ps, fs[0]), fs[1..])
  }

  predicate DistinctKeys(ps: seq<Peer>) {
    forall i, j :: 0 <= i < j < |ps| ==> ps[i].publicKey != ps[j].publicKey
  }

  lemma {:induction false} LastIndexProperties(ps: seq<Peer>, key: Key)
    ensures var i := LastIndexOf(ps, key);
            && (i < |ps| ==> ps[i].publicKey == key)
            && (forall j :: i < j < |ps| ==> ps[j].publicKey != key)
            && (i == |ps| ==> forall j :: 0 <= j < |ps| ==> ps[j].publicKey != key)
  {
    if ps != [] {
      LastIndexProperties(ps[1..], key);
      assert forall j :: 0 < j < |ps| ==> ps[j] == ps[1..][j - 1];
    }
  }

  // ----- the algorithm

  /** The map the loop keeps: exactly the keys of the list, each with the last
      position it stands at. */
  ghost predicate Indexes(known: map<Key, nat>, ps: seq<Peer>) {
    && (forall k :: k in known ==> known[k] < |ps| && ps[known[k]].publicKey == k)
    && (forall i :: 0 <= i < |ps| ==> ps[i].publicKey in known && i <= known[ps[i].publicKey])
  }

  lemma {:induction false} IndexesLast(known: map<Key, nat>, ps: seq<Peer>, key: Key)
    requires Indexes(known, ps)
    ensures LastIndexOf(ps, key) == if key in known then known[key] else |ps|
  {
    LastIndexProperties(ps, key);
  }

  /** The device being put together, with the index of its peers. */
  class Dump {
    var device: Device
    var knownPeers: map<Key, nat>

    ghost predicate Valid()
      reads this
    {
      Indexes(knownPeers, device.peers)
    }

    /** The first message's device, its peers indexed. */
    constructor (first: Device)
      ensures Valid() && device == first
    {
      device, knownPeers := first, map[];
      new;
      for i := 0 to |first.peers|
        invariant device == first && Indexes(knownPeers, first.peers[..i])
      {
        knownPeers := knownPeers[first.peers[i].publicKey := i];
      }
      assert first.peers[..|first.peers|] == first.peers;
    }

    /** mergeDevices. */
    method Merge(d: Device)
      requires Valid()
      modifies this
      ensures Valid() && device == old(device).(peers := AbsorbAll(old(device.peers), d.peers))
    {
      hide Absorb, Indexes;
      for i := 0 to |d.peers|
        invariant Valid()
        invariant device == old(device).(peers := device.peers)
        invariant AbsorbAll(device.peers, d.peers[i..]) == AbsorbAll(old(device.peers), d.peers)
      {
        assert d.peers[i..][1..] == d.peers[i + 1..];
        MergePeer(d.peers[i]);
      }
      assert d.peers[|d.peers|..] == [];
    }

    /** One round of its loop. */
    method MergePeer(f: Peer)
      requires Valid()
      modifies this
      ensures Valid() && device == old(device).(peers := Absorb(old(device.peers), f))
    {
      IndexesLast(knownPeers, device.peers, f.publicKey);
      if f.publicKey in knownPeers {
        var peerIndex := knownPeers[f.publicKey];
        var p := device.peers[peerIndex];
        device := device.(peers := device.peers[peerIndex := Extend(p, f.allowedIPs)]);
      } else {
        device := device.(peers := device.peers + [f]);
        knownPeers := knownPeers[f.publicKey := |device.peers| - 1];
      }
    }
  }

  /** The peers of all messages, one list after the other. */
  function Fragments(msgs: seq<Device>): seq<Peer> {
    if msgs == [] then [] else msgs[0].peers + Fragments(msgs[1..])
  }

  /** The device a dump amounts to: the first message's, with the peers of the
      later messages merged in. */
  function Merged(msgs: seq<Device>): Device {
    if msgs == [] then ZERO_DEVICE
    else msgs[0].(peers := AbsorbAll(msgs[0].peers, Fragments(msgs[1..])))
  }

  /** parseDeviceLoop on every message. */
  function Outcomes(e: Endian, msgs: seq<seq<Attr>>): (ds: seq<Option<Device>>)
    ensures |ds| == |msgs|
  {
    seq(|msgs|, i requires 0 <= i < |msgs| => DecodeDevice(e, ZERO_DEVICE, msgs[i]))
  }

  predicate AllDecoded(ds: seq<Option<Device>>) { forall i :: 0 <= i < |ds| ==> ds[i].Some? }

  function Decoded(ds: seq<Option<Device>>): (values: seq<Device>)
    requires AllDecoded(ds)
    ensures |values| == |ds|
  {
    seq(|ds|, i requires 0 <= i < |ds| => ds[i].value)
  }

  /** parseDevice: an error when a message cannot be decoded. */
  method ParseDevice(e: Endian, msgs: seq<seq<Attr>>) returns (r: Option<Device>)
    ensures var ds := Outcomes(e, msgs);
            r == if AllDecoded(ds) then Some(Merged(Decoded(ds))) else None
  {
    hide Merged, Decoded, AllDecoded, DecodeDevice;
    ghost var ds := Outcomes(e, msgs);
    DecodedMore(ds, |ds|);
    assert ds[..0] == [];
    var dump := new Dump(ZERO_DEVICE);
    for i := 0 to |msgs|
      invariant fresh(dump) && dump.Valid()
      invariant AllDecoded(ds[..i])
      invariant dump.device == Merged(Decoded(ds[..i]))
    {
      var d := ParseDeviceLoop(e, msgs[i]);
      assert ds[i] == d;
      DecodedMore(ds, i);
      if d.None? {
        return None;
      }
      OneMessageMore(Decoded(ds[..i]), d.value);
      assert |Decoded(ds[..i])| == i;
      if i == 0 {
        dump := new Dump(d.value);
        continue;
      }
      dump.Merge(d.value);
    }
    assert ds[..|msgs|] == ds;
    return Some(dump.device);
  }

  /** No message decoded, and one more, or not. */
  lemma {:induction false} DecodedMore(ds: seq<Option<Device>>, i: nat)
    ensures AllDecoded([]) && Merged(Decoded([])) == ZERO_DEVICE
    ensures i < |ds| && ds[i].None? ==> !AllDecoded(ds)
    ensures i < |ds| && ds[i].Some? && AllDecoded(ds[..i]) ==>
              AllDecoded(ds[..i + 1]) && Decoded(ds[..i + 1]) == Decoded(ds[..i]) + [ds[i].value]
  {
    if i < |ds| {
      assert ds[..i + 1] == ds[..i] + [ds[i]];
    }
  }

  lemma {:induction false} OneMessageMore(msgs: seq<Device>, m: Device)
    ensures Merged(msgs + [m]) ==
            if msgs == [] then m else Merged(msgs).(peers := AbsorbAll(Merged(msgs).peers, m.peers))
  {
    FragmentsAppend(if msgs == [] then [] else msgs[1..], m);
    if msgs == [] {
      assert Fragments([m][1..]) == [];
      assert AbsorbAll(m.peers, []) == m.peers;
    } else {
      assert (msgs + [m])[1..] == msgs[1..] + [m];
      AbsorbAppend(msgs[0].peers, Fragments(msgs[1..]), m.peers);
    }
  }

  lemma {:induction false} FragmentsAppend(msgs: seq<Device>, m: Device)
    ensures Fragments(msgs + [m]) == Fragments(msgs) + m.peers
  {
    if msgs == [] {
      assert [m][1..] == [];
    } else {
      assert (msgs + [m])[1..] == msgs[1..] + [m];
      FragmentsAppend(msgs[1..], m);
    }
  }

  lemma {:induction false} AbsorbAppend(ps: seq<Peer>, fs: seq<Peer>, gs: seq<Peer>)
    ensures AbsorbAll(ps, fs + gs) == AbsorbAll(AbsorbAll(ps, fs), gs)
    decreases |fs|
  {
    if fs == [] {
      assert fs + gs == gs;
    } else {
      assert (fs + gs)[1..] == fs[1..] + gs;
      AbsorbAppend(Absorb(ps, fs[0]), fs[1..], gs);
    }
  }

  // ----- what the merged list is

  /** All allowed IPs of the fragments with this key, in order. */
  function IPsOf(fs: seq<Peer>, key: Key): seq<IPNet> {
    if fs == [] then []
    else (if fs[0].publicKey == key then fs[0].allowedIPs else []) + IPsOf(fs[1..], key)
  }

  /** Every fragment's key is in the list. */
  ghost predicate Covers(fs: seq<Peer>, qs: seq<Peer>) {
    forall m :: 0 <= m < |fs| ==> exists i :: 0 <= i < |qs| && qs[i].publicKey == fs[m].publicKey
  }

  /** From position n on, every peer has the fields of the first fragment with
      its key and the allowed IPs of all of them, in order. */
  predicate Collects(n: nat, fs: seq<Peer>, qs: seq<Peer>) {
    forall i :: n <= i < |qs| ==>
      var first := FirstIndexOf(fs, qs[i].publicKey);
      first < |fs| && qs[i] == fs[first].(allowedIPs := IPsOf(fs, qs[i].publicKey))
  }

  /** From position n on, the peers stand in the order their keys first appear. */
  predicate Ordered(n: nat, fs: seq<Peer>, qs: seq<Peer>) {
    forall i, j :: n <= i < j < |qs| ==>
      FirstIndexOf(fs, qs[i].publicKey) < FirstIndexOf(fs, qs[j].publicKey)
  }

  /** qs groups the fragments fs by key: one peer per key, in the order in which
      the keys first appear, each with the fields of its first fragment and the
      allowed IPs of all of them. */
  ghost predicate Groups(fs: seq<Peer>, qs: seq<Peer>) {
    DistinctKeys(qs) && Covers(fs, qs) && Collects(0, fs, qs) && Ordered(0, fs, qs)
  }

  /** The peers ps have gained the allowed IPs the fragments hold for them. */
  predicate Gains(ps: seq<Peer>, fs: seq<Peer>, qs: seq<Peer>) {
    |ps| <= |qs| && forall i :: 0 <= i < |ps| ==> qs[i] == Extend(ps[i], IPsOf(fs, ps[i].publicKey))
  }

  /** Merging fs into peers ps: those gain their IPs, the new keys are grouped
      behind them. */
  ghost predicate Extends(ps: seq<Peer>, fs: seq<Peer>, qs: seq<Peer>) {
    && DistinctKeys(qs) && Covers(fs, qs) && Gains(ps, fs, qs)
    && Collects(|ps|, fs, qs) && Ordered(|ps|, fs, qs)
  }

  lemma {:induction false} AbsorbKeepsDistinct(ps: seq<Peer>, f: Peer)
    requires DistinctKeys(ps)
    ensures DistinctKeys(Absorb(ps, f))
  {
    LastIndexProperties(ps, f.publicKey);
  }

  /** The fragment's peer, and what one fragment more in front changes. */
  lemma {:induction false} OneMoreFragment(ps: seq<Peer>, f: Peer, rest: seq<Peer>, qs: seq<Peer>) returns (at: nat)
    requires DistinctKeys(qs) && Gains(Absorb(ps, f), rest, qs)
    ensures at == LastIndexOf(ps, f.publicKey) < |qs| && qs[at].publicKey == f.publicKey
    ensures forall i :: 0 <= i < |qs| && i != at ==> qs[i].publicKey != f.publicKey
  {
    at := LastIndexOf(ps, f.publicKey);
    LastIndexProperties(ps, f.publicKey);
    assert qs[at] == Extend(Absorb(ps, f)[at], IPsOf(rest, Absorb(ps, f)[at].publicKey));
  }

  lemma {:induction false} MoreFragments(f: Peer, rest: seq<Peer>, key: Key)
    ensures FirstIndexOf([f] + rest, key) == if f.publicKey == key then 0 else 1 + FirstIndexOf(rest, key)
    ensures IPsOf([f] + rest, key) == (if f.publicKey == key then f.allowedIPs else []) + IPsOf(rest, key)
  {
    assert ([f] + rest)[1..] == rest;
  }

  lemma {:induction false} GainsStep(ps: seq<Peer>, f: Peer, rest: seq<Peer>, qs: seq<Peer>)
    requires DistinctKeys(qs) && Gains(Absorb(ps, f), rest, qs)
    ensures Gains(ps, [f] + rest, qs)
  {
    hide IPsOf;
    var at := OneMoreFragment(ps, f, rest, qs);
    forall i | 0 <= i < |ps| ensures qs[i] == Extend(ps[i], IPsOf([f] + rest, ps[i].publicKey)) {
      MoreFragments(f, rest, ps[i].publicKey);
      var ips := IPsOf(rest, ps[i].publicKey);
      if i == at {
        assert ps[i].allowedIPs + f.allowedIPs + ips == ps[i].allowedIPs + (f.allowedIPs + ips);
      } else {
        assert Absorb(ps, f)[i] == ps[i];
        assert [] + ips == ips;
      }
    }
  }

  lemma {:induction false} CollectsStep(ps: seq<Peer>, f: Peer, rest: seq<Peer>, qs: seq<Peer>)
    requires DistinctKeys(qs) && Gains(Absorb(ps, f), rest, qs)
    requires Collects(|Absorb(ps, f)|, rest, qs)
    ensures Collects(|ps|, [f] + rest, qs)
  {
    hide IPsOf, FirstIndexOf;
    var at := OneMoreFragment(ps, f, rest, qs);
    forall i | |ps| <= i < |qs|
      ensures var first := FirstIndexOf([f] + rest, qs[i].publicKey);
              first < |[f] + rest| && qs[i] == ([f] + rest)[first].(allowedIPs := IPsOf([f] + rest, qs[i].publicKey))
    {
      MoreFragments(f, rest, qs[i].publicKey);
      if i == at {
        assert Absorb(ps, f)[i] == f;
      } else {
        assert [] + IPsOf(rest, qs[i].publicKey) == IPsOf(rest, qs[i].publicKey);
      }
    }
  }

  lemma {:induction false} OrderedStep(ps: seq<Peer>, f: Peer, rest: seq<Peer>, qs: seq<Peer>)
    requires DistinctKeys(qs) && Gains(Absorb(ps, f), rest, qs)
    requires Ordered(|Absorb(ps, f)|, rest, qs)
    ensures Ordered(|ps|, [f] + rest, qs)
  {
    hide FirstIndexOf;
    var at := OneMoreFragment(ps, f, rest, qs);
    forall i, j | |ps| <= i < j < |qs|
      ensures FirstIndexOf([f] + rest, qs[i].publicKey) < FirstIndexOf([f] + rest, qs[j].publicKey)
    {
      MoreFragments(f, rest, qs[i].publicKey);
      MoreFragments(f, rest, qs[j].publicKey);
    }
  }

  lemma {:induction false} ExtendsStep(ps: seq<Peer>, f: Peer, rest: seq<Peer>, qs: seq<Peer>)
    requires Extends(Absorb(ps, f), rest, qs)
    ensures Extends(ps, [f] + rest, qs)
  {
    hide Gains, Collects, Ordered, Absorb;
    GainsStep(ps, f, rest, qs);
    CollectsStep(ps, f, rest, qs);
    OrderedStep(ps, f, rest, qs);
    var at := OneMoreFragment(ps, f, rest, qs);
    forall m | 0 <= m < |[f] + rest| ensures exists i :: 0 <= i < |qs| && qs[i].publicKey == ([f] + rest)[m].publicKey {
      if m > 0 {
        assert ([f] + rest)[m] == rest[m - 1];
      }
    }
  }

  lemma {:induction false} NothingExtends(ps: seq<Peer>)
    requires DistinctKeys(ps)
    ensures Extends(ps, [], ps)
  {
    assert forall i :: 0 <= i < |ps| ==> ps[i].allowedIPs + [] == ps[i].allowedIPs;
  }

  lemma {:induction false} AbsorbAllExtends(ps: seq<Peer>, fs: seq<Peer>)
    requires DistinctKeys(ps)
    ensures Extends(ps, fs, AbsorbAll(ps, fs))
    decreases |fs|
  {
    hide Absorb, AbsorbAll, Extends, DistinctKeys;
    if fs == [] {
      AbsorbUnfolds(ps, NewPeer(ZERO_KEY), []);
      NothingExtends(ps);
    } else {
      var f, rest := fs[0], fs[1..];
      AbsorbKeepsDistinct(ps, f);
      AbsorbAllExtends(Absorb(ps, f), rest);
      AbsorbUnfolds(ps, f, rest);
      ExtendsStep(ps, f, rest, AbsorbAll(ps, [f] + rest));
      assert fs == [f] + rest;
    }
  }

  lemma {:induction false} AbsorbUnfolds(ps: seq<Peer>, f: Peer, rest: seq<Peer>)
    ensures AbsorbAll(ps, []) == ps
    ensures AbsorbAll(ps, [f] + rest) == AbsorbAll(Absorb(ps, f), rest)
  {
    assert ([f] + rest)[1..] == rest;
  }

  /** Absorbing fragments into nothing groups them by key. */
  lemma {:induction false} AbsorbAllGroups(fs: seq<Peer>)
    ensures Groups(fs, AbsorbAll([], fs))
  {
    AbsorbAllExtends([], fs);
  }

  lemma {:induction false} DistinctAbsorbed(ps: seq<Peer>, fs: seq<Peer>)
    requires DistinctKeys(ps + fs)
    ensures AbsorbAll(ps, fs) == ps + fs
    decreases |fs|
  {
    if fs != [] {
      LastIndexProperties(ps, fs[0].publicKey);
      assert (ps + fs)[|ps|] == fs[0];
      assert forall i :: 0 <= i < |ps| ==> (ps + fs)[i] == ps[i];
      assert Absorb(ps, fs[0]) == ps + [fs[0]];
      assert ps + [fs[0]] + fs[1..] == ps + fs;
      DistinctAbsorbed(ps + [fs[0]], fs[1..]);
    } else {
      assert ps + fs == ps;
    }
  }

  lemma {:induction false} AbsorbAllKeepsKeys(ps: seq<Peer>, fs: seq<Peer>)
    ensures |AbsorbAll(ps, fs)| >= |ps|
    ensures forall i :: 0 <= i < |ps| ==> AbsorbAll(ps, fs)[i].publicKey == ps[i].publicKey
    decreases |fs|
  {
    if fs != [] {
      AbsorbAllKeepsKeys(Absorb(ps, fs[0]), fs[1..]);
    }
  }

  /** A key that stands twice in the first message does so in the result. */
  lemma {:induction false} RepeatStays(ps: seq<Peer>, fs: seq<Peer>)
    requires !DistinctKeys(ps)
    ensures !DistinctKeys(AbsorbAll(ps, fs))
  {
    hide AbsorbAll;
    var i, j :| 0 <= i < j < |ps| && ps[i].publicKey == ps[j].publicKey;
    AbsorbAllKeepsKeys(ps, fs);
    var qs := AbsorbAll(ps, fs);
    assert qs[i].publicKey == qs[j].publicKey;
  }

  /** Without repetitions the first message may as well be absorbed itself. */
  lemma {:induction false} FirstIsAbsorbed(ps: seq<Peer>, fs: seq<Peer>)
    requires DistinctKeys(ps)
    ensures AbsorbAll(ps, fs) == AbsorbAll([], ps + fs)
  {
    hide AbsorbAll;
    assert [] + ps == ps;
    DistinctAbsorbed([], ps);
    AbsorbAppend([], ps, fs);
  }

  /** A dump is merged into one peer per key exactly when no key stands twice in
      its first message; repetitions in and across later messages are merged. */
  lemma {:induction false} MergedGroupsIff(msgs: seq<Device>)
    ensures Groups(Fragments(msgs), Merged(msgs).peers) <==> msgs == [] || DistinctKeys(msgs[0].peers)
  {
    hide AbsorbAll, DistinctKeys;
    if msgs != [] {
      var ps, fs := msgs[0].peers, Fragments(msgs[1..]);
      if DistinctKeys(ps) {
        FirstIsAbsorbed(ps, fs);
        AbsorbAllGroups(ps + fs);
      } else {
        RepeatStays(ps, fs);
      }
    } else {
      NothingIsGrouped();
    }
  }

  lemma {:induction false} NothingIsGrouped()
    ensures Groups([], [])
  {}

  // ----- dumps cut into messages

  /** The fragments are one peer cut up: the first with its fields, all with its
      key, the allowed IPs dealt out in order. */
  predicate IsCut(p: Peer, piece: seq<Peer>) {
    && piece != []
    && (forall m :: 0 <= m < |piece| ==> piece[m].publicKey == p.publicKey)
    && piece[0].(allowedIPs := []) == p.(allowedIPs := [])
    && IPsOf(piece, p.publicKey) == p.allowedIPs
  }

  function Flatten(pieces: seq<seq<Peer>>): seq<Peer> {
    if pieces == [] then [] else pieces[0] + Flatten(pieces[1..])
  }

  lemma {:induction false} AbsorbOwn(ps: seq<Peer>, p: Peer, f: Peer)
    requires f.publicKey == p.publicKey
    ensures Absorb(ps + [p], f) == ps + [Extend(p, f.allowedIPs)]
  {
    LastIndexProperties(ps + [p], p.publicKey);
    assert (ps + [p])[|ps|] == p;
  }

  lemma {:induction false} AbsorbPiece(ps: seq<Peer>, p: Peer, piece: seq<Peer>)
    requires forall m :: 0 <= m < |piece| ==> piece[m].publicKey == p.publicKey
    ensures AbsorbAll(ps + [p], piece) == ps + [Extend(p, IPsOf(piece, p.publicKey))]
    decreases |piece|
  {
    hide Absorb;
    if piece == [] {
      assert p.allowedIPs + [] == p.allowedIPs;
    } else {
      var f, rest := piece[0], IPsOf(piece[1..], p.publicKey);
      AbsorbOwn(ps, p, f);
      AbsorbPiece(ps, Extend(p, f.allowedIPs), piece[1..]);
      assert p.allowedIPs + f.allowedIPs + rest == p.allowedIPs + (f.allowedIPs + rest);
    }
  }

  lemma {:induction false} AbsorbCut(ps: seq<Peer>, p: Peer, piece: seq<Peer>)
    requires IsCut(p, piece) && forall i :: 0 <= i < |ps| ==> ps[i].publicKey != p.publicKey
    ensures AbsorbAll(ps, piece) == ps + [p]
  {
    hide AbsorbAll;
    LastIndexProperties(ps, p.publicKey);
    AbsorbUnfolds(ps, piece[0], piece[1..]);
    assert piece == [piece[0]] + piece[1..];
    AbsorbPiece(ps, piece[0], piece[1..]);
    assert Extend(piece[0], IPsOf(piece[1..], p.publicKey)) == p;
  }

  lemma {:induction false} AbsorbPieces(ps: seq<Peer>, orig: seq<Peer>, pieces: seq<seq<Peer>>)
    requires |pieces| == |orig| && forall i :: 0 <= i < |orig| ==> IsCut(orig[i], pieces[i])
    requires DistinctKeys(ps + orig)
    ensures AbsorbAll(ps, Flatten(pieces)) == ps + orig
    decreases |orig|
  {
    hide IsCut, AbsorbAll;
    if orig == [] {
      AbsorbUnfolds(ps, NewPeer(ZERO_KEY), []);
      assert ps + orig == ps;
    } else {
      var p := orig[0];
      assert (ps + orig)[|ps|] == p;
      assert forall i :: 0 <= i < |ps| ==> (ps + orig)[i] == ps[i];
      AbsorbAppend(ps, pieces[0], Flatten(pieces[1..]));
      AbsorbCut(ps, p, pieces[0]);
      assert ps + [p] + orig[1..] == ps + orig;
      AbsorbPieces(ps + [p], orig[1..], pieces[1..]);
    }
  }

  /** However a peer list with distinct keys is cut up and dealt out to messages:
      the parsed device has the original peers in the original order, each with
      its allowed IPs in order, exactly when the first message repeats no key. */
  lemma {:induction false} CutDumpIsRestored(orig: seq<Peer>, pieces: seq<seq<Peer>>, msgs: seq<Device>)
    requires DistinctKeys(orig) && |pieces| == |orig|
    requires forall i :: 0 <= i < |orig| ==> IsCut(orig[i], pieces[i])
    requires Fragments(msgs) == Flatten(pieces)
    ensures Merged(msgs).peers == orig <==> msgs == [] || DistinctKeys(msgs[0].peers)
  {
    hide Absorb, AbsorbAll, IsCut, DistinctKeys;
    assert [] + orig == orig;
    AbsorbPieces([], orig, pieces);
    if msgs == [] {
      AbsorbUnfolds([], NewPeer(ZERO_KEY), []);
    } else {
      var ps, fs := msgs[0].peers, Fragments(msgs[1..]);
      if DistinctKeys(ps) {
        FirstIsAbsorbed(ps, fs);
      } else {
        RepeatStays(ps, fs);
      }
    }
  }

  /** Two fragments of one peer in the first message stay two peers. */
  lemma {:induction false} FirstMessageIsNotMerged(key: Key, a: IPNet, b: IPNet)
    ensures var p := NewPeer(key);
            var orig, piece := p.(allowedIPs := [a, b]), [p.(allowedIPs := [a]), p.(allowedIPs := [b])];
            IsCut(orig, piece) && Merged([ZERO_DEVICE.(peers := piece)]).peers == piece != [orig]
  {
    var p := NewPeer(key);
    var orig, piece := p.(allowedIPs := [a, b]), [p.(allowedIPs := [a]), p.(allowedIPs := [b])];
    assert piece[1..] == [piece[1]] && piece[1..][1..] == [];
    assert IPsOf(piece[1..], key) == [b];
    assert [a] + [b] == [a, b];
    AbsorbUnfolds(piece, p, []);
    assert Fragments([ZERO_DEVICE.(peers := piece)][1..]) == [];
  }
}

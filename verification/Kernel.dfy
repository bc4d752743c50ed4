/** A WireGuard device as a state machine over configuration requests, with the
    meaning the documentation of Config and PeerConfig gives them
    (wgtypes/types.go). Peers are found by public key; one table maps every
    allowed IP to the single peer that owns it. */
module Kernel {
  import opened Types
  import opened Net

  /** A peer's settings; the allowed IPs are in the device's table. */
  datatype PeerState = PeerState(
    presharedKey: Key,
    endpoint: Option<UDPAddr>,
    keepalive: int,
    advancedSecurity: bool)

  /** `initial` is what a newly created peer starts with. */
  datatype State = State(
    fields: Fields,
    peers: map<Key, PeerState>,
    owner: map<Route, Key>,
    initial: PeerState)

  function UpdateState(s: PeerState, p: PeerConfig): PeerState {
    PeerState(
      p.presharedKey.GetOr(s.presharedKey),
      if p.endpoint.Some? then Some(NormalAddr(p.endpoint.value)) else s.endpoint,
      if p.keepalive.Some? then WholeSeconds(p.keepalive.value) else s.keepalive,
      if p.advancedSecurity then true else if p.disableAdvancedSecurity then false else s.advancedSecurity)
  }

  function Routes(ips: seq<IPNet>): set<Route> {
    set i | 0 <= i < |ips| :: RouteOf(ips[i])
  }

  /** The table without the entries of one peer. */
  function Disown(owner: map<Route, Key>, key: Key): map<Route, Key> {
    map r | r in owner && owner[r] != key :: owner[r]
  }

  /** The table with the routes given to key, taken from whoever had them. */
  function Assign(owner: map<Route, Key>, routes: set<Route>, key: Key): map<Route, Key> {
    owner + map r | r in routes :: key
  }

  /** One peer entry of a request. */
  function ApplyPeer(d: State, p: PeerConfig): State {
    var known := p.publicKey in d.peers;
    if p.remove then
      if known then d.(peers := d.peers - {p.publicKey}, owner := Disown(d.owner, p.publicKey)) else d
    else if !known && p.updateOnly then d
    else
      var before := if known then d.peers[p.publicKey] else d.initial;
      var owner := if p.replaceAllowedIPs then Disown(d.owner, p.publicKey) else d.owner;
      d.(peers := d.peers[p.publicKey := UpdateState(before, p)],
         owner := Assign(owner, Routes(p.allowedIPs), p.publicKey))
  }

  function ApplyPeers(d: State, ps: seq<PeerConfig>): State
    decreases |ps|
  {
    if ps == [] then d else ApplyPeers(ApplyPeer(d, ps[0]), ps[1..])
  }

  /** The device-wide part of a request. */
  function ApplyHeader(d: State, cfg: Config): State {
    var e := d.(fields := ApplyFields(d.fields, cfg));
    if cfg.replacePeers then e.(peers := map[], owner := map[]) else e
  }

  /** One request. */
  function Apply(d: State, cfg: Config): State {
    ApplyPeers(ApplyHeader(d, cfg), cfg.peers)
  }

  /** A sequence of requests. */
  function Run(d: State, cfgs: seq<Config>): State
    decreases |cfgs|
  {
    if cfgs == [] then d else Run(Apply(d, cfgs[0]), cfgs[1..])
  }

  lemma {:induction false} ApplyPeersAppend(d: State, ps: seq<PeerConfig>, qs: seq<PeerConfig>)
    ensures ApplyPeers(d, ps + qs) == ApplyPeers(ApplyPeers(d, ps), qs)
    decreases |ps|
  {
    if ps == [] {
      assert ps + qs == qs;
    } else {
      assert (ps + qs)[1..] == ps[1..] + qs;
      ApplyPeersAppend(ApplyPeer(d, ps[0]), ps[1..], qs);
    }
  }

  lemma {:induction false} RunAppend(d: State, xs: seq<Config>, ys: seq<Config>)
    ensures Run(d, xs + ys) == Run(Run(d, xs), ys)
    decreases |xs|
  {
    if xs == [] {
      assert xs + ys == ys;
    } else {
      assert (xs + ys)[1..] == xs[1..] + ys;
      RunAppend(Apply(d, xs[0]), xs[1..], ys);
    }
  }

  lemma {:induction false} PeersKeepFields(d: State, ps: seq<PeerConfig>)
    ensures ApplyPeers(d, ps).fields == d.fields && ApplyPeers(d, ps).initial == d.initial
    decreases |ps|
  {
    if ps != [] {
      PeersKeepFields(ApplyPeer(d, ps[0]), ps[1..]);
    }
  }

  /** Every allowed IP belongs to a peer of the device. */
  ghost predicate Consistent(d: State) {
    forall r :: r in d.owner ==> d.owner[r] in d.peers
  }

  function OwnerOf(d: State, r: Route): Option<Key> { if r in d.owner then Some(d.owner[r]) else None }

  function SettingsOf(d: State, key: Key): Option<PeerState> { if key in d.peers then Some(d.peers[key]) else None }

  predicate Lists(p: PeerConfig, r: Route) { exists i :: 0 <= i < |p.allowedIPs| && RouteOf(p.allowedIPs[i]) == r }

  /** The entry asks nothing of a peer it does not find. */
  predicate Ignored(d: State, p: PeerConfig) { p.publicKey !in d.peers && (p.remove || p.updateOnly) }

  /** What the documentation says of the table: listed IPs become the peer's own,
      whoever had them; replacing takes the others from it, and so does removing. */
  lemma {:induction false} EntryOwns(d: State, p: PeerConfig, r: Route)
    requires Consistent(d)
    ensures OwnerOf(ApplyPeer(d, p), r) ==
            if Ignored(d, p) then OwnerOf(d, r)
            else if !p.remove && Lists(p, r) then Some(p.publicKey)
            else if OwnerOf(d, r) == Some(p.publicKey) && (p.remove || p.replaceAllowedIPs) then None
            else OwnerOf(d, r)
  {
    hide RouteOf, UpdateState;
    assert Lists(p, r) <==> r in Routes(p.allowedIPs);
  }

  /** And of the settings: what is given is set, what is not stays, and no other
      peer is touched. */
  lemma {:induction false} EntrySets(d: State, p: PeerConfig, key: Key)
    ensures ApplyPeer(d, p).fields == d.fields
    ensures SettingsOf(ApplyPeer(d, p), key) ==
            if key != p.publicKey || Ignored(d, p) then SettingsOf(d, key)
            else if p.remove then None
            else
              var old_ := SettingsOf(d, key).GetOr(d.initial);
              Some(PeerState(
                p.presharedKey.GetOr(old_.presharedKey),
                if p.endpoint.Some? then Some(NormalAddr(p.endpoint.value)) else old_.endpoint,
                if p.keepalive.Some? then WholeSeconds(p.keepalive.value) else old_.keepalive,
                p.advancedSecurity || (old_.advancedSecurity && !p.disableAdvancedSecurity)))
  {
    hide RouteOf, Disown, Assign, NormalAddr;
  }

  lemma {:induction false} PeersKeepConsistent(d: State, ps: seq<PeerConfig>)
    requires Consistent(d)
    ensures Consistent(ApplyPeers(d, ps))
    decreases |ps|
  {
    if ps != [] {
      assert Consistent(ApplyPeer(d, ps[0]));
      PeersKeepConsistent(ApplyPeer(d, ps[0]), ps[1..]);
    }
  }

  /** Requests keep the table consistent: a removed peer leaves no entry behind. */
  lemma {:induction false} RunKeepsConsistent(d: State, cfgs: seq<Config>)
    requires Consistent(d)
    ensures Consistent(Run(d, cfgs))
    decreases |cfgs|
  {
    if cfgs != [] {
      PeersKeepConsistent(ApplyHeader(d, cfgs[0]), cfgs[0].peers);
      RunKeepsConsistent(Apply(d, cfgs[0]), cfgs[1..]);
    }
  }
}

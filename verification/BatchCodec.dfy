/** What is sent for a valid configuration: every batch is valid itself, so
    every message can be encoded and none of its values is narrowed. */
module BatchCodec {
  import opened Types
  import opened Attributes
  import opened Batching
  import opened Validate
  import opened InitSpec
  import opened Numbers
  import opened DeviceCodec
  import opened DeviceMessage
  import opened Net
  import opened PeerCodec

  /** A fault of a batch is a fault of the configuration. */
  lemma {:induction false} BatchFault(cfg: Config, j: nat, m: PeerConfig, i: nat, f: Fault) returns (g: Fault)
    requires i < |cfg.peers| && EntryOf(m, cfg.peers[i]) && Violates(Batch(cfg, j, m), f)
    ensures Violates(cfg, g)
  {
    hide ParseMagicHeader, Meaning;
    g := match f
         case BadKeepalive(_) => BadKeepalive(i)
         case BadEndpointPort(_) => BadEndpointPort(i)
         case BadSecurity(_) => BadSecurity(i)
         case _ => f;
  }

  /** The batches of a valid configuration are valid. */
  lemma {:induction false} BatchesAreValid(cfg: Config, b: Config)
    requires Valid(cfg) && b in Batches(cfg)
    ensures Valid(b)
  {
    if NeedsBatching(cfg) {
      var ms := Messages(cfg.peers, {});
      var j :| 0 <= j < |ms| && b == Batch(cfg, j, ms[j]);
      var i := MessagesComeFrom(cfg.peers, {}, ms[j]);
      hide Violates, EntryOf;
      forall f: Fault ensures !Violates(b, f) {
        if Violates(b, f) {
          var g := BatchFault(cfg, j, ms[j], i, f);
        }
      }
    }
  }

  /** Good addresses stay good in every batch. */
  lemma {:induction false} BatchesAreGood(cfg: Config, b: Config)
    requires AllGood(cfg.peers) && b in Batches(cfg)
    ensures AllGood(b.peers)
  {
    hide Messages, NeedsBatching, Canonical, IsValidIP;
    if NeedsBatching(cfg) {
      var ms := Messages(cfg.peers, {});
      var j :| 0 <= j < |ms| && b == Batch(cfg, j, ms[j]);
      var i := MessagesComeFrom(cfg.peers, {}, ms[j]);
      var m, p := ms[j], cfg.peers[i];
      assert GoodAddresses(p);
      forall k | 0 <= k < |m.allowedIPs| ensures Canonical(m.allowedIPs[k]) {
        var l :| 0 <= l < |p.allowedIPs| && p.allowedIPs[l] == m.allowedIPs[k];
      }
    }
  }

  /** Every batch of a valid configuration with good addresses can be encoded, and
      the kernel is asked for exactly the batch. */
  lemma {:induction false} BatchIsAsked(e: Endian, name: string, cfg: Config, b: Config)
    requires Valid(cfg) && AllGood(cfg.peers) && b in Batches(cfg)
    ensures ConfigAttrs(e, name, b).Some?
    ensures AskedConfig(e, ConfigAttrs(e, name, b).value) == b.(peers := NormalPeers(b.peers))
  {
    hide Valid, Batches, AllGood, ConfigAttrs, AskedConfig, NormalPeers;
    BatchesAreValid(cfg, b);
    BatchesAreGood(cfg, b);
    ConfigIsAsked(e, name, b);
  }

  /** Decoding the message gives the batch's name, values and peers: none is
      narrowed on the way. */
  lemma {:induction false} BatchRoundTrip(e: Endian, name: string, cfg: Config, b: Config)
    requires Valid(cfg) && AllGood(cfg.peers) && IsSendable(Some(name)) && b in Batches(cfg)
    ensures ConfigAttrs(e, name, b).Some?
    ensures DecodeDevice(e, ZERO_DEVICE, ConfigAttrs(e, name, b).value) == Some(Described(name, b))
  {
    hide Valid, Batches, AllGood, ConfigAttrs, DecodeDevice, Described;
    BatchesAreValid(cfg, b);
    BatchesAreGood(cfg, b);
    ConfigRoundTrip(e, name, b);
  }
}

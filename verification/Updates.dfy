/** Client.ConfigureDevice's checks (client.go): a partial update of
    Jc/Jmin/Jmax or H1-H4 is validated together with the device's current
    values. */
module Updates {
  import opened Types
  import opened Numbers
  import opened Validate
  import opened Kernel
  import opened Batching
  import opened Delivery

  // ----- partialAWG and mergeAWG

  function CountSet(set_: seq<bool>): nat {
    if set_ == [] then 0 else (if set_[0] then 1 else 0) + CountSet(set_[1..])
  }

  /** Some, but not all, of a group are set. */
  predicate Partial(group: seq<bool>) {
    0 < CountSet(group) < |group|
  }

  predicate PartialAWG(cfg: Config) {
    || Partial([cfg.jc.Some?, cfg.jmin.Some?, cfg.jmax.Some?])
    || Partial([cfg.h1.Some?, cfg.h2.Some?, cfg.h3.Some?, cfg.h4.Some?])
  }

  function IntOr(v: Option<int>, cur: int): Option<int> {
    if v.Some? then v else Some(cur)
  }

  function StrOr(v: Option<string>, cur: string): Option<string> {
    if v.Some? || cur == "" then v else Some(cur)
  }

  /** The grouped values the device would have after cfg. */
  function MergeAWG(f: Fields, cfg: Config): Config {
    NO_CONFIG.(jc := IntOr(cfg.jc, f.jc), jmin := IntOr(cfg.jmin, f.jmin), jmax := IntOr(cfg.jmax, f.jmax),
               h1 := StrOr(cfg.h1, f.h1), h2 := StrOr(cfg.h2, f.h2),
               h3 := StrOr(cfg.h3, f.h3), h4 := StrOr(cfg.h4, f.h4))
  }

  /** Whether ConfigureDevice passes cfg on. `read` is what reading the device
      gave: None when it failed. */
  ghost predicate Accepts(read: Option<Device>, cfg: Config) {
    && Valid(cfg)
    && (PartialAWG(cfg) && read.Some? && read.value.isAmnezia ==> Valid(MergeAWG(read.value.fields, cfg)))
  }

  method CheckUpdate(read: Option<Device>, cfg: Config) returns (err: Option<Fault>)
    ensures err.None? <==> Accepts(read, cfg)
  {
    err := Validate.Validate(cfg);
    if err.Some? {
      return;
    }
    if PartialAWG(cfg) {
      if read.Some? && read.value.isAmnezia {
        err := Validate.Validate(MergeAWG(read.value.fields, cfg));
      }
    }
  }

  // ----- what the kernel checks together

  /** A header text on a device; the empty text means none. */
  function HeaderOf(h: string): Option<string> {
    if h == "" then None else Some(h)
  }

  function DeviceHeaders(f: Fields): seq<Option<string>> {
    [HeaderOf(f.h1), HeaderOf(f.h2), HeaderOf(f.h3), HeaderOf(f.h4)]
  }

  /** Every set header parses and no message type belongs to two of them. */
  ghost predicate HeadersValid(hs: seq<Option<string>>) {
    && (forall i :: 0 <= i < |hs| ==> !UnparsedHeader(hs[i]))
    && (forall i, j :: 0 <= i < j < |hs| ==> !Share(hs[i], hs[j]))
  }

  predicate JunkValid(jc: int, jmin: int, jmax: int) {
    && 0 <= jc <= MAX_JUNK_COUNT
    && 0 <= jmin <= MAX_JUNK_SIZE
    && 0 <= jmax <= MAX_JUNK_SIZE
    && (jmax == 0 || jmin <= jmax)
  }

  /** The values a device checks together are in order. */
  ghost predicate AwgValid(f: Fields) {
    JunkValid(f.jc, f.jmin, f.jmax) && HeadersValid(DeviceHeaders(f))
  }

  // ----- Valid, group by group

  ghost predicate JunkPart(cfg: Config) {
    && !OutOfRange(cfg.jc, MAX_JUNK_COUNT)
    && !OutOfRange(cfg.jmin, MAX_JUNK_SIZE)
    && !OutOfRange(cfg.jmax, MAX_JUNK_SIZE)
    && (cfg.jmin.Some? && cfg.jmax.Some? && cfg.jmax.value != 0 ==> cfg.jmin.value <= cfg.jmax.value)
  }

  /** The configuration without the values checked together. */
  function Ungrouped(cfg: Config): Config {
    cfg.(jc := None, jmin := None, jmax := None, h1 := None, h2 := None, h3 := None, h4 := None)
  }

  predicate IsGrouped(f: Fault) {
    f.BadJunk? || f.JminAboveJmax? || f.BadHeader? || f.Overlap?
  }

  lemma {:induction false} UngroupedFaults(cfg: Config, f: Fault)
    ensures Violates(Ungrouped(cfg), f) <==> !IsGrouped(f) && Violates(cfg, f)
  {
    hide ParseMagicHeader;
    if f.BadJunk? && f.index < 3 {
      assert Junk(Ungrouped(cfg))[f.index].0 == None;
    }
    if f.BadHeader? && f.index < 4 {
      assert Headers(Ungrouped(cfg))[f.index] == None;
    }
    if f.Overlap? && f.earlier < f.index < 4 {
      assert Headers(Ungrouped(cfg))[f.index] == None;
    }
  }

  /** A configuration is valid when its three parts are. */
  lemma {:induction false} ValidByGroup(cfg: Config)
    ensures Valid(cfg) <==> JunkPart(cfg) && HeadersValid(Headers(cfg)) && Valid(Ungrouped(cfg))
  {
    hide ParseMagicHeader, Share, Ungrouped;
    forall f: Fault ensures Violates(Ungrouped(cfg), f) <==> !IsGrouped(f) && Violates(cfg, f) {
      UngroupedFaults(cfg, f);
    }
    GroupedFaults(cfg);
  }

  lemma {:induction false} GroupedFaults(cfg: Config)
    ensures (forall f: Fault :: IsGrouped(f) ==> !Violates(cfg, f)) <==>
            JunkPart(cfg) && HeadersValid(Headers(cfg))
  {
    hide ParseMagicHeader, Share;
    if forall f: Fault :: IsGrouped(f) ==> !Violates(cfg, f) {
      assert !Violates(cfg, BadJunk(0)) && !Violates(cfg, BadJunk(1)) && !Violates(cfg, BadJunk(2));
      assert !Violates(cfg, JminAboveJmax);
      forall i | 0 <= i < 4 ensures !UnparsedHeader(Headers(cfg)[i]) {
        assert !Violates(cfg, BadHeader(i));
      }
      forall i, j | 0 <= i < j < 4 ensures !Share(Headers(cfg)[i], Headers(cfg)[j]) {
        assert !Violates(cfg, Overlap(j, i));
      }
    }
  }

  lemma {:induction false} MergedIsGroupedOnly(f: Fields, cfg: Config)
    ensures Valid(Ungrouped(MergeAWG(f, cfg)))
  {
    assert Ungrouped(MergeAWG(f, cfg)) == NO_CONFIG;
    forall g: Fault ensures !Violates(NO_CONFIG, g) {}
  }

  // ----- acceptance is exactly validity of the result

  predicate NoEmptyHeader(cfg: Config) {
    forall i :: 0 <= i < 4 ==> Headers(cfg)[i] != Some("")
  }

  lemma {:induction false} EmptyHeaderUnparsed()
    ensures UnparsedHeader(Some(""))
  {}

  /** The merged headers are those the device would have. */
  lemma {:induction false} MergedHeaders(f: Fields, cfg: Config)
    requires NoEmptyHeader(cfg)
    ensures Headers(MergeAWG(f, cfg)) == DeviceHeaders(ApplyFields(f, cfg))
  {
    var hs := Headers(cfg);
    assert hs[0] != Some("") && hs[1] != Some("") && hs[2] != Some("") && hs[3] != Some("");
  }

  lemma {:induction false} ValidHeadersAreNotEmpty(hs: seq<Option<string>>)
    requires HeadersValid(hs)
    ensures forall i :: 0 <= i < |hs| ==> hs[i] != Some("")
  {
    EmptyHeaderUnparsed();
  }

  /** Headers that are part of valid ones are valid. */
  lemma {:induction false} PartOfValidHeaders(part: seq<Option<string>>, whole: seq<Option<string>>)
    requires |part| == |whole| && HeadersValid(whole)
    requires forall i :: 0 <= i < |part| ==> part[i].None? || part[i] == whole[i]
    ensures HeadersValid(part)
  {
    hide ParseMagicHeader;
    forall i, j | 0 <= i < j < |part| ensures !Share(part[i], part[j]) {
      assert !Share(whole[i], whole[j]);
    }
  }

  lemma {:induction false} CountAllOrNothing(group: seq<bool>)
    requires !Partial(group)
    ensures (forall i :: 0 <= i < |group| ==> group[i]) || (forall i :: 0 <= i < |group| ==> !group[i])
  {
    CountBounds(group);
  }

  lemma {:induction false} CountBounds(group: seq<bool>)
    ensures CountSet(group) <= |group|
    ensures CountSet(group) == |group| ==> forall i :: 0 <= i < |group| ==> group[i]
    ensures CountSet(group) == 0 ==> forall i :: 0 <= i < |group| ==> !group[i]
  {
    if group != [] {
      CountBounds(group[1..]);
      assert forall i :: 1 <= i < |group| ==> group[i] == group[1..][i - 1];
    }
  }

  /** An update that is not partial sets each group whole or leaves it alone. */
  lemma {:induction false} NotPartial(cfg: Config)
    requires !PartialAWG(cfg)
    ensures (cfg.jc.Some? && cfg.jmin.Some? && cfg.jmax.Some?) || (cfg.jc.None? && cfg.jmin.None? && cfg.jmax.None?)
    ensures (forall i :: 0 <= i < 4 ==> Headers(cfg)[i].Some?) || (forall i :: 0 <= i < 4 ==> Headers(cfg)[i].None?)
  {
    var js := [cfg.jc.Some?, cfg.jmin.Some?, cfg.jmax.Some?];
    var hs := [cfg.h1.Some?, cfg.h2.Some?, cfg.h3.Some?, cfg.h4.Some?];
    CountAllOrNothing(js);
    CountAllOrNothing(hs);
    assert js[0] == cfg.jc.Some? && js[1] == cfg.jmin.Some? && js[2] == cfg.jmax.Some?;
    assert forall i :: 0 <= i < 4 ==> hs[i] == Headers(cfg)[i].Some?;
  }

  lemma {:induction false} ResultJunk(f: Fields, cfg: Config)
    requires JunkValid(f.jc, f.jmin, f.jmax)
    ensures var r := ApplyFields(f, cfg);
            && (JunkValid(r.jc, r.jmin, r.jmax) ==> JunkPart(cfg))
            && (JunkPart(MergeAWG(f, cfg)) <==> JunkValid(r.jc, r.jmin, r.jmax))
            && (!PartialAWG(cfg) && JunkPart(cfg) ==> JunkValid(r.jc, r.jmin, r.jmax))
  {
    if !PartialAWG(cfg) {
      NotPartial(cfg);
    }
  }

  lemma {:induction false} ResultHeaders(f: Fields, cfg: Config)
    requires HeadersValid(DeviceHeaders(f)) && NoEmptyHeader(cfg)
    ensures var hs := DeviceHeaders(ApplyFields(f, cfg));
            && (HeadersValid(hs) ==> HeadersValid(Headers(cfg)))
            && (HeadersValid(Headers(MergeAWG(f, cfg))) <==> HeadersValid(hs))
            && (!PartialAWG(cfg) && HeadersValid(Headers(cfg)) ==> HeadersValid(hs))
  {
    hide UnparsedHeader, Share;
    var hs := DeviceHeaders(ApplyFields(f, cfg));
    MergedHeaders(f, cfg);
    assert forall i :: 0 <= i < 4 ==> Headers(cfg)[i].None? || Headers(cfg)[i] == hs[i] by {
      var cs := Headers(cfg);
      assert cs[0] != Some("") && cs[1] != Some("") && cs[2] != Some("") && cs[3] != Some("");
    }
    if HeadersValid(hs) {
      PartOfValidHeaders(Headers(cfg), hs);
    }
    if !PartialAWG(cfg) && HeadersValid(Headers(cfg)) {
      NotPartial(cfg);
      assert hs == Headers(cfg) || hs == DeviceHeaders(f);
    }
  }

  /** A reading of an AmneziaWG device with these fields. */
  function Reading(f: Fields): Option<Device> {
    Some(Device("", ZERO_KEY, true, f, []))
  }

  /** On a device in order, an update is accepted exactly when its other fields
      are valid, no header is set to the empty text, and the result is in
      order: nothing harmful passes and nothing harmless is rejected. */
  lemma {:induction false} AcceptedIffResultValid(f: Fields, cfg: Config)
    requires AwgValid(f)
    ensures Accepts(Reading(f), cfg) <==>
            Valid(Ungrouped(cfg)) && NoEmptyHeader(cfg) && AwgValid(ApplyFields(f, cfg))
  {
    hide ParseMagicHeader, Share, Valid, PartialAWG, JunkPart, JunkValid, Ungrouped, MergeAWG, ApplyFields;
    ValidByGroup(cfg);
    if HeadersValid(Headers(cfg)) {
      ValidHeadersAreNotEmpty(Headers(cfg));
    }
    if NoEmptyHeader(cfg) {
      ResultJunk(f, cfg);
      ResultHeaders(f, cfg);
      ValidByGroup(MergeAWG(f, cfg));
      MergedIsGroupedOnly(f, cfg);
    }
  }

  // ----- every run of updates

  /** One call of ConfigureDevice: the configuration, and how many of its
      batches reached the device. */
  datatype Update = Update(cfg: Config, sent: nat)

  function Step(d: State, u: Update): State
    requires u.sent <= |Batches(u.cfg)|
  {
    Run(d, Batches(u.cfg)[..u.sent])
  }

  /** Each update was checked against the device as it then was. */
  ghost predicate AcceptedRun(d: State, us: seq<Update>)
    decreases |us|
  {
    us == [] ||
    (us[0].sent <= |Batches(us[0].cfg)| && Accepts(Reading(d.fields), us[0].cfg)
     && AcceptedRun(Step(d, us[0]), us[1..]))
  }

  ghost function AfterRun(d: State, us: seq<Update>): State
    requires AcceptedRun(d, us)
    decreases |us|
  {
    if us == [] then d else AfterRun(Step(d, us[0]), us[1..])
  }

  /** The device-wide fields arrive complete with the first batch. */
  lemma {:induction false} FieldsAfterStep(d: State, u: Update)
    requires u.sent <= |Batches(u.cfg)|
    ensures Step(d, u).fields == if u.sent == 0 then d.fields else ApplyFields(d.fields, u.cfg)
  {
    hide Messages, NeedsBatching;
    if u.sent > 0 {
      if NeedsBatching(u.cfg) {
        var ms := Messages(u.cfg.peers, {});
        BatchesApply(d, u.cfg, ms, u.sent);
        PeersKeepFields(ApplyHeader(d, u.cfg), ms[..u.sent]);
      } else {
        assert Batches(u.cfg)[..1] == [u.cfg];
        OneRequest(d, u.cfg);
        PeersKeepFields(ApplyHeader(d, u.cfg), u.cfg.peers);
      }
    }
  }

  /** However many accepted updates a device in order has seen, complete or cut
      short between batches, it is in order: every message type belongs to at
      most one of H1-H4 and the junk parameters agree. */
  lemma {:induction false} RunKeepsAwgValid(d: State, us: seq<Update>)
    requires AwgValid(d.fields) && AcceptedRun(d, us)
    ensures AwgValid(AfterRun(d, us).fields)
    decreases |us|
  {
    hide AwgValid, Step, Accepts;
    if us != [] {
      FieldsAfterStep(d, us[0]);
      AcceptedIffResultValid(d.fields, us[0].cfg);
      RunKeepsAwgValid(Step(d, us[0]), us[1..]);
    }
  }

  // ----- devices that cannot be read

  /** The update cannot clash with values it does not know: it sets all headers
      or none, and a lone Jmin or Jmax is at the harmless end of its range. */
  predicate SafeUnread(cfg: Config) {
    && (forall i, k :: 0 <= i < 4 && 0 <= k < 4 ==> (Headers(cfg)[i].Some? <==> Headers(cfg)[k].Some?))
    && (cfg.jmin.Some? && cfg.jmax.None? ==> cfg.jmin.value <= 1)
    && (cfg.jmax.Some? && cfg.jmin.None? ==> cfg.jmax.value == 0 || cfg.jmax.value == MAX_JUNK_SIZE)
  }

  /** It leaves every device that is in order in order. */
  ghost predicate NeverHarms(cfg: Config) {
    forall f: Fields :: AwgValid(f) ==> AwgValid(ApplyFields(f, cfg))
  }

  /** A device with one header. */
  function OneHeader(k: nat, h: string): Fields
    requires k < 4
  {
    if k == 0 then ZERO_FIELDS.(h1 := h)
    else if k == 1 then ZERO_FIELDS.(h2 := h)
    else if k == 2 then ZERO_FIELDS.(h3 := h)
    else ZERO_FIELDS.(h4 := h)
  }

  lemma {:induction false} SharesWithItself(h: string)
    requires ParseMagicHeader(h).Some?
    ensures Share(Some(h), Some(h))
  {
    hide ParseMagicHeader;
    var v := ParseMagicHeader(h).value.start;
    assert HeaderHas(Some(h), v);
  }

  /** A header set alone clashes with a device that has it in another place. */
  lemma {:induction false} LoneHeaderHarms(cfg: Config, i: nat, k: nat)
    requires i < 4 && k < 4 && Headers(cfg)[i].Some? && Headers(cfg)[k].None?
    requires ParseMagicHeader(Headers(cfg)[i].value).Some?
    ensures !NeverHarms(cfg)
  {
    hide ParseMagicHeader, Share;
    var h := Headers(cfg)[i].value;
    EmptyHeaderUnparsed();
    SharesWithItself(h);
    var f := OneHeader(k, h);
    assert DeviceHeaders(f)[k] == Some(h) && forall j :: 0 <= j < 4 && j != k ==> DeviceHeaders(f)[j] == None;
    SharedAreSet();
    assert AwgValid(f);
    var hs := DeviceHeaders(ApplyFields(f, cfg));
    assert hs[i] == hs[k] == Some(h);
    assert !HeadersValid(hs);
  }

  lemma {:induction false} ZeroDeviceInOrder(f: Fields)
    requires f == ZERO_FIELDS.(jmin := f.jmin, jmax := f.jmax) && JunkValid(f.jc, f.jmin, f.jmax)
    ensures AwgValid(f)
  {
    hide Share, ParseMagicHeader;
    SharedAreSet();
  }

  lemma {:induction false} LoneJunkHarms(cfg: Config)
    requires (cfg.jmin.Some? && cfg.jmax.None? && cfg.jmin.value > 1)
             || (cfg.jmax.Some? && cfg.jmin.None? && 0 < cfg.jmax.value < MAX_JUNK_SIZE)
    ensures !NeverHarms(cfg)
  {
    hide HeadersValid;
    var f := if cfg.jmin.Some? then ZERO_FIELDS.(jmax := 1) else ZERO_FIELDS.(jmin := MAX_JUNK_SIZE);
    ZeroDeviceInOrder(f);
    assert !AwgValid(ApplyFields(f, cfg));
  }

  lemma {:induction false} SafeHeaders(f: Fields, cfg: Config)
    requires HeadersValid(DeviceHeaders(f)) && HeadersValid(Headers(cfg)) && SafeUnread(cfg)
    ensures HeadersValid(DeviceHeaders(ApplyFields(f, cfg)))
  {
    hide UnparsedHeader, Share;
    ValidHeadersAreNotEmpty(Headers(cfg));
    var cs, hs := Headers(cfg), DeviceHeaders(ApplyFields(f, cfg));
    assert cs[0] != Some("") && cs[1] != Some("") && cs[2] != Some("") && cs[3] != Some("");
    assert hs == if cs[0].Some? then cs else DeviceHeaders(f);
  }

  /** Where the device cannot be read, an accepted update is passed on
      unchecked. It leaves every device in order exactly when it is safe. */
  lemma {:induction false} UnreadUpdateIsSafeIff(cfg: Config)
    requires Accepts(None, cfg)
    ensures NeverHarms(cfg) <==> SafeUnread(cfg)
  {
    ValidByGroup(cfg);
    if SafeUnread(cfg) {
      forall f: Fields | AwgValid(f) ensures AwgValid(ApplyFields(f, cfg)) {
        SafeHeaders(f, cfg);
        hide HeadersValid, Valid, PartialAWG, Ungrouped;
      }
    } else if i, k :| 0 <= i < 4 && 0 <= k < 4 && Headers(cfg)[i].Some? && Headers(cfg)[k].None? {
      assert !UnparsedHeader(Headers(cfg)[i]);
      LoneHeaderHarms(cfg, i, k);
    } else {
      LoneJunkHarms(cfg);
    }
  }

  /** An accepted update that puts some device out of order, unless its backend
      refuses it. */
  lemma {:induction false} UnreadUpdateMayHarm()
    ensures var cfg := NO_CONFIG.(jmin := Some(2)); Accepts(None, cfg) && !NeverHarms(cfg)
  {
    var cfg := NO_CONFIG.(jmin := Some(2));
    hide Valid, ParseMagicHeader, Share;
    assert Ungrouped(cfg) == Ungrouped(MergeAWG(ZERO_FIELDS, NO_CONFIG));
    MergedIsGroupedOnly(ZERO_FIELDS, NO_CONFIG);
    ValidByGroup(cfg);
    SharedAreSet();
    LoneJunkHarms(cfg);
  }
}

/** The master's configuration: effective values, validation, and what is built from it. */
module Config {
  import opened Outcomes
  import opened Octets
  import opened Timestamp
  import opened Header
  import opened Messages
  import opened Transport

  datatype Profile = G82751 | IEEE1588v2 | UnknownProfile

  datatype MsgKey = AnnounceKey | SyncKey | FollowUpKey | DelayRespKey | UnknownKey(name: string)

  datatype Field =
    | DomainNumber | ClockIdentity | PortNumber | TransportSpecific | DstMac | VlanId | VlanPcp
    | UnknownField(name: string)

  /** A value of the override table: null, a number or a byte string. */
  datatype Value = Null | Num(n: int) | Bytes(b: seq<octet>)

  const ALL_ONES: seq<octet> := [255, 255, 255, 255, 255, 255, 255, 255]

  datatype MasterConfig = MasterConfig(
    interface: string,
    offline: bool,
    profile: Profile,
    domainNumber: int,
    clockIdentity: Option<seq<octet>>,
    portNumber: int,
    priority1: int,
    priority2: int,
    clockClass: int,
    clockAccuracy: int,
    offsetScaledLogVariance: int,
    timeSource: int,
    currentUtcOffset: int,
    logAnnounceInterval: int,
    logSyncInterval: int,
    twoStep: bool,
    followUpGapMs: real,
    transportSpecific: int,
    announceFlags: int,
    syncFlags: int,
    followUpFlags: int,
    delayRespFlags: int,
    vlanId: Option<int>,
    vlanPcp: int,
    dstMac: seq<octet>,
    announceReceiptTimeout: int,
    delayRespUnicast: bool,
    maxSlaves: int,
    delayRespRateLimit: int,
    headerLink: bool,
    messageOverrides: map<MsgKey, map<Field, Value>>)
  {
    function Shared(f: Field): Value
      requires !f.UnknownField?
    {
      match f
      case DomainNumber => Num(domainNumber)
      case ClockIdentity => if clockIdentity.Some? then Bytes(clockIdentity.value) else Null
      case PortNumber => Num(portNumber)
      case TransportSpecific => Num(transportSpecific)
      case DstMac => Bytes(dstMac)
      case VlanId => if vlanId.Some? then Num(vlanId.value) else Null
      case VlanPcp => Num(vlanPcp)
    }

    /** The value of a common-header or framing field for one message type. */
    function Effective(key: MsgKey, f: Field): Value
      requires !f.UnknownField?
    {
      if headerLink then Shared(f)
      else if key in messageOverrides && f in messageOverrides[key] then messageOverrides[key][f]
      else Shared(f)
    }

    function EffectiveClockIdentity(key: MsgKey): Option<seq<octet>> {
      var v := Effective(key, ClockIdentity);
      if v.Bytes? then Some(v.b) else None
    }

    predicate IntervalsAndDomainInRange() {
      match profile
      case G82751 => 24 <= domainNumber <= 43 && -3 <= logAnnounceInterval <= 0 && -7 <= logSyncInterval <= -3
      case IEEE1588v2 => 0 <= domainNumber <= 127 && -3 <= logAnnounceInterval <= 1 && -7 <= logSyncInterval <= 1
      case UnknownProfile => false
    }

    /** validate() returns instead of raising. */
    predicate Valid() {
      && interface != ""
      && IntervalsAndDomainInRange()
      && (clockIdentity.Some? ==> |clockIdentity.value| == 8 && clockIdentity.value != ALL_ONES)
      && |dstMac| == 6
      && (vlanId.Some? ==> 0 <= vlanId.value <= 0xFFF)
      && 0 <= vlanPcp <= 7
      && 0 <= transportSpecific <= 0xF
      && 0 <= announceFlags <= 0xFFFF && 0 <= syncFlags <= 0xFFFF
      && 0 <= followUpFlags <= 0xFFFF && 0 <= delayRespFlags <= 0xFFFF
      && 0 <= portNumber <= 0xFFFF
      && followUpGapMs >= 0.0
      && maxSlaves >= 1
      && delayRespRateLimit >= 0
      && forall key | key in messageOverrides ::
           !key.UnknownKey? && forall f | f in messageOverrides[key] :: OverrideAllowed(f, messageOverrides[key][f])
    }
  }

  predicate OverrideAllowed(f: Field, v: Value) {
    match f
    case UnknownField(_) => false
    case ClockIdentity => v.Null? || (v.Bytes? && |v.b| == 8 && v.b != ALL_ONES)
    case DstMac => v.Bytes? && |v.b| == 6
    case DomainNumber => v.Num? && 0 <= v.n <= 255
    case PortNumber => v.Num? && 0 <= v.n <= 0xFFFF
    case TransportSpecific => v.Num? && 0 <= v.n <= 0xF
    case VlanId => v.Null? || (v.Num? && 0 <= v.n <= 0xFFF)
    case VlanPcp => v.Num? && 0 <= v.n <= 7
  }

  /** Linked or not, every effective value of a valid configuration is one an override may have,
      and so fits the field it is for. */
  lemma EffectiveValuesFit(cfg: MasterConfig, key: MsgKey, f: Field)
    requires cfg.Valid() && !f.UnknownField?
    ensures OverrideAllowed(f, cfg.Effective(key, f))
    ensures cfg.EffectiveClockIdentity(key).Some? ==> |cfg.EffectiveClockIdentity(key).value| == 8
  {
    assert OverrideAllowed(f, cfg.Shared(f));
    var id := cfg.Effective(key, ClockIdentity);
    assert OverrideAllowed(ClockIdentity, id);
  }

  /** The overrides of one message type act on that type alone, and only in unlinked mode, field by field;
      the values of all other message types stay what they were. */
  lemma OverridesStayApart(cfg: MasterConfig, key: MsgKey, ov: map<Field, Value>, other: MsgKey, f: Field)
    requires !f.UnknownField?
    ensures var c := cfg.(messageOverrides := cfg.messageOverrides[key := ov]);
            && (other != key || cfg.headerLink ==> c.Effective(other, f) == cfg.Effective(other, f))
            && (!cfg.headerLink ==> c.Effective(key, f) == if f in ov then ov[f] else cfg.Shared(f))
            && (cfg.headerLink ==> c.Effective(key, f) == c.Effective(other, f))
  {
  }

  // ---- What the senders make of it; a value of the wrong kind fails where it is used ----

  function AsNumber(v: Value): (r: Result<int>)
    ensures r.Ok? <==> v.Num?
  {
    if v.Num? then Ok(v.n) else Raise(TypeError)
  }

  function AsBytes(v: Value): (r: Result<seq<octet>>)
    ensures r.Ok? <==> v.Bytes?
  {
    if v.Bytes? then Ok(v.b) else Raise(TypeError)
  }

  /** The sourcePortIdentity of one message type. */
  function SourceFor(cfg: MasterConfig, own: PortIdentity, key: MsgKey): Result<PortIdentity> {
    var id := cfg.EffectiveClockIdentity(key);
    var port :- AsNumber(cfg.Effective(key, PortNumber));
    MakePortIdentity(if id.Some? then id.value else own.clockIdentity, port)
  }

  function FrameFor(cfg: MasterConfig, key: MsgKey, dst: Option<seq<octet>>, src: seq<octet>, payload: seq<octet>)
    : Result<seq<octet>>
  {
    var to :- if dst.Some? then Ok(dst.value) else AsBytes(cfg.Effective(key, DstMac));
    var pcp :- AsNumber(cfg.Effective(key, VlanPcp));
    var vlan := cfg.Effective(key, VlanId);
    if vlan.Null? then BuildEthernetFrame(to, src, payload, None, pcp)
    else
      var id :- AsNumber(vlan);
      BuildEthernetFrame(to, src, payload, Some(id), pcp)
  }

  function SyncPayload(cfg: MasterConfig, source: PortIdentity, t1: PTPTimestamp, seqId: int): Result<seq<octet>> {
    var domain :- AsNumber(cfg.Effective(SyncKey, DomainNumber));
    var specific :- AsNumber(cfg.Effective(SyncKey, TransportSpecific));
    BuildSync(source, domain, t1, seqId, cfg.logSyncInterval, cfg.twoStep, specific, cfg.syncFlags)
  }

  function FollowUpPayload(cfg: MasterConfig, source: PortIdentity, precise: PTPTimestamp, seqId: int): Result<seq<octet>> {
    var domain :- AsNumber(cfg.Effective(FollowUpKey, DomainNumber));
    var specific :- AsNumber(cfg.Effective(FollowUpKey, TransportSpecific));
    BuildFollowUp(source, domain, precise, seqId, cfg.logSyncInterval, specific, cfg.followUpFlags)
  }

  function DelayRespPayload(cfg: MasterConfig, source: PortIdentity, t2: PTPTimestamp, requesting: PortIdentity, seqId: int)
    : Result<seq<octet>>
  {
    var domain :- AsNumber(cfg.Effective(DelayRespKey, DomainNumber));
    var specific :- AsNumber(cfg.Effective(DelayRespKey, TransportSpecific));
    BuildDelayResp(source, domain, t2, requesting, seqId, cfg.delayRespUnicast, specific, cfg.delayRespFlags)
  }

  function AnnounceBodyOf(cfg: MasterConfig, source: PortIdentity, origin: PTPTimestamp): AnnounceBody {
    AnnounceBody(origin, cfg.currentUtcOffset, cfg.priority1, cfg.clockClass, cfg.clockAccuracy,
                 cfg.offsetScaledLogVariance, cfg.priority2, source.clockIdentity, 0, cfg.timeSource)
  }

  function AnnouncePayload(cfg: MasterConfig, source: PortIdentity, origin: PTPTimestamp, seqId: int): Result<seq<octet>> {
    var domain :- AsNumber(cfg.Effective(AnnounceKey, DomainNumber));
    var specific :- AsNumber(cfg.Effective(AnnounceKey, TransportSpecific));
    BuildAnnounce(source, domain, AnnounceBodyOf(cfg, source, origin), seqId, cfg.logAnnounceInterval, specific,
                  cfg.announceFlags)
  }

  lemma SourceAlwaysBuilds(cfg: MasterConfig, own: PortIdentity, key: MsgKey)
    requires cfg.Valid()
    ensures var source, id := SourceFor(cfg, own, key), cfg.EffectiveClockIdentity(key);
            && source.Ok? && Num(source.value.portNumber) == cfg.Effective(key, PortNumber)
            && source.value.clockIdentity == if id.Some? then id.value else own.clockIdentity
  {
    EffectiveValuesFit(cfg, key, PortNumber);
  }

  /** Framing never fails: the addresses have six octets and the tag fits. */
  lemma FrameAlwaysBuilds(cfg: MasterConfig, key: MsgKey, dst: Option<seq<octet>>, src: seq<octet>, payload: seq<octet>,
                          padding: seq<octet>)
    requires cfg.Valid() && |src| == 6 && (dst.Some? ==> |dst.value| == 6)
    ensures var frame := FrameFor(cfg, key, dst, src, payload);
            && frame.Ok? && ParseEthernetFrame(frame.value + padding) == Ok(Some(ParsedFrame(src, payload + padding)))
            && Bytes(frame.value[0..6]) == (if dst.Some? then Bytes(dst.value) else cfg.Effective(key, DstMac))
            && frame.value[6..12] == src
  {
    EffectiveValuesFit(cfg, key, DstMac);
    EffectiveValuesFit(cfg, key, VlanPcp);
    EffectiveValuesFit(cfg, key, VlanId);
    var to := if dst.Some? then dst.value else cfg.Effective(key, DstMac).b;
    var vlan := cfg.Effective(key, VlanId);
    FrameRoundTrip(to, src, payload, if vlan.Null? then None else Some(vlan.n), cfg.Effective(key, VlanPcp).n, padding);
    FrameIsLaidOut(to, src, payload, if vlan.Null? then None else Some(vlan.n), cfg.Effective(key, VlanPcp).n);
  }

  /** The header fields a sender takes from the configuration. */
  lemma HeaderFieldsFit(cfg: MasterConfig, key: MsgKey)
    requires cfg.Valid()
    ensures cfg.Effective(key, DomainNumber).Num? && 0 <= cfg.Effective(key, DomainNumber).n < 0x100
    ensures cfg.Effective(key, TransportSpecific).Num? && 0 <= cfg.Effective(key, TransportSpecific).n < 16
  {
    EffectiveValuesFit(cfg, key, DomainNumber);
    EffectiveValuesFit(cfg, key, TransportSpecific);
  }

  /** A Sync always builds and is read back with its sequence id and the two-step bit as configured. */
  lemma SyncAlwaysBuilds(cfg: MasterConfig, source: PortIdentity, t1: PTPTimestamp, seqId: int, padding: seq<octet>)
    requires cfg.Valid() && 0 <= seqId < 0x1_0000
    ensures var p := SyncPayload(cfg, source, t1, seqId);
            && p.Ok?
            && var h := UnpackHeader(p.value + padding);
               && h.Ok? && h.value.messageType == SYNC && h.value.sequenceId == seqId && h.value.source == source
               && Num(h.value.domainNumber) == cfg.Effective(SyncKey, DomainNumber)
               && HasFlag(h.value.flags, FLAG_TWO_STEP) == cfg.twoStep && SameButFor(h.value.flags, cfg.syncFlags, FLAG_TWO_STEP)
               && ParseSyncBody(p.value + padding, h.value) == Ok(t1)
  {
    HeaderFieldsFit(cfg, SyncKey);
    SyncReadable(source, cfg.Effective(SyncKey, DomainNumber).n, t1, seqId, cfg.logSyncInterval, cfg.twoStep,
                 cfg.Effective(SyncKey, TransportSpecific).n, cfg.syncFlags, padding);
  }

  lemma FollowUpAlwaysBuilds(cfg: MasterConfig, source: PortIdentity, precise: PTPTimestamp, seqId: int, padding: seq<octet>)
    requires cfg.Valid() && 0 <= seqId < 0x1_0000
    ensures var p := FollowUpPayload(cfg, source, precise, seqId);
            && p.Ok?
            && var h := UnpackHeader(p.value + padding);
               && h.Ok? && h.value.messageType == FOLLOW_UP && h.value.sequenceId == seqId && h.value.source == source
               && Num(h.value.domainNumber) == cfg.Effective(FollowUpKey, DomainNumber)
               && HasFlag(h.value.flags, FLAG_TWO_STEP) && SameButFor(h.value.flags, cfg.followUpFlags, FLAG_TWO_STEP)
               && ParseFollowUpBody(p.value + padding, h.value) == Ok(precise)
  {
    HeaderFieldsFit(cfg, FollowUpKey);
    FollowUpReadable(source, cfg.Effective(FollowUpKey, DomainNumber).n, precise, seqId, cfg.logSyncInterval,
                     cfg.Effective(FollowUpKey, TransportSpecific).n, cfg.followUpFlags, padding);
  }

  /** A Delay_Resp always builds, and is read back with what it echoes and the unicast bit as configured. */
  lemma DelayRespAlwaysBuilds(cfg: MasterConfig, source: PortIdentity, t2: PTPTimestamp, requesting: PortIdentity,
                              seqId: int, padding: seq<octet>)
    requires cfg.Valid() && 0 <= seqId < 0x1_0000
    ensures var p := DelayRespPayload(cfg, source, t2, requesting, seqId);
            && p.Ok?
            && var h := UnpackHeader(p.value + padding);
               && h.Ok? && h.value.messageType == DELAY_RESP && h.value.sequenceId == seqId
               && h.value.source == source && Num(h.value.domainNumber) == cfg.Effective(DelayRespKey, DomainNumber)
               && HasFlag(h.value.flags, FLAG_UNICAST) == cfg.delayRespUnicast
               && SameButFor(h.value.flags, cfg.delayRespFlags, FLAG_UNICAST)
               && ParseDelayRespBody(p.value + padding, h.value) == Ok(DelayRespBody(t2, requesting))
  {
    HeaderFieldsFit(cfg, DelayRespKey);
    DelayRespReadable(source, cfg.Effective(DelayRespKey, DomainNumber).n, t2, requesting, seqId, cfg.delayRespUnicast,
                      cfg.Effective(DelayRespKey, TransportSpecific).n, cfg.delayRespFlags, padding);
  }

  /** The fields validate() does not look at and an Announce carries. */
  predicate AnnounceFieldsFit(cfg: MasterConfig) {
    && 0 <= cfg.priority1 < 0x100 && 0 <= cfg.priority2 < 0x100
    && 0 <= cfg.clockClass < 0x100 && 0 <= cfg.clockAccuracy < 0x100
    && 0 <= cfg.offsetScaledLogVariance < 0x1_0000
    && 0 <= cfg.timeSource < 0x100
  }

  /** An Announce builds exactly when they fit. */
  lemma AnnounceBuildsIffFieldsFit(cfg: MasterConfig, source: PortIdentity, origin: PTPTimestamp, seqId: int)
    requires cfg.Valid() && 0 <= seqId < 0x1_0000
    ensures AnnouncePayload(cfg, source, origin, seqId).Ok? <==> AnnounceFieldsFit(cfg)
  {
    HeaderFieldsFit(cfg, AnnounceKey);
    CommonHeaderIsCanonical(ANNOUNCE, cfg.Effective(AnnounceKey, DomainNumber).n, cfg.announceFlags, source, seqId, 0x05,
                            cfg.logAnnounceInterval, cfg.Effective(AnnounceKey, TransportSpecific).n, ANNOUNCE_BODY_LEN);
  }

  lemma AnnounceReadsBack(cfg: MasterConfig, source: PortIdentity, origin: PTPTimestamp, seqId: int, padding: seq<octet>)
    requires cfg.Valid() && 0 <= seqId < 0x1_0000 && AnnounceFieldsFit(cfg)
    ensures var p := AnnouncePayload(cfg, source, origin, seqId);
            && p.Ok?
            && UnpackAnnounceBody(p.value + padding, HEADER_LEN)
               == Ok(AnnounceBody(origin, cfg.currentUtcOffset % 0x1_0000, cfg.priority1, cfg.clockClass, cfg.clockAccuracy,
                                  cfg.offsetScaledLogVariance, cfg.priority2, source.clockIdentity, 0, cfg.timeSource))
            && var h := UnpackHeader(p.value + padding);
               && h.Ok? && h.value.messageType == ANNOUNCE && h.value.sequenceId == seqId && h.value.source == source
               && h.value.flags == cfg.announceFlags && h.value.logMessageInterval == cfg.logAnnounceInterval
               && Num(h.value.domainNumber) == cfg.Effective(AnnounceKey, DomainNumber)
               && Num(h.value.transportSpecific) == cfg.Effective(AnnounceKey, TransportSpecific)
  {
    HeaderFieldsFit(cfg, AnnounceKey);
    var b := AnnounceBodyOf(cfg, source, origin);
    var header := PackHeader(CommonHeader(ANNOUNCE, cfg.Effective(AnnounceKey, DomainNumber).n, cfg.announceFlags, source, seqId,
                                          0x05, cfg.logAnnounceInterval, cfg.Effective(AnnounceKey, TransportSpecific).n,
                                          ANNOUNCE_BODY_LEN)).value;
    AnnounceBodyRoundTrip(b, header, padding);
    AnnounceReadable(source, cfg.Effective(AnnounceKey, DomainNumber).n, AnnounceBodyOf(cfg, source, origin), seqId,
                     cfg.logAnnounceInterval, cfg.Effective(AnnounceKey, TransportSpecific).n, cfg.announceFlags, padding);
  }

  /** So a valid configuration can be one whose Announces all fail. */
  lemma ValidDoesNotMeanAnnounceable(cfg: MasterConfig, source: PortIdentity, origin: PTPTimestamp, seqId: int)
    requires cfg.Valid() && 0 <= seqId < 0x1_0000
    ensures var bad := cfg.(priority1 := 256);
            bad.Valid() && AnnouncePayload(bad, source, origin, seqId).Raise?
  {
    AnnounceBuildsIffFieldsFit(cfg.(priority1 := 256), source, origin, seqId);
  }
}

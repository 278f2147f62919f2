/** Reconfiguring a running master: read under the lock, validate outside it, store under it again.
    Any number of callers may be at it at once, and the sending threads read without the lock. */
module RuntimeUpdate {
  import opened Outcomes
  import opened Octets
  import opened Header
  import opened Config

  /** One entry of a patch: a field name and its new value. */
  datatype Change =
    | RestartOnly              // interface, profile, offline, max_slaves, delay_resp_rate_limit, announce_receipt_timeout
    | UnknownName
    | SetDomainNumber(n: int)
    | SetClockIdentity(id: Option<seq<octet>>)
    | SetPortNumber(n: int)
    | SetPriority1(n: int)
    | SetPriority2(n: int)
    | SetClockClass(n: int)
    | SetClockAccuracy(n: int)
    | SetOffsetScaledLogVariance(n: int)
    | SetTimeSource(n: int)
    | SetCurrentUtcOffset(n: int)
    | SetLogAnnounceInterval(n: int)
    | SetLogSyncInterval(n: int)
    | SetTwoStep(on: bool)
    | SetFollowUpGapMs(ms: real)
    | SetTransportSpecific(n: int)
    | SetAnnounceFlags(n: int)
    | SetSyncFlags(n: int)
    | SetFollowUpFlags(n: int)
    | SetDelayRespFlags(n: int)
    | SetVlanId(vlan: Option<int>)
    | SetVlanPcp(n: int)
    | SetDstMac(mac: seq<octet>)
    | SetDelayRespUnicast(on: bool)
    | SetHeaderLink(on: bool)
    | SetMessageOverrides(table: map<MsgKey, map<Field, Value>>)
  {
    predicate Allowed() {
      !RestartOnly? && !UnknownName?
    }

    // Groups of changes, to prove things of one after the other.

    predicate OfIdentity() {
      SetDomainNumber? || SetClockIdentity? || SetPortNumber? || SetPriority1? || SetPriority2?
    }

    predicate OfQuality() {
      SetClockClass? || SetClockAccuracy? || SetOffsetScaledLogVariance? || SetTimeSource? || SetCurrentUtcOffset?
    }

    predicate OfTiming() {
      SetLogAnnounceInterval? || SetLogSyncInterval? || SetTwoStep? || SetFollowUpGapMs?
    }

    predicate OfFlag() {
      SetAnnounceFlags? || SetSyncFlags? || SetFollowUpFlags? || SetDelayRespFlags?
    }

    predicate OfFraming() {
      SetTransportSpecific? || SetVlanId? || SetVlanPcp? || SetDstMac?
    }
  }

  function Changed(cfg: MasterConfig, c: Change): MasterConfig
    requires c.Allowed()
  {
    match c
    case SetDomainNumber(n) => cfg.(domainNumber := n)
    case SetClockIdentity(id) => cfg.(clockIdentity := id)
    case SetPortNumber(n) => cfg.(portNumber := n)
    case SetPriority1(n) => cfg.(priority1 := n)
    case SetPriority2(n) => cfg.(priority2 := n)
    case SetClockClass(n) => cfg.(clockClass := n)
    case SetClockAccuracy(n) => cfg.(clockAccuracy := n)
    case SetOffsetScaledLogVariance(n) => cfg.(offsetScaledLogVariance := n)
    case SetTimeSource(n) => cfg.(timeSource := n)
    case SetCurrentUtcOffset(n) => cfg.(currentUtcOffset := n)
    case SetLogAnnounceInterval(n) => cfg.(logAnnounceInterval := n)
    case SetLogSyncInterval(n) => cfg.(logSyncInterval := n)
    case SetTwoStep(on) => cfg.(twoStep := on)
    case SetFollowUpGapMs(ms) => cfg.(followUpGapMs := ms)
    case SetTransportSpecific(n) => cfg.(transportSpecific := n)
    case SetAnnounceFlags(n) => cfg.(announceFlags := n)
    case SetSyncFlags(n) => cfg.(syncFlags := n)
    case SetFollowUpFlags(n) => cfg.(followUpFlags := n)
    case SetDelayRespFlags(n) => cfg.(delayRespFlags := n)
    case SetVlanId(vlan) => cfg.(vlanId := vlan)
    case SetVlanPcp(n) => cfg.(vlanPcp := n)
    case SetDstMac(mac) => cfg.(dstMac := mac)
    case SetDelayRespUnicast(on) => cfg.(delayRespUnicast := on)
    case SetHeaderLink(on) => cfg.(headerLink := on)
    case SetMessageOverrides(table) => cfg.(messageOverrides := table)
  }

  /** The fields a patch may name. */
  datatype Name =
    | DomainNumberName | ClockIdentityName | PortNumberName | Priority1Name | Priority2Name | ClockClassName |
      ClockAccuracyName | OffsetScaledLogVarianceName | TimeSourceName | CurrentUtcOffsetName |
      LogAnnounceIntervalName | LogSyncIntervalName | TwoStepName | FollowUpGapMsName | TransportSpecificName |
      AnnounceFlagsName | SyncFlagsName | FollowUpFlagsName | DelayRespFlagsName | VlanIdName | VlanPcpName |
      DstMacName | DelayRespUnicastName | HeaderLinkName | MessageOverridesName

  function NameOf(c: Change): Name
    requires c.Allowed()
  {
    match c
    case SetDomainNumber(_) => DomainNumberName
    case SetClockIdentity(_) => ClockIdentityName
    case SetPortNumber(_) => PortNumberName
    case SetPriority1(_) => Priority1Name
    case SetPriority2(_) => Priority2Name
    case SetClockClass(_) => ClockClassName
    case SetClockAccuracy(_) => ClockAccuracyName
    case SetOffsetScaledLogVariance(_) => OffsetScaledLogVarianceName
    case SetTimeSource(_) => TimeSourceName
    case SetCurrentUtcOffset(_) => CurrentUtcOffsetName
    case SetLogAnnounceInterval(_) => LogAnnounceIntervalName
    case SetLogSyncInterval(_) => LogSyncIntervalName
    case SetTwoStep(_) => TwoStepName
    case SetFollowUpGapMs(_) => FollowUpGapMsName
    case SetTransportSpecific(_) => TransportSpecificName
    case SetAnnounceFlags(_) => AnnounceFlagsName
    case SetSyncFlags(_) => SyncFlagsName
    case SetFollowUpFlags(_) => FollowUpFlagsName
    case SetDelayRespFlags(_) => DelayRespFlagsName
    case SetVlanId(_) => VlanIdName
    case SetVlanPcp(_) => VlanPcpName
    case SetDstMac(_) => DstMacName
    case SetDelayRespUnicast(_) => DelayRespUnicastName
    case SetHeaderLink(_) => HeaderLinkName
    case SetMessageOverrides(_) => MessageOverridesName
  }

  /** The change that sets a field to what it is now. */
  function Setting(cfg: MasterConfig, f: Name): (c: Change)
    ensures c.Allowed() && NameOf(c) == f
  {
    match f
    case DomainNumberName => SetDomainNumber(cfg.domainNumber)
    case ClockIdentityName => SetClockIdentity(cfg.clockIdentity)
    case PortNumberName => SetPortNumber(cfg.portNumber)
    case Priority1Name => SetPriority1(cfg.priority1)
    case Priority2Name => SetPriority2(cfg.priority2)
    case ClockClassName => SetClockClass(cfg.clockClass)
    case ClockAccuracyName => SetClockAccuracy(cfg.clockAccuracy)
    case OffsetScaledLogVarianceName => SetOffsetScaledLogVariance(cfg.offsetScaledLogVariance)
    case TimeSourceName => SetTimeSource(cfg.timeSource)
    case CurrentUtcOffsetName => SetCurrentUtcOffset(cfg.currentUtcOffset)
    case LogAnnounceIntervalName => SetLogAnnounceInterval(cfg.logAnnounceInterval)
    case LogSyncIntervalName => SetLogSyncInterval(cfg.logSyncInterval)
    case TwoStepName => SetTwoStep(cfg.twoStep)
    case FollowUpGapMsName => SetFollowUpGapMs(cfg.followUpGapMs)
    case TransportSpecificName => SetTransportSpecific(cfg.transportSpecific)
    case AnnounceFlagsName => SetAnnounceFlags(cfg.announceFlags)
    case SyncFlagsName => SetSyncFlags(cfg.syncFlags)
    case FollowUpFlagsName => SetFollowUpFlags(cfg.followUpFlags)
    case DelayRespFlagsName => SetDelayRespFlags(cfg.delayRespFlags)
    case VlanIdName => SetVlanId(cfg.vlanId)
    case VlanPcpName => SetVlanPcp(cfg.vlanPcp)
    case DstMacName => SetDstMac(cfg.dstMac)
    case DelayRespUnicastName => SetDelayRespUnicast(cfg.delayRespUnicast)
    case HeaderLinkName => SetHeaderLink(cfg.headerLink)
    case MessageOverridesName => SetMessageOverrides(cfg.messageOverrides)
  }

  lemma IdentityChangeSetsOneField(cfg: MasterConfig, c: Change, f: Name)
    requires c.OfIdentity()
    ensures Setting(Changed(cfg, c), f) == if NameOf(c) == f then c else Setting(cfg, f)
  {
    match f
    case DomainNumberName =>
    case ClockIdentityName =>
    case PortNumberName =>
    case Priority1Name =>
    case Priority2Name =>
    case _ =>
  }

  lemma QualityChangeSetsOneField(cfg: MasterConfig, c: Change, f: Name)
    requires c.OfQuality()
    ensures Setting(Changed(cfg, c), f) == if NameOf(c) == f then c else Setting(cfg, f)
  {
    match f
    case ClockClassName =>
    case ClockAccuracyName =>
    case OffsetScaledLogVarianceName =>
    case TimeSourceName =>
    case CurrentUtcOffsetName =>
    case _ =>
  }

  lemma TimingChangeSetsOneField(cfg: MasterConfig, c: Change, f: Name)
    requires c.OfTiming()
    ensures Setting(Changed(cfg, c), f) == if NameOf(c) == f then c else Setting(cfg, f)
  {
    match f
    case LogAnnounceIntervalName =>
    case LogSyncIntervalName =>
    case TwoStepName =>
    case FollowUpGapMsName =>
    case _ =>
  }

  lemma FlagChangeSetsOneField(cfg: MasterConfig, c: Change, f: Name)
    requires c.OfFlag()
    ensures Setting(Changed(cfg, c), f) == if NameOf(c) == f then c else Setting(cfg, f)
  {
    match f
    case AnnounceFlagsName =>
    case SyncFlagsName =>
    case FollowUpFlagsName =>
    case DelayRespFlagsName =>
    case _ =>
  }

  lemma FramingChangeSetsOneField(cfg: MasterConfig, c: Change, f: Name)
    requires c.OfFraming()
    ensures Setting(Changed(cfg, c), f) == if NameOf(c) == f then c else Setting(cfg, f)
  {
    match f
    case TransportSpecificName =>
    case VlanIdName =>
    case VlanPcpName =>
    case DstMacName =>
    case _ =>
  }

  lemma ModeChangeSetsOneField(cfg: MasterConfig, c: Change, f: Name)
    requires c.Allowed() && !c.OfIdentity() && !c.OfQuality() && !c.OfTiming() && !c.OfFlag() && !c.OfFraming()
    ensures Setting(Changed(cfg, c), f) == if NameOf(c) == f then c else Setting(cfg, f)
  {
    match f
    case DelayRespUnicastName =>
    case HeaderLinkName =>
    case MessageOverridesName =>
    case _ =>
  }

  /** A change sets its field to its value and leaves every other field as it is. */
  lemma ChangeSetsOneField(cfg: MasterConfig, c: Change, f: Name)
    requires c.Allowed()
    ensures Setting(Changed(cfg, c), f) == if NameOf(c) == f then c else Setting(cfg, f)
  {
    if c.OfIdentity() {
      IdentityChangeSetsOneField(cfg, c, f);
    } else if c.OfQuality() {
      QualityChangeSetsOneField(cfg, c, f);
    } else if c.OfTiming() {
      TimingChangeSetsOneField(cfg, c, f);
    } else if c.OfFlag() {
      FlagChangeSetsOneField(cfg, c, f);
    } else if c.OfFraming() {
      FramingChangeSetsOneField(cfg, c, f);
    } else {
      ModeChangeSetsOneField(cfg, c, f);
    }
  }

  /** The change that sets a shared header or framing field to the given value, if it is of its kind. */
  function SettingOf(f: Field, v: Value): Option<Change> {
    match f
    case DomainNumber => if v.Num? then Some(SetDomainNumber(v.n)) else None
    case ClockIdentity =>
      if v.Bytes? then Some(SetClockIdentity(Some(v.b))) else if v.Null? then Some(SetClockIdentity(None)) else None
    case PortNumber => if v.Num? then Some(SetPortNumber(v.n)) else None
    case TransportSpecific => if v.Num? then Some(SetTransportSpecific(v.n)) else None
    case DstMac => if v.Bytes? then Some(SetDstMac(v.b)) else None
    case VlanId => if v.Num? then Some(SetVlanId(Some(v.n))) else if v.Null? then Some(SetVlanId(None)) else None
    case VlanPcp => if v.Num? then Some(SetVlanPcp(v.n)) else None
    case UnknownField(_) => None
  }

  lemma SettingIsShared(cfg: MasterConfig, f: Field, v: Value, g: Field)
    requires SettingOf(f, v).Some? && !g.UnknownField?
    ensures var changed := Changed(cfg, SettingOf(f, v).value);
            && changed.Shared(g) == (if g == f then v else cfg.Shared(g))
            && changed.headerLink == cfg.headerLink && changed.messageOverrides == cfg.messageOverrides
  {
  }

  /** Setting a shared field shows in that field of every message type that has no override for it, and
      in no other field of any. */
  lemma SharedSettingShows(cfg: MasterConfig, f: Field, v: Value, key: MsgKey, g: Field)
    requires SettingOf(f, v).Some? && !g.UnknownField?
    ensures var changed := Changed(cfg, SettingOf(f, v).value);
            var overridden := !cfg.headerLink && key in cfg.messageOverrides && g in cfg.messageOverrides[key];
            changed.Effective(key, g) == if g == f && !overridden then v else cfg.Effective(key, g)
  {
    SettingIsShared(cfg, f, v, g);
  }

  predicate AllAllowed(patch: seq<Change>) {
    forall k | 0 <= k < |patch| :: patch[k].Allowed()
  }

  function Patched(cfg: MasterConfig, patch: seq<Change>): MasterConfig
    requires AllAllowed(patch)
  {
    if patch == [] then cfg else Changed(Patched(cfg, patch[..|patch| - 1]), patch[|patch| - 1])
  }

  predicate SameUntilRestart(a: MasterConfig, b: MasterConfig) {
    && a.interface == b.interface && a.profile == b.profile && a.offline == b.offline
    && a.maxSlaves == b.maxSlaves && a.delayRespRateLimit == b.delayRespRateLimit
    && a.announceReceiptTimeout == b.announceReceiptTimeout
  }

  lemma ChangeKeepsRestartFields(cfg: MasterConfig, c: Change)
    requires c.Allowed()
    ensures SameUntilRestart(cfg, Changed(cfg, c))
  {
  }

  lemma {:induction false} PatchKeepsRestartFields(cfg: MasterConfig, patch: seq<Change>)
    requires AllAllowed(patch)
    ensures SameUntilRestart(cfg, Patched(cfg, patch))
  {
    if patch != [] {
      PatchKeepsRestartFields(cfg, patch[..|patch| - 1]);
      ChangeKeepsRestartFields(Patched(cfg, patch[..|patch| - 1]), patch[|patch| - 1]);
    }
  }

  /** The last change of a patch that names a field. */
  function LastOf(patch: seq<Change>, f: Name): (c: Option<Change>)
    requires AllAllowed(patch)
    ensures c.Some? ==> c.value in patch && c.value.Allowed() && NameOf(c.value) == f
    ensures c.None? ==> forall d | d in patch :: NameOf(d) != f
  {
    if patch == [] then None
    else if NameOf(patch[|patch| - 1]) == f then Some(patch[|patch| - 1])
    else LastOf(patch[..|patch| - 1], f)
  }

  /** A patch sets each field it names, to the last value it gives, and no other. */
  lemma {:induction false} PatchSetsItsFields(cfg: MasterConfig, patch: seq<Change>, f: Name)
    requires AllAllowed(patch)
    ensures Setting(Patched(cfg, patch), f) ==
            if LastOf(patch, f).Some? then LastOf(patch, f).value else Setting(cfg, f)
  {
    if patch != [] {
      var before := patch[..|patch| - 1];
      PatchSetsItsFields(cfg, before, f);
      ChangeSetsOneField(Patched(cfg, before), patch[|patch| - 1], f);
    }
  }

  ghost predicate SameSettings(a: MasterConfig, b: MasterConfig) {
    forall f: Name :: Setting(a, f) == Setting(b, f)
  }

  lemma SameIdentityFields(a: MasterConfig, b: MasterConfig)
    requires SameSettings(a, b)
    ensures a.domainNumber == b.domainNumber && a.clockIdentity == b.clockIdentity
    ensures a.portNumber == b.portNumber && a.priority1 == b.priority1
    ensures a.priority2 == b.priority2
  {
    assert Setting(a, DomainNumberName) == Setting(b, DomainNumberName);
    assert Setting(a, ClockIdentityName) == Setting(b, ClockIdentityName);
    assert Setting(a, PortNumberName) == Setting(b, PortNumberName);
    assert Setting(a, Priority1Name) == Setting(b, Priority1Name);
    assert Setting(a, Priority2Name) == Setting(b, Priority2Name);
  }

  lemma SameQualityFields(a: MasterConfig, b: MasterConfig)
    requires SameSettings(a, b)
    ensures a.clockClass == b.clockClass && a.clockAccuracy == b.clockAccuracy
    ensures a.offsetScaledLogVariance == b.offsetScaledLogVariance && a.timeSource == b.timeSource
    ensures a.currentUtcOffset == b.currentUtcOffset
  {
    assert Setting(a, ClockClassName) == Setting(b, ClockClassName);
    assert Setting(a, ClockAccuracyName) == Setting(b, ClockAccuracyName);
    assert Setting(a, OffsetScaledLogVarianceName) == Setting(b, OffsetScaledLogVarianceName);
    assert Setting(a, TimeSourceName) == Setting(b, TimeSourceName);
    assert Setting(a, CurrentUtcOffsetName) == Setting(b, CurrentUtcOffsetName);
  }

  lemma SameTimingFields(a: MasterConfig, b: MasterConfig)
    requires SameSettings(a, b)
    ensures a.logAnnounceInterval == b.logAnnounceInterval && a.logSyncInterval == b.logSyncInterval
    ensures a.twoStep == b.twoStep && a.followUpGapMs == b.followUpGapMs
  {
    assert Setting(a, LogAnnounceIntervalName) == Setting(b, LogAnnounceIntervalName);
    assert Setting(a, LogSyncIntervalName) == Setting(b, LogSyncIntervalName);
    assert Setting(a, TwoStepName) == Setting(b, TwoStepName);
    assert Setting(a, FollowUpGapMsName) == Setting(b, FollowUpGapMsName);
  }

  lemma SameFlagFields(a: MasterConfig, b: MasterConfig)
    requires SameSettings(a, b)
    ensures a.announceFlags == b.announceFlags && a.syncFlags == b.syncFlags
    ensures a.followUpFlags == b.followUpFlags && a.delayRespFlags == b.delayRespFlags
  {
    assert Setting(a, AnnounceFlagsName) == Setting(b, AnnounceFlagsName);
    assert Setting(a, SyncFlagsName) == Setting(b, SyncFlagsName);
    assert Setting(a, FollowUpFlagsName) == Setting(b, FollowUpFlagsName);
    assert Setting(a, DelayRespFlagsName) == Setting(b, DelayRespFlagsName);
  }

  lemma SameFramingFields(a: MasterConfig, b: MasterConfig)
    requires SameSettings(a, b)
    ensures a.transportSpecific == b.transportSpecific && a.vlanId == b.vlanId
    ensures a.vlanPcp == b.vlanPcp && a.dstMac == b.dstMac
  {
    assert Setting(a, TransportSpecificName) == Setting(b, TransportSpecificName);
    assert Setting(a, VlanIdName) == Setting(b, VlanIdName);
    assert Setting(a, VlanPcpName) == Setting(b, VlanPcpName);
    assert Setting(a, DstMacName) == Setting(b, DstMacName);
  }

  lemma SameModeFields(a: MasterConfig, b: MasterConfig)
    requires SameSettings(a, b)
    ensures a.delayRespUnicast == b.delayRespUnicast && a.headerLink == b.headerLink
    ensures a.messageOverrides == b.messageOverrides
  {
    assert Setting(a, DelayRespUnicastName) == Setting(b, DelayRespUnicastName);
    assert Setting(a, HeaderLinkName) == Setting(b, HeaderLinkName);
    assert Setting(a, MessageOverridesName) == Setting(b, MessageOverridesName);
  }

  /** Two configurations that agree in every field are one. */
  lemma FieldsAreAll(a: MasterConfig, b: MasterConfig)
    requires SameUntilRestart(a, b) && SameSettings(a, b)
    ensures a == b
  {
    SameIdentityFields(a, b);
    SameQualityFields(a, b);
    SameTimingFields(a, b);
    SameFlagFields(a, b);
    SameFramingFields(a, b);
    SameModeFields(a, b);
  }

  /** The port identity that goes with a new configuration. */
  function OwnPort(cfg: MasterConfig, own: PortIdentity): Result<PortIdentity> {
    MakePortIdentity(if cfg.clockIdentity.Some? then cfg.clockIdentity.value else own.clockIdentity, cfg.portNumber)
  }

  // ---- Callers, step by step ----

  datatype Caller =
    | Staged(cfg: MasterConfig)      // built from the configuration read, not yet validated
    | Checked(cfg: MasterConfig)     // validated, not yet stored
    | Storing(cfg: MasterConfig)     // cfg stored, source_port and _interval_gen still to follow

  /** What the master's threads share of its configuration. */
  datatype Shared = Shared(
    cfg: MasterConfig,
    port: PortIdentity,
    intervalGen: nat,
    callers: map<nat, Caller>,
    lock: Option<nat>)

  datatype Step = Begin(u: nat, patch: seq<Change>) | Check(u: nat) | Store(u: nat) | Finish(u: nat)

  /** A step that is not enabled leaves everything as it is; a rejected patch ends the call. */
  function Next(s: Shared, e: Step): Shared {
    match e
    case Begin(u, patch) =>
      if u in s.callers || s.lock.Some? || patch == [] || !AllAllowed(patch) then s
      else s.(callers := s.callers[u := Staged(Patched(s.cfg, patch))])
    case Check(u) =>
      if u !in s.callers || !s.callers[u].Staged? then s
      else if s.callers[u].cfg.Valid() then s.(callers := s.callers[u := Checked(s.callers[u].cfg)])
      else s.(callers := s.callers - {u})
    case Store(u) =>
      if u !in s.callers || !s.callers[u].Checked? || s.lock.Some? then s
      else s.(cfg := s.callers[u].cfg, callers := s.callers[u := Storing(s.callers[u].cfg)], lock := Some(u))
    case Finish(u) =>
      if u !in s.callers || !s.callers[u].Storing? then s
      else
        var port := OwnPort(s.callers[u].cfg, s.port);
        s.(port := if port.Ok? then port.value else s.port, intervalGen := s.intervalGen + 1,
           callers := s.callers - {u}, lock := None)
  }

  /** What holds of the shared configuration at every moment. */
  ghost predicate Sound(s: Shared, start: MasterConfig) {
    && s.cfg.Valid() && SameUntilRestart(start, s.cfg)
    && (forall u | u in s.callers :: SameUntilRestart(start, s.callers[u].cfg))
    && (forall u | u in s.callers && !s.callers[u].Staged? :: s.callers[u].cfg.Valid())
    && (forall u | u in s.callers && s.callers[u].Storing? :: s.lock == Some(u) && s.callers[u].cfg == s.cfg)
  }

  lemma StepKeepsSound(s: Shared, e: Step, start: MasterConfig)
    requires Sound(s, start)
    ensures Sound(Next(s, e), start)
  {
    if e.Begin? && AllAllowed(e.patch) {
      PatchKeepsRestartFields(s.cfg, e.patch);
    }
  }

  /** Storing is the one step that changes the configuration, and what it stores was validated; the
      port identity that follows always exists, with the port number of that configuration. */
  lemma OnlyCheckedIsStored(s: Shared, e: Step, start: MasterConfig)
    requires Sound(s, start)
    ensures Next(s, e).cfg != s.cfg ==> e.Store? && e.u in s.callers && s.callers[e.u] == Checked(Next(s, e).cfg)
    ensures Next(s, e).port != s.port ==>
              && e.Finish? && e.u in s.callers && OwnPort(s.cfg, s.port) == Ok(Next(s, e).port)
              && Next(s, e).port.portNumber == s.cfg.portNumber
              && Next(s, e).port.clockIdentity ==
                 (if s.cfg.clockIdentity.Some? then s.cfg.clockIdentity.value else s.port.clockIdentity)
              && Next(s, e).intervalGen == s.intervalGen + 1
    ensures e.Check? && e.u in s.callers && s.callers[e.u].Staged? && !s.callers[e.u].cfg.Valid() ==>
              Next(s, e) == s.(callers := s.callers - {e.u})
  {
  }

  ghost predicate Follows(ss: seq<Shared>, es: seq<Step>, n: nat)
    requires |ss| == |es| + 1 && n < |es|
  {
    ss[n + 1] == Next(ss[n], es[n])
  }

  ghost predicate IsRun(ss: seq<Shared>, es: seq<Step>) {
    && |ss| == |es| + 1
    && ss[0].cfg.Valid() && ss[0].callers == map[] && ss[0].lock == None
    && forall n | 0 <= n < |es| :: Follows(ss, es, n)
  }

  /** However the callers interleave, the configuration stays valid and its restart-only fields
      are those the master started with. */
  lemma {:induction false} ConfigStaysValid(ss: seq<Shared>, es: seq<Step>, n: nat)
    requires IsRun(ss, es) && n <= |es|
    ensures Sound(ss[n], ss[0].cfg)
  {
    if n > 0 {
      ConfigStaysValid(ss, es, n - 1);
      assert Follows(ss, es, n - 1);
      StepKeepsSound(ss[n - 1], es[n - 1], ss[0].cfg);
    }
  }

  /** A call that no other overlaps, from its first step to its last. */
  function Call(s: Shared, u: nat, patch: seq<Change>): Shared {
    Next(Next(Next(Next(s, Begin(u, patch)), Check(u)), Store(u)), Finish(u))
  }

  /** Alone, a call applies its patch whole, or changes nothing when the patch is empty, names a field
      that it may not change, or does not validate. */
  lemma CallAppliesOrRejects(s: Shared, start: MasterConfig, u: nat, patch: seq<Change>)
    requires Sound(s, start) && s.callers == map[] && s.lock == None
    ensures var applies := patch != [] && AllAllowed(patch) && Patched(s.cfg, patch).Valid();
            Call(s, u, patch) ==
            if applies then Shared(Patched(s.cfg, patch), OwnPort(Patched(s.cfg, patch), s.port).Extract(),
                                   s.intervalGen + 1, map[], None)
            else s
  {
    if patch != [] && AllAllowed(patch) {
      assert map[u := Staged(Patched(s.cfg, patch))] - {u} == map[];
      assert map[u := Storing(Patched(s.cfg, patch))] - {u} == map[];
    }
  }

  /** A call of u's over these steps: it reads the configuration at step i and stores one at step j. */
  ghost predicate Spans(ss: seq<Shared>, es: seq<Step>, u: nat, patch: seq<Change>, i: nat, j: nat)
    requires |ss| == |es| + 1
  {
    && i < j < |es| && es[i] == Begin(u, patch) && es[j] == Store(u)
    && u !in ss[i].callers && ss[i].lock.None? && patch != [] && AllAllowed(patch)
    && (forall k | i < k <= j :: u in ss[k].callers)
    && ss[j].callers[u].Checked? && ss[j].lock.None?
  }

  /** What a call is about to store is the configuration it read, patched. */
  lemma {:induction false} StagedIsPatched(ss: seq<Shared>, es: seq<Step>, u: nat, patch: seq<Change>, i: nat, j: nat,
                                           k: nat)
    requires IsRun(ss, es) && Spans(ss, es, u, patch, i, j) && i < k <= j
    ensures ss[k].callers[u].cfg == Patched(ss[i].cfg, patch)
    decreases k
  {
    assert Follows(ss, es, k - 1);
    if k > i + 1 {
      StagedIsPatched(ss, es, u, patch, i, j, k - 1);
      assert u in ss[k - 1].callers && u in ss[k].callers;
    }
  }

  /** The fields a patch does not name that are the same in both configurations. */
  ghost predicate AgreeBeside(a: MasterConfig, b: MasterConfig, patch: seq<Change>)
    requires AllAllowed(patch)
  {
    forall f: Name | LastOf(patch, f).None? :: Setting(a, f) == Setting(b, f)
  }

  lemma PatchedAlikeIffAgreeBeside(a: MasterConfig, b: MasterConfig, patch: seq<Change>)
    requires AllAllowed(patch) && SameUntilRestart(a, b)
    ensures Patched(a, patch) == Patched(b, patch) <==> AgreeBeside(a, b, patch)
  {
    forall f: Name
      ensures Setting(Patched(a, patch), f) == Setting(Patched(b, patch), f)
              <==> LastOf(patch, f).Some? || Setting(a, f) == Setting(b, f)
    {
      PatchSetsItsFields(a, patch, f);
      PatchSetsItsFields(b, patch, f);
    }
    if AgreeBeside(a, b, patch) {
      PatchKeepsRestartFields(a, patch);
      PatchKeepsRestartFields(b, patch);
      FieldsAreAll(Patched(a, patch), Patched(b, patch));
    }
  }

  /** In any run a call applies its patch to the configuration in force exactly when every field it does
      not name is what it was when the call read it; a field not named keeps its value on just that
      condition, and otherwise goes back to the value read. */
  lemma AbsentKeysAreKeptIff(ss: seq<Shared>, es: seq<Step>, u: nat, patch: seq<Change>, i: nat, j: nat, f: Name)
    requires IsRun(ss, es) && Spans(ss, es, u, patch, i, j)
    ensures ss[j + 1].cfg == Patched(ss[j].cfg, patch) <==> AgreeBeside(ss[i].cfg, ss[j].cfg, patch)
    ensures Setting(ss[j + 1].cfg, f) == if LastOf(patch, f).Some? then LastOf(patch, f).value else Setting(ss[i].cfg, f)
  {
    StagedIsPatched(ss, es, u, patch, i, j, j);
    assert Follows(ss, es, j);
    ConfigStaysValid(ss, es, i);
    ConfigStaysValid(ss, es, j);
    PatchedAlikeIffAgreeBeside(ss[i].cfg, ss[j].cfg, patch);
    PatchSetsItsFields(ss[i].cfg, patch, f);
  }

  lemma {:induction false} NothingStored(ss: seq<Shared>, es: seq<Step>, i: nat, j: nat)
    requires IsRun(ss, es) && i <= j <= |es| && forall k | i <= k < j :: !es[k].Store?
    ensures ss[j].cfg == ss[i].cfg
    decreases j
  {
    if i < j {
      NothingStored(ss, es, i, j - 1);
      assert Follows(ss, es, j - 1);
    }
  }

  /** So it does whenever nobody else stores in between. */
  lemma AbsentKeysAreKeptUndisturbed(ss: seq<Shared>, es: seq<Step>, u: nat, patch: seq<Change>, i: nat, j: nat)
    requires IsRun(ss, es) && Spans(ss, es, u, patch, i, j) && forall k | i < k < j :: !es[k].Store?
    ensures ss[j + 1].cfg == Patched(ss[j].cfg, patch)
  {
    NothingStored(ss, es, i, j);
    AbsentKeysAreKeptIff(ss, es, u, patch, i, j, HeaderLinkName);
  }

  /** Not always: of two callers who read the same configuration the later one's priority1 is stored, and
      the earlier one's priority2, which it does not name, is lost. */
  lemma OverlappingCallsLoseOne(s: Shared)
    requires s.cfg.Valid() && s.callers == map[] && s.lock == None && s.cfg.priority2 != 7
    ensures var read := Next(Next(s, Begin(0, [SetPriority2(7)])), Begin(1, [SetPriority1(5)]));
            var first := Next(Next(Next(read, Check(0)), Store(0)), Finish(0));
            var r := Next(Next(first, Check(1)), Store(1));
            first.cfg.priority2 == 7 && r.cfg.priority1 == 5 && r.cfg.priority2 == s.cfg.priority2
  {
    OneChange(s.cfg, SetPriority2(7));
    OneChange(s.cfg, SetPriority1(5));
    TwoCallersWhoReadTheSame(s, [SetPriority2(7)], [SetPriority1(5)]);
  }

  lemma OneChange(cfg: MasterConfig, c: Change)
    requires c.Allowed()
    ensures AllAllowed([c]) && Patched(cfg, [c]) == Changed(cfg, c)
  {
    assert [c][..0] == [];
  }

  lemma TwoCallersWhoReadTheSame(s: Shared, p: seq<Change>, q: seq<Change>)
    requires s.callers == map[] && s.lock == None
    requires p != [] && AllAllowed(p) && Patched(s.cfg, p).Valid()
    requires q != [] && AllAllowed(q) && Patched(s.cfg, q).Valid()
    ensures var read := Next(Next(s, Begin(0, p)), Begin(1, q));
            var first := Next(Next(Next(read, Check(0)), Store(0)), Finish(0));
            && first.cfg == Patched(s.cfg, p)
            && Next(Next(first, Check(1)), Store(1)).cfg == Patched(s.cfg, q)
  {
  }
}

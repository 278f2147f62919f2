/** What the master makes of frames it hears: its own, and those of its slaves. */
module Loopback {
  import opened Outcomes
  import opened Octets
  import opened Timestamp
  import opened Header
  import opened Messages
  import opened Config
  import opened DelayMachine
  import X = TxMachine

  /** A whole header of version 2 in a domain of the master's; and such a one from another clock. */
  predicate Ours(cfg: MasterConfig, data: seq<octet>) {
    |data| >= HEADER_LEN && Nibbles(data[1]).1 == 2 && Num(data[4]) in EffectiveDomains(cfg)
  }

  predicate Foreign(cfg: MasterConfig, own: PortIdentity, data: seq<octet>) {
    Ours(cfg, data) && Some(data[20..28]) !in OwnIds(cfg, own)
  }

  /** The origin timestamp is there and its nanoseconds are less than a billion. */
  predicate WholeRequest(data: seq<octet>) {
    |data| >= 44 && FromBE(data[40..44]) < 1_000_000_000
  }

  /** What each class means in octets. */
  lemma ClassesInOctets(cfg: MasterConfig, own: PortIdentity, data: seq<octet>)
    ensures var c, long := Classify(cfg, own, data), |data| >= HEADER_LEN;
            && (c.BadVersion? <==> long && Nibbles(data[1]).1 != 2)
            && (c.OtherDomain? <==> long && Nibbles(data[1]).1 == 2 && !Ours(cfg, data))
            && (c.Ignored? <==> Ours(cfg, data) && (!Foreign(cfg, own, data) || Nibbles(data[0]).1 == ANNOUNCE))
            && (c.OtherType? <==> Foreign(cfg, own, data) && Nibbles(data[0]).1 !in {ANNOUNCE, DELAY_REQ})
            && (c.Request? <==> Foreign(cfg, own, data) && Nibbles(data[0]).1 == DELAY_REQ && WholeRequest(data))
            && (c.ParseError? <==>
                !long || (Foreign(cfg, own, data) && Nibbles(data[0]).1 == DELAY_REQ && !WholeRequest(data)))
  {
    if |data| >= HEADER_LEN {
      var front := data[0..8];
      assert front[0] == data[0] && front[1] == data[1] && front[4] == data[4];
      assert UnpackIdentity(data, 20).value.clockIdentity == data[20..28];
    }
  }

  /** What the master makes of a header with this domain, clock and type, one that is no Delay_Req. */
  function Reception(heard: MasterConfig, own: PortIdentity, domain: Value, clock: seq<octet>, messageType: int): Class {
    if domain !in EffectiveDomains(heard) then OtherDomain
    else if Some(clock) in OwnIds(heard, own) || messageType == ANNOUNCE then Ignored
    else OtherType
  }

  lemma HeardByHeader(heard: MasterConfig, own: PortIdentity, data: seq<octet>, h: PTPHeader)
    requires UnpackHeader(data) == Ok(h) && h.versionPtp == 2 && h.messageType != DELAY_REQ
    ensures Classify(heard, own, data) == Reception(heard, own, Num(h.domainNumber), h.source.clockIdentity, h.messageType)
  {
  }

  lemma OwnHeader(kind: X.Kind, c: X.Context, source: PortIdentity, padding: seq<octet>)
    requires X.ContextFits(c) && (kind.AnnounceMsg? ==> AnnounceFieldsFit(c.cfg))
    ensures var p := X.PayloadOf(kind, c, source);
            && p.Ok?
            && var h := UnpackHeader(p.value + padding);
               && h.Ok? && h.value.versionPtp == 2 && h.value.messageType == X.TypeOf(kind) && h.value.source == source
               && Num(h.value.domainNumber) == c.cfg.Effective(X.KeyOf(kind), DomainNumber)
  {
    var cfg, key := c.cfg, X.KeyOf(kind);
    HeaderFieldsFit(cfg, key);
    var domain, specific := cfg.Effective(key, DomainNumber).n, cfg.Effective(key, TransportSpecific).n;
    match kind
    case AnnounceMsg =>
      AnnounceBuildsIffFieldsFit(cfg, source, c.t, c.seqId);
      AnnounceReadable(source, domain, AnnounceBodyOf(cfg, source, c.t), c.seqId, cfg.logAnnounceInterval, specific,
                       cfg.announceFlags, padding);
    case SyncMsg =>
      SyncReadable(source, domain, c.t, c.seqId, cfg.logSyncInterval, cfg.twoStep, specific, cfg.syncFlags, padding);
    case FollowUpMsg =>
      FollowUpReadable(source, domain, c.t, c.seqId, cfg.logSyncInterval, specific, cfg.followUpFlags, padding);
  }

  /** A message of the master's that comes back to it, whatever the link appended and whatever updates
      came between building it and hearing it: by the configuration in force then, it is in another domain,
      ignored, or of another type. It is never counted a parse error or answered. */
  lemma OwnMessagesAreHeard(kind: X.Kind, c: X.Context, sourceCfg: MasterConfig, own: PortIdentity, heard: MasterConfig,
                            ownThen: PortIdentity, padding: seq<octet>)
    requires X.ContextFits(c) && sourceCfg.Valid() && (kind.AnnounceMsg? ==> AnnounceFieldsFit(c.cfg))
    ensures var p, source := X.Build(kind, c, sourceCfg, own), SourceFor(sourceCfg, own, X.KeyOf(kind));
            && p.Ok? && source.Ok?
            && Classify(heard, ownThen, p.value + padding) ==
               Reception(heard, ownThen, c.cfg.Effective(X.KeyOf(kind), DomainNumber), source.value.clockIdentity,
                         X.TypeOf(kind))
  {
    SourceAlwaysBuilds(sourceCfg, own, X.KeyOf(kind));
    var source := SourceFor(sourceCfg, own, X.KeyOf(kind)).value;
    OwnHeader(kind, c, source, padding);
    var data := X.PayloadOf(kind, c, source).value + padding;
    HeardByHeader(heard, ownThen, data, UnpackHeader(data).value);
  }

  /** So it is ignored while nothing has been updated in between. */
  lemma OwnMessagesAreIgnored(cfg: MasterConfig, own: PortIdentity, kind: X.Kind, c: X.Context, padding: seq<octet>)
    requires cfg.Valid() && c.cfg == cfg && X.ContextFits(c)
    requires kind.AnnounceMsg? ==> AnnounceFieldsFit(cfg)
    ensures var p := X.Build(kind, c, cfg, own); p.Ok? && Classify(cfg, own, p.value + padding) == Ignored
  {
    OwnMessagesAreHeard(kind, c, cfg, own, cfg, own, padding);
    SourceAlwaysBuilds(cfg, own, X.KeyOf(kind));
  }

  /** The same for its Delay_Resps. */
  lemma OwnDelayRespIsHeard(cfg: MasterConfig, sourceCfg: MasterConfig, own: PortIdentity, heard: MasterConfig,
                            ownThen: PortIdentity, t2: PTPTimestamp, requesting: PortIdentity, seqId: int,
                            padding: seq<octet>)
    requires cfg.Valid() && sourceCfg.Valid() && 0 <= seqId < 0x1_0000
    ensures var source := SourceFor(sourceCfg, own, DelayRespKey);
            && source.Ok?
            && var p := DelayRespPayload(cfg, source.value, t2, requesting, seqId);
               p.Ok? && Classify(heard, ownThen, p.value + padding) ==
                        Reception(heard, ownThen, cfg.Effective(DelayRespKey, DomainNumber), source.value.clockIdentity,
                                  DELAY_RESP)
  {
    SourceAlwaysBuilds(sourceCfg, own, DelayRespKey);
    HeaderFieldsFit(cfg, DelayRespKey);
    DelayRespReadable(SourceFor(sourceCfg, own, DelayRespKey).value, cfg.Effective(DelayRespKey, DomainNumber).n, t2,
                      requesting, seqId, cfg.delayRespUnicast, cfg.Effective(DelayRespKey, TransportSpecific).n,
                      cfg.delayRespFlags, padding);
  }

  lemma OwnDelayRespIsIgnored(cfg: MasterConfig, own: PortIdentity, t2: PTPTimestamp, requesting: PortIdentity, seqId: int,
                              padding: seq<octet>)
    requires cfg.Valid() && 0 <= seqId < 0x1_0000
    ensures var source := SourceFor(cfg, own, DelayRespKey);
            && source.Ok?
            && var p := DelayRespPayload(cfg, source.value, t2, requesting, seqId);
               p.Ok? && Classify(cfg, own, p.value + padding) == Ignored
  {
    OwnDelayRespIsHeard(cfg, cfg, own, cfg, own, t2, requesting, seqId, padding);
    SourceAlwaysBuilds(cfg, own, DelayRespKey);
  }

  /** A slave's Delay_Req is taken for a request exactly when it is in a domain the master uses and from
      a clock that is not the master's. */
  lemma DelayReqIsRequest(cfg: MasterConfig, own: PortIdentity, h: PTPHeader, origin: PTPTimestamp, padding: seq<octet>)
    requires h.Canonical() && h.Packable() && h.versionPtp == 2 && h.messageType == DELAY_REQ
    ensures var data := PackHeader(h).value + Pack10(origin) + padding;
            Classify(cfg, own, data) == Request(h) <==>
            && Num(h.domainNumber) in EffectiveDomains(cfg)
            && Some(h.source.clockIdentity) !in OwnIds(cfg, own)
  {
    var header, body := PackHeader(h).value, Pack10(origin) + padding;
    assert header + Pack10(origin) + padding == header + body;
    HeaderSurvivesIffCanonical(h, body);
    TimestampRoundTrip(origin, header, padding);
  }
}

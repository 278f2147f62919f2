/** The messages the grandmaster builds (IEEE 1588-2008, clauses 13.5 to 13.8) and
    the decoders of the receiving side. */
module Messages {
  import opened Outcomes
  import opened Octets
  import opened Seqs
  import opened Timestamp
  import opened Header

  const SYNC := 0x0
  const DELAY_REQ := 0x1
  const FOLLOW_UP := 0x8
  const DELAY_RESP := 0x9
  const ANNOUNCE := 0xB
  const SIGNALING := 0xC

  const FLAG_TWO_STEP := 0x200
  const FLAG_UNICAST := 0x400

  const SYNC_BODY_LEN := 10
  const ANNOUNCE_BODY_LEN := 30
  const DELAY_RESP_BODY_LEN := 20
  const DELAY_REQ_MSG_LEN := 44
  const LOG_INTERVAL_NA := 0x7F

  predicate HasFlag(flags: int, flag: int)
    requires flag > 0
  {
    flags / flag % 2 == 1
  }

  /** The flag field with one bit forced to the given value. */
  function WithFlag(flags: int, flag: int, on: bool): int
    requires flag > 0
  {
    flags - flags / flag % 2 * flag + (if on then flag else 0)
  }

  /** Two flag fields differ at most in one bit. */
  predicate SameButFor(a: int, b: int, flag: int)
    requires flag > 0
  {
    a / (2 * flag) == b / (2 * flag) && a % flag == b % flag
  }

  lemma TwoStepForced(flags: int, on: bool)
    requires 0 <= flags < 0x1_0000
    ensures var forced := WithFlag(flags, 0x200, on);
            0 <= forced < 0x1_0000 && HasFlag(forced, 0x200) == on && SameButFor(forced, flags, 0x200)
  {
    var q, low := flags / 0x400, flags % 0x200;
    assert flags / 0x200 == 2 * q + flags / 0x200 % 2;
    assert WithFlag(flags, 0x200, on) == 0x400 * q + (if on then 0x200 else 0) + low;
  }

  lemma UnicastForced(flags: int, on: bool)
    requires 0 <= flags < 0x1_0000
    ensures var forced := WithFlag(flags, 0x400, on);
            0 <= forced < 0x1_0000 && HasFlag(forced, 0x400) == on && SameButFor(forced, flags, 0x400)
  {
    var q, low := flags / 0x800, flags % 0x400;
    assert flags / 0x400 == 2 * q + flags / 0x400 % 2;
    assert WithFlag(flags, 0x400, on) == 0x800 * q + (if on then 0x400 else 0) + low;
  }

  // ---- Building ----

  function CommonHeader(messageType: int, domain: int, flags: int, source: PortIdentity, sequenceId: int,
                        control: int, logInterval: int, transportSpecific: int, bodyLen: int): PTPHeader {
    PTPHeader(messageType, 2, HEADER_LEN + bodyLen, domain, 0, flags % 0x1_0000, 0, source,
              sequenceId % 0x1_0000, control, logInterval, transportSpecific)
  }

  function SyncHeader(source: PortIdentity, domain: int, sequenceId: int, logInterval: int, twoStep: bool,
                      transportSpecific: int, flags: int): PTPHeader {
    CommonHeader(SYNC, domain, WithFlag(flags, FLAG_TWO_STEP, twoStep), source, sequenceId, 0x00, logInterval,
                 transportSpecific, SYNC_BODY_LEN)
  }

  function BuildSync(source: PortIdentity, domain: int, origin: PTPTimestamp, sequenceId: int, logInterval: int,
                     twoStep: bool, transportSpecific: int, flags: int): Result<seq<octet>> {
    var header :- PackHeader(SyncHeader(source, domain, sequenceId, logInterval, twoStep, transportSpecific, flags));
    Ok(header + Pack10(origin))
  }

  function FollowUpHeader(source: PortIdentity, domain: int, sequenceId: int, logInterval: int,
                          transportSpecific: int, flags: int): PTPHeader {
    CommonHeader(FOLLOW_UP, domain, WithFlag(flags, FLAG_TWO_STEP, true), source, sequenceId, 0x02, logInterval,
                 transportSpecific, SYNC_BODY_LEN)
  }

  function BuildFollowUp(source: PortIdentity, domain: int, precise: PTPTimestamp, sequenceId: int,
                         logInterval: int, transportSpecific: int, flags: int): Result<seq<octet>> {
    var header :- PackHeader(FollowUpHeader(source, domain, sequenceId, logInterval, transportSpecific, flags));
    Ok(header + Pack10(precise))
  }

  function DelayRespHeader(source: PortIdentity, domain: int, sequenceId: int, unicast: bool,
                           transportSpecific: int, flags: int): PTPHeader {
    CommonHeader(DELAY_RESP, domain, WithFlag(flags, FLAG_UNICAST, unicast), source, sequenceId, 0x03,
                 LOG_INTERVAL_NA, transportSpecific, DELAY_RESP_BODY_LEN)
  }

  function BuildDelayResp(source: PortIdentity, domain: int, receive: PTPTimestamp, requesting: PortIdentity,
                          sequenceId: int, unicast: bool, transportSpecific: int, flags: int): Result<seq<octet>> {
    var header :- PackHeader(DelayRespHeader(source, domain, sequenceId, unicast, transportSpecific, flags));
    Ok(header + (Pack10(receive) + PackIdentity(requesting)))
  }

  datatype AnnounceBody = AnnounceBody(
    origin: PTPTimestamp,
    currentUtcOffset: int,
    priority1: int,
    clockClass: int,
    clockAccuracy: int,
    offsetScaledLogVariance: int,
    priority2: int,
    grandmasterIdentity: seq<octet>,
    stepsRemoved: int,
    timeSource: int)
  {
    /** What the constructors of ClockQuality and AnnounceBody check. */
    predicate Constructible() {
      && 0 <= clockClass < 0x100
      && 0 <= clockAccuracy < 0x100
      && 0 <= offsetScaledLogVariance < 0x1_0000
      && |grandmasterIdentity| == 8
      && 0 <= stepsRemoved < 0x1_0000
    }

    /** What struct.pack requires besides: currentUtcOffset alone is masked. */
    predicate Packable() {
      0 <= priority1 < 0x100 && 0 <= priority2 < 0x100 && 0 <= timeSource < 0x100
    }
  }

  function AnnounceQuality(b: AnnounceBody): (s: seq<octet>)
    requires b.Constructible() && b.Packable()
    ensures |s| == 9
  {
    U16(b.currentUtcOffset % 0x1_0000) + [0, b.priority1, b.clockClass, b.clockAccuracy]
    + U16(b.offsetScaledLogVariance) + [b.priority2]
  }

  function AnnounceTail(b: AnnounceBody): (s: seq<octet>)
    requires b.Constructible() && b.Packable()
    ensures |s| == 3
  {
    U16(b.stepsRemoved) + [b.timeSource]
  }

  function PackAnnounceBody(b: AnnounceBody): (r: Result<seq<octet>>)
    ensures r.Ok? <==> b.Constructible() && b.Packable()
    ensures r.Ok? ==> |r.value| == ANNOUNCE_BODY_LEN
  {
    if !b.Constructible() then Raise(ValueError)
    else if !b.Packable() then Raise(StructError)
    else
      Ok(Pack10(b.origin) + AnnounceQuality(b) + b.grandmasterIdentity + AnnounceTail(b))
  }

  function UnpackAnnounceBody(data: seq<octet>, offset: nat): Result<AnnounceBody> {
    if |data| < offset + ANNOUNCE_BODY_LEN then Raise(ValueError)
    else
      var origin :- Unpack10(data, offset);
      Ok(AnnounceOf(origin, data[offset + 10..offset + 19], data[offset + 19..offset + 27], data[offset + 27..offset + 30]))
  }

  /** The body whose fields lie in these stretches of the message. */
  function AnnounceOf(origin: PTPTimestamp, quality: seq<octet>, grandmaster: seq<octet>, tail: seq<octet>): AnnounceBody
    requires |quality| == 9 && |tail| == 3
  {
    AnnounceBody(origin, Word(quality[0], quality[1]), quality[3], quality[4], quality[5], Word(quality[6], quality[7]),
                 quality[8], grandmaster, Word(tail[0], tail[1]), tail[2])
  }

  function BuildAnnounce(source: PortIdentity, domain: int, body: AnnounceBody, sequenceId: int, logInterval: int,
                         transportSpecific: int, flags: int): Result<seq<octet>> {
    var header :- PackHeader(CommonHeader(ANNOUNCE, domain, flags, source, sequenceId, 0x05, logInterval,
                                          transportSpecific, ANNOUNCE_BODY_LEN));
    var packed :- PackAnnounceBody(body);
    Ok(header + packed)
  }

  // ---- Reading ----

  function ParseSyncBody(data: seq<octet>, header: PTPHeader): Result<PTPTimestamp> {
    if |data| < header.messageLength then Raise(ValueError)
    else if header.messageLength < HEADER_LEN + 10 then Raise(ValueError)
    else Unpack10(data, HEADER_LEN)
  }

  function ParseFollowUpBody(data: seq<octet>, header: PTPHeader): Result<PTPTimestamp> {
    if header.messageLength < HEADER_LEN + 10 then Raise(ValueError) else Unpack10(data, HEADER_LEN)
  }

  datatype DelayRespBody = DelayRespBody(receive: PTPTimestamp, requesting: PortIdentity)

  function ParseDelayRespBody(data: seq<octet>, header: PTPHeader): Result<DelayRespBody> {
    if header.messageLength < HEADER_LEN + 20 then Raise(ValueError)
    else
      var receive :- Unpack10(data, HEADER_LEN);
      var requesting :- UnpackIdentity(data, HEADER_LEN + 10);
      Ok(DelayRespBody(receive, requesting))
  }

  datatype DelayReq = DelayReq(header: PTPHeader, origin: PTPTimestamp)

  function ParseDelayReq(data: seq<octet>): Result<DelayReq> {
    var header :- UnpackHeader(data);
    if header.messageType != DELAY_REQ then Raise(ValueError)
    else if |data| < DELAY_REQ_MSG_LEN then Raise(ValueError)
    else
      var origin :- Unpack10(data, HEADER_LEN);
      Ok(DelayReq(header, origin))
  }

  /** The client's test for the answer to the Delay_Req it sent with this sequence id. */
  predicate AcceptsDelayResp(domain: int, sequenceId: int, own: PortIdentity, header: PTPHeader, data: seq<octet>) {
    && header.domainNumber == domain
    && header.messageType == DELAY_RESP
    && header.sequenceId == sequenceId
    && (var body := ParseDelayRespBody(data, header); body.Ok? && body.value.requesting == own)
  }

  // ---- Round trips; `padding` stands for whatever the link appends to a short frame ----

  predicate FieldsFit(domain: int, sequenceId: int, logInterval: int, transportSpecific: int, flags: int) {
    && 0 <= domain < 0x100
    && 0 <= sequenceId < 0x1_0000
    && -128 <= logInterval < 128
    && 0 <= transportSpecific < 16
    && 0 <= flags < 0x1_0000
  }

  lemma CommonHeaderIsCanonical(messageType: int, domain: int, flags: int, source: PortIdentity, sequenceId: int,
                                control: int, logInterval: int, transportSpecific: int, bodyLen: int)
    requires FieldsFit(domain, sequenceId, logInterval, transportSpecific, flags)
    requires 0 <= messageType < 16 && 0 <= control < 0x80 && 0 <= bodyLen < 0x100
    ensures var h := CommonHeader(messageType, domain, flags, source, sequenceId, control, logInterval,
                                  transportSpecific, bodyLen);
            h.Canonical() && h.Packable() && h.flags == flags && h.sequenceId == sequenceId
  {
    SmallCorrection();
  }

  /** A message with a canonical header is read back. */
  lemma MessageReadable(h: PTPHeader, body: seq<octet>, padding: seq<octet>)
    requires h.Canonical() && h.Packable() && h.messageLength == HEADER_LEN + |body|
    ensures PackHeader(h).Ok? && |PackHeader(h).value + body| == h.messageLength
    ensures UnpackHeader(PackHeader(h).value + body + padding) == Ok(h)
  {
    HeaderSurvivesIffCanonical(h, body + padding);
    ConcatAssociative(PackHeader(h).value, body, padding);
  }

  lemma SmallCorrection()
    ensures FitsSigned(0, 8)
  {
  }

  lemma SyncReadable(source: PortIdentity, domain: int, origin: PTPTimestamp, sequenceId: int, logInterval: int,
                     twoStep: bool, transportSpecific: int, flags: int, padding: seq<octet>)
    requires FieldsFit(domain, sequenceId, logInterval, transportSpecific, flags)
    ensures var built := BuildSync(source, domain, origin, sequenceId, logInterval, twoStep, transportSpecific, flags);
            var h := SyncHeader(source, domain, sequenceId, logInterval, twoStep, transportSpecific, flags);
            && built.Ok? && |built.value| == h.messageLength
            && h == PTPHeader(SYNC, 2, 44, domain, 0, h.flags, 0, source, sequenceId, 0x00, logInterval, transportSpecific)
            && HasFlag(h.flags, FLAG_TWO_STEP) == twoStep && SameButFor(h.flags, flags, FLAG_TWO_STEP)
            && UnpackHeader(built.value + padding) == Ok(h)
            && ParseSyncBody(built.value + padding, h) == Ok(origin)
  {
    TwoStepForced(flags, twoStep);
    CommonHeaderIsCanonical(SYNC, domain, WithFlag(flags, FLAG_TWO_STEP, twoStep), source, sequenceId, 0x00, logInterval,
                            transportSpecific, SYNC_BODY_LEN);
    var h := SyncHeader(source, domain, sequenceId, logInterval, twoStep, transportSpecific, flags);
    MessageReadable(h, Pack10(origin), padding);
    TimestampRoundTrip(origin, PackHeader(h).value, padding);
  }

  lemma FollowUpReadable(source: PortIdentity, domain: int, precise: PTPTimestamp, sequenceId: int, logInterval: int,
                         transportSpecific: int, flags: int, padding: seq<octet>)
    requires FieldsFit(domain, sequenceId, logInterval, transportSpecific, flags)
    ensures var built := BuildFollowUp(source, domain, precise, sequenceId, logInterval, transportSpecific, flags);
            var h := FollowUpHeader(source, domain, sequenceId, logInterval, transportSpecific, flags);
            && built.Ok? && |built.value| == h.messageLength
            && h == PTPHeader(FOLLOW_UP, 2, 44, domain, 0, h.flags, 0, source, sequenceId, 0x02, logInterval, transportSpecific)
            && HasFlag(h.flags, FLAG_TWO_STEP) && SameButFor(h.flags, flags, FLAG_TWO_STEP)
            && UnpackHeader(built.value + padding) == Ok(h)
            && ParseFollowUpBody(built.value + padding, h) == Ok(precise)
  {
    TwoStepForced(flags, true);
    CommonHeaderIsCanonical(FOLLOW_UP, domain, WithFlag(flags, FLAG_TWO_STEP, true), source, sequenceId, 0x02, logInterval,
                            transportSpecific, SYNC_BODY_LEN);
    var h := FollowUpHeader(source, domain, sequenceId, logInterval, transportSpecific, flags);
    MessageReadable(h, Pack10(precise), padding);
    TimestampRoundTrip(precise, PackHeader(h).value, padding);
  }

  lemma DelayRespBodyReadable(front: seq<octet>, receive: PTPTimestamp, requesting: PortIdentity, padding: seq<octet>,
                              h: PTPHeader)
    requires |front| == HEADER_LEN && h.messageLength == HEADER_LEN + 20
    ensures ParseDelayRespBody(front + (Pack10(receive) + PackIdentity(requesting)) + padding, h)
            == Ok(DelayRespBody(receive, requesting))
  {
    var ts, id := Pack10(receive), PackIdentity(requesting);
    var data := front + (ts + id) + padding;
    TimestampRoundTrip(receive, front, id + padding);
    assert data == front + ts + (id + padding);
    IdentityRoundTrip(requesting, front + ts, padding);
    assert data == (front + ts) + id + padding;
  }

  lemma DelayRespReadable(source: PortIdentity, domain: int, receive: PTPTimestamp, requesting: PortIdentity,
                          sequenceId: int, unicast: bool, transportSpecific: int, flags: int, padding: seq<octet>)
    requires FieldsFit(domain, sequenceId, LOG_INTERVAL_NA, transportSpecific, flags)
    ensures var built := BuildDelayResp(source, domain, receive, requesting, sequenceId, unicast, transportSpecific, flags);
            var h := DelayRespHeader(source, domain, sequenceId, unicast, transportSpecific, flags);
            && built.Ok? && |built.value| == h.messageLength
            && h == PTPHeader(DELAY_RESP, 2, 54, domain, 0, h.flags, 0, source, sequenceId, 0x03, 0x7F, transportSpecific)
            && HasFlag(h.flags, FLAG_UNICAST) == unicast && SameButFor(h.flags, flags, FLAG_UNICAST)
            && UnpackHeader(built.value + padding) == Ok(h)
            && ParseDelayRespBody(built.value + padding, h) == Ok(DelayRespBody(receive, requesting))
  {
    UnicastForced(flags, unicast);
    CommonHeaderIsCanonical(DELAY_RESP, domain, WithFlag(flags, FLAG_UNICAST, unicast), source, sequenceId, 0x03,
                            LOG_INTERVAL_NA, transportSpecific, DELAY_RESP_BODY_LEN);
    var h := DelayRespHeader(source, domain, sequenceId, unicast, transportSpecific, flags);
    MessageReadable(h, Pack10(receive) + PackIdentity(requesting), padding);
    DelayRespBodyReadable(PackHeader(h).value, receive, requesting, padding, h);
  }

  /** A Delay_Resp is taken by exactly one waiting client: the one in its domain that sent
      a request with its sequence id from the port identity it answers. */
  lemma DelayRespTakenByItsRequester(
    source: PortIdentity, domain: int, receive: PTPTimestamp, requesting: PortIdentity, sequenceId: int, unicast: bool,
    transportSpecific: int, flags: int, padding: seq<octet>, clientDomain: int, clientSeq: int, client: PortIdentity)
    requires FieldsFit(domain, sequenceId, LOG_INTERVAL_NA, transportSpecific, flags)
    ensures var built := BuildDelayResp(source, domain, receive, requesting, sequenceId, unicast, transportSpecific, flags);
            && built.Ok?
            && UnpackHeader(built.value + padding).Ok?
            && (AcceptsDelayResp(clientDomain, clientSeq, client, UnpackHeader(built.value + padding).value, built.value + padding)
                <==> clientDomain == domain && clientSeq == sequenceId && client == requesting)
  {
    DelayRespReadable(source, domain, receive, requesting, sequenceId, unicast, transportSpecific, flags, padding);
  }

  lemma AnnounceBodyRoundTrip(b: AnnounceBody, before: seq<octet>, padding: seq<octet>)
    requires b.Constructible() && b.Packable()
    ensures UnpackAnnounceBody(before + PackAnnounceBody(b).value + padding, |before|)
            == Ok(b.(currentUtcOffset := b.currentUtcOffset % 0x1_0000))
  {
    var k := |before|;
    var ts, quality, last := Pack10(b.origin), AnnounceQuality(b), AnnounceTail(b);
    var data := before + PackAnnounceBody(b).value + padding;
    assert data == before + ts + (quality + b.grandmasterIdentity + last + padding);
    TimestampRoundTrip(b.origin, before, quality + b.grandmasterIdentity + last + padding);
    assert data[k + 10..k + 19] == quality && data[k + 19..k + 27] == b.grandmasterIdentity && data[k + 27..k + 30] == last;
  }

  /** An Announce is recovered whole exactly when its UTC offset fits an unsigned field. */
  lemma AnnounceReadable(source: PortIdentity, domain: int, b: AnnounceBody, sequenceId: int, logInterval: int,
                         transportSpecific: int, flags: int, padding: seq<octet>)
    requires FieldsFit(domain, sequenceId, logInterval, transportSpecific, flags)
    requires b.Constructible() && b.Packable()
    ensures var built := BuildAnnounce(source, domain, b, sequenceId, logInterval, transportSpecific, flags);
            var h := PTPHeader(ANNOUNCE, 2, 64, domain, 0, flags, 0, source, sequenceId, 0x05, logInterval, transportSpecific);
            && built.Ok? && |built.value| == h.messageLength
            && UnpackHeader(built.value + padding) == Ok(h)
            && (UnpackAnnounceBody(built.value + padding, HEADER_LEN) == Ok(b)
                <==> 0 <= b.currentUtcOffset < 0x1_0000)
  {
    var body := PackAnnounceBody(b).value;
    CommonHeaderIsCanonical(ANNOUNCE, domain, flags, source, sequenceId, 0x05, logInterval, transportSpecific,
                            ANNOUNCE_BODY_LEN);
    var h := CommonHeader(ANNOUNCE, domain, flags, source, sequenceId, 0x05, logInterval, transportSpecific,
                          ANNOUNCE_BODY_LEN);
    MessageReadable(h, body, padding);
    AnnounceBodyRoundTrip(b, PackHeader(h).value, padding);
  }
}

/** PortIdentity and the 34-octet common header (IEEE 1588-2008, clause 13.3). */
module Header {
  import opened Outcomes
  import opened Octets

  const HEADER_LEN := 34

  datatype IdentityPair = IdentityPair(clockIdentity: seq<octet>, portNumber: int) {
    /** What the constructor of the source checks. */
    predicate Valid() {
      |clockIdentity| == 8 && 0 <= portNumber < 0x1_0000
    }
  }

  type PortIdentity = p: IdentityPair | p.Valid() witness IdentityPair([0, 0, 0, 0, 0, 0, 0, 0], 0)

  function MakePortIdentity(clockIdentity: seq<octet>, portNumber: int): Result<PortIdentity> {
    var p := IdentityPair(clockIdentity, portNumber);
    if p.Valid() then Ok(p) else Raise(ValueError)
  }

  function PackIdentity(p: PortIdentity): (s: seq<octet>)
    ensures |s| == 10
  {
    p.clockIdentity + U16(p.portNumber)
  }

  function UnpackIdentity(data: seq<octet>, offset: nat): (r: Result<PortIdentity>)
    ensures r.Ok? <==> |data| >= offset + 10
  {
    if |data| < offset + 10 then Raise(ValueError)
    else Ok(IdentityPair(data[offset..offset + 8], Word(data[offset + 8], data[offset + 9])))
  }

  lemma IdentityRoundTrip(p: PortIdentity, before: seq<octet>, after: seq<octet>)
    ensures UnpackIdentity(before + PackIdentity(p) + after, |before|) == Ok(p)
  {
    var data, k := before + PackIdentity(p) + after, |before|;
    assert data[k..k + 8] == p.clockIdentity;
    assert data[k + 8..k + 10] == U16(p.portNumber);
  }

  lemma IdentityReadBack(data: seq<octet>, offset: nat)
    requires |data| >= offset + 10
    ensures PackIdentity(UnpackIdentity(data, offset).value) == data[offset..offset + 10]
  {
    var s := data[offset..offset + 10];
    assert s == data[offset..offset + 8] + [data[offset + 8], data[offset + 9]];
    U16OfWord(data[offset + 8], data[offset + 9]);
  }

  /** The two signed fields are packed from 128 to 255 as the octet that spells them. */
  function AsSigned(v: int): int {
    if v < 128 then v else v - 0x100
  }

  /** The fields hold what the caller put there; nothing forces them into their wire widths. */
  datatype PTPHeader = PTPHeader(
    messageType: int,
    versionPtp: int,
    messageLength: int,
    domainNumber: int,
    minorSdoId: int,
    flags: int,
    correctionField: int,
    source: PortIdentity,
    sequenceId: int,
    controlField: int,
    logMessageInterval: int,
    transportSpecific: int)
  {
    /** Every field is in the range that unpacking produces. */
    predicate Canonical() {
      && 0 <= messageType < 16
      && 0 <= versionPtp < 16
      && 0 <= messageLength < 0x1_0000
      && 0 <= domainNumber < 0x100
      && 0 <= minorSdoId < 16
      && 0 <= flags < 0x1_0000
      && FitsSigned(correctionField, 8)
      && 0 <= sequenceId < 0x1_0000
      && 0 <= controlField < 0x100
      && -128 <= logMessageInterval < 128
      && 0 <= transportSpecific < 16
    }

    /** The three fields that are packed without a mask. */
    predicate Packable() {
      && FitsSigned(correctionField, 8)
      && -128 <= controlField < 384
      && -128 <= logMessageInterval < 384
    }

    /** What a receiver sees of this header. */
    function OnTheWire(): PTPHeader {
      PTPHeader(
        messageType % 16, versionPtp % 16, messageLength % 0x1_0000, domainNumber % 0x100, minorSdoId % 16,
        flags % 0x1_0000, correctionField, source, sequenceId % 0x1_0000, controlField % 0x100,
        AsSigned(logMessageInterval), transportSpecific % 16)
    }
  }

  function PackFront(h: PTPHeader): (s: seq<octet>)
    ensures |s| == 8
  {
    [16 * (h.transportSpecific % 16) + h.messageType % 16, 16 * (h.minorSdoId % 16) + h.versionPtp % 16]
    + U16(h.messageLength % 0x1_0000) + [h.domainNumber % 0x100, 0] + U16(h.flags % 0x1_0000)
  }

  function PackTail(h: PTPHeader): (s: seq<octet>)
    requires h.Packable()
    ensures |s| == 4
  {
    U16(h.sequenceId % 0x1_0000) + [SignedByte(AsSigned(h.controlField)), SignedByte(AsSigned(h.logMessageInterval))]
  }

  function PackHeader(h: PTPHeader): (r: Result<seq<octet>>)
    ensures r.Ok? <==> h.Packable()
    ensures r.Ok? ==> |r.value| == HEADER_LEN
  {
    if !h.Packable() then Raise(StructError)
    else Ok(PackFront(h) + (Uint(h.correctionField, 8) + [0, 0, 0, 0]) + PackIdentity(h.source) + PackTail(h))
  }

  /** The header whose fields lie in these stretches of the message. */
  function HeaderOf(front: seq<octet>, correction: seq<octet>, source: PortIdentity, tail: seq<octet>): PTPHeader
    requires |front| == 8 && |correction| == 8 && |tail| == 4
  {
    var (transportSpecific, messageType) := Nibbles(front[0]);
    var (minorSdoId, versionPtp) := Nibbles(front[1]);
    PTPHeader(
      messageType, versionPtp, Word(front[2], front[3]), front[4], minorSdoId, Word(front[6], front[7]),
      FromSigned(correction), source, Word(tail[0], tail[1]), tail[2], SignedOctet(tail[3]), transportSpecific)
  }

  function UnpackHeader(data: seq<octet>): (r: Result<PTPHeader>)
    ensures r.Ok? <==> |data| >= HEADER_LEN
  {
    if |data| < HEADER_LEN then Raise(ValueError)
    else Ok(HeaderOf(data[0..8], data[8..16], UnpackIdentity(data, 20).value, data[30..34]))
  }

  lemma NibblesOf(hi: int, lo: int)
    requires 0 <= hi < 16 && 0 <= lo < 16
    ensures Nibbles(16 * hi + lo) == (hi, lo)
  {
  }

  lemma FrontFields(h: PTPHeader)
    ensures var front := PackFront(h);
            && Nibbles(front[0]) == (h.transportSpecific % 16, h.messageType % 16)
            && Nibbles(front[1]) == (h.minorSdoId % 16, h.versionPtp % 16)
            && Word(front[2], front[3]) == h.messageLength % 0x1_0000 && front[4] == h.domainNumber % 0x100
            && Word(front[6], front[7]) == h.flags % 0x1_0000
  {
    NibblesOf(h.transportSpecific % 16, h.messageType % 16);
    NibblesOf(h.minorSdoId % 16, h.versionPtp % 16);
  }

  lemma TailFields(h: PTPHeader)
    requires h.Packable()
    ensures var tail := PackTail(h);
            && Word(tail[0], tail[1]) == h.sequenceId % 0x1_0000 && tail[2] == h.controlField % 0x100
            && SignedOctet(tail[3]) == AsSigned(h.logMessageInterval)
  {
  }

  lemma FieldsRoundTrip(h: PTPHeader)
    requires h.Packable()
    ensures HeaderOf(PackFront(h), Uint(h.correctionField, 8), h.source, PackTail(h)) == h.OnTheWire()
  {
    FrontFields(h);
    TailFields(h);
    SignedRoundTrip(h.correctionField, 8);
  }

  lemma Pieces(front: seq<octet>, correction: seq<octet>, zeros: seq<octet>, id: seq<octet>, tail: seq<octet>, body: seq<octet>)
    requires |front| == 8 && |correction| == 8 && |zeros| == 4 && |id| == 10 && |tail| == 4
    ensures var data := front + (correction + zeros) + id + tail + body;
            && data[0..8] == front && data[8..16] == correction && data[16..20] == zeros && data[30..34] == tail
            && data == (front + (correction + zeros)) + id + (tail + body)
  {
  }

  /** A packed header followed by anything unpacks to exactly what OnTheWire says. */
  lemma HeaderRoundTrip(h: PTPHeader, body: seq<octet>)
    requires h.Packable()
    ensures UnpackHeader(PackHeader(h).value + body) == Ok(h.OnTheWire())
  {
    var front, middle := PackFront(h), Uint(h.correctionField, 8) + [0, 0, 0, 0];
    Pieces(front, Uint(h.correctionField, 8), [0, 0, 0, 0], PackIdentity(h.source), PackTail(h), body);
    IdentityRoundTrip(h.source, front + middle, PackTail(h) + body);
    FieldsRoundTrip(h);
  }

  lemma CanonicalIsUnchanged(h: PTPHeader)
    requires h.Packable()
    ensures h.OnTheWire() == h <==> h.Canonical()
  {
  }

  /** The header survives the wire, whatever follows it, exactly when it is canonical. */
  lemma HeaderSurvivesIffCanonical(h: PTPHeader, body: seq<octet>)
    requires h.Packable()
    ensures UnpackHeader(PackHeader(h).value + body) == Ok(h) <==> h.Canonical()
  {
    HeaderRoundTrip(h, body);
    CanonicalIsUnchanged(h);
  }

  /** Where the standard puts the fields (clause 13.3.1): the first eight octets and the last four. */
  predicate FrontLaidOut(front: seq<octet>, h: PTPHeader)
    requires |front| == 8
  {
    && front[0] == 16 * h.transportSpecific + h.messageType && front[1] == 16 * h.minorSdoId + h.versionPtp
    && Word(front[2], front[3]) == h.messageLength && front[4] == h.domainNumber && front[5] == 0
    && Word(front[6], front[7]) == h.flags
  }

  predicate TailLaidOut(tail: seq<octet>, h: PTPHeader)
    requires |tail| == 4
  {
    && Word(tail[0], tail[1]) == h.sequenceId && tail[2] == h.controlField
    && SignedOctet(tail[3]) == h.logMessageInterval
  }

  predicate LaidOut(data: seq<octet>, h: PTPHeader)
    requires |data| == HEADER_LEN
  {
    && FrontLaidOut(data[0..8], h) && FromSigned(data[8..16]) == h.correctionField && data[16..20] == [0, 0, 0, 0]
    && data[20..28] == h.source.clockIdentity && Word(data[28], data[29]) == h.source.portNumber
    && TailLaidOut(data[30..34], h)
  }

  lemma FrontIsLaidOut(h: PTPHeader)
    requires h.Canonical()
    ensures FrontLaidOut(PackFront(h), h)
  {
    MaskKeeps(h.transportSpecific, 16);
    MaskKeeps(h.messageType, 16);
    MaskKeeps(h.minorSdoId, 16);
    MaskKeeps(h.versionPtp, 16);
    MaskKeeps(h.messageLength, 0x1_0000);
    MaskKeeps(h.flags, 0x1_0000);
  }

  lemma TailIsLaidOut(h: PTPHeader)
    requires h.Canonical() && h.Packable()
    ensures TailLaidOut(PackTail(h), h)
  {
    TailFields(h);
    MaskKeeps(h.sequenceId, 0x1_0000);
    MaskKeeps(h.controlField, 0x100);
  }

  /** A canonical header is packed as the standard lays it out. */
  lemma PackedHeaderIsLaidOut(h: PTPHeader)
    requires h.Canonical() && h.Packable()
    ensures LaidOut(PackHeader(h).value, h)
  {
    var id, data := PackIdentity(h.source), PackHeader(h).value;
    Pieces(PackFront(h), Uint(h.correctionField, 8), [0, 0, 0, 0], id, PackTail(h), []);
    assert data + [] == data;
    assert data[20..28] == h.source.clockIdentity && data[28] == id[8] && data[29] == id[9];
    FrontIsLaidOut(h);
    TailIsLaidOut(h);
    SignedRoundTrip(h.correctionField, 8);
  }

  /** The first 34 octets with the five reserved ones cleared. */
  function ReservedCleared(data: seq<octet>): (s: seq<octet>)
    requires |data| >= HEADER_LEN
    ensures |s| == HEADER_LEN
  {
    data[0..8][5 := 0] + (data[8..16] + [0, 0, 0, 0]) + data[20..30] + data[30..34]
  }

  /** A field already in its range is not changed by its mask. */
  lemma MaskKeeps(v: int, m: int)
    requires 0 <= v < m
    ensures v % m == v
  {
  }

  lemma FrontReadBack(front: seq<octet>, h: PTPHeader)
    requires |front| == 8
    requires (h.transportSpecific, h.messageType) == Nibbles(front[0])
    requires (h.minorSdoId, h.versionPtp) == Nibbles(front[1])
    requires h.messageLength == Word(front[2], front[3]) && h.domainNumber == front[4]
    requires h.flags == Word(front[6], front[7])
    ensures PackFront(h) == front[5 := 0]
  {
    U16OfWord(front[2], front[3]);
    U16OfWord(front[6], front[7]);
    MaskKeeps(h.transportSpecific, 16);
    MaskKeeps(h.messageType, 16);
    MaskKeeps(h.minorSdoId, 16);
    MaskKeeps(h.versionPtp, 16);
    MaskKeeps(h.messageLength, 0x1_0000);
    MaskKeeps(h.flags, 0x1_0000);
    MaskKeeps(h.domainNumber, 0x100);
  }

  lemma SignedBack(o: octet)
    ensures SignedByte(AsSigned(o)) == o && AsSigned(SignedOctet(o)) == SignedOctet(o)
  {
  }

  lemma TailReadBack(tail: seq<octet>, h: PTPHeader)
    requires |tail| == 4
    requires h.sequenceId == Word(tail[0], tail[1]) && h.controlField == tail[2]
    requires h.logMessageInterval == SignedOctet(tail[3]) && h.Packable()
    ensures PackTail(h) == tail
  {
    U16OfWord(tail[0], tail[1]);
    MaskKeeps(h.sequenceId, 0x1_0000);
    SignedBack(tail[2]);
    SignedBack(tail[3]);
    assert tail == [tail[0], tail[1]] + [tail[2], tail[3]];
  }

  /** Any 34 octets unpack to a canonical header, which packs to the same octets again
      with the reserved ones cleared. */
  lemma HeaderReadBack(data: seq<octet>)
    requires |data| >= HEADER_LEN
    ensures UnpackHeader(data).value.Canonical()
    ensures PackHeader(UnpackHeader(data).value) == Ok(ReservedCleared(data))
  {
    var h := UnpackHeader(data).value;
    SignedReadBack(data[8..16], 8);
    FrontReadBack(data[0..8], h);
    TailReadBack(data[30..34], h);
    IdentityReadBack(data, 20);
  }
}

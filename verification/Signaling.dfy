/** Signalling TLVs for unicast negotiation (IEEE 1588-2008, clauses 14.1 and 16.1). */
module Signaling {
  import opened Outcomes
  import opened Octets
  import opened Seqs
  import opened Header
  import opened Messages

  const TLV_REQUEST_UNICAST := 0x0004
  const TLV_GRANT_UNICAST := 0x0005
  const BODY_START := 44

  datatype Tlv = Tlv(typ: int, value: seq<octet>) {
    predicate Valid() {
      0 <= typ < 0x1_0000 && |value| < 0x1_0000
    }
  }

  predicate AllValid(ts: seq<Tlv>) {
    forall i | 0 <= i < |ts| :: ts[i].Valid()
  }

  function EncodeTlv(t: Tlv): (s: seq<octet>)
    requires t.Valid()
    ensures |s| == 4 + |t.value|
  {
    U16(t.typ) + U16(|t.value|) + t.value
  }

  function EncodeAll(ts: seq<Tlv>): seq<octet>
    requires AllValid(ts)
  {
    if ts == [] then [] else EncodeTlv(ts[0]) + EncodeAll(ts[1..])
  }

  lemma EncodeCons(t: Tlv, ts: seq<Tlv>)
    requires t.Valid() && AllValid(ts)
    ensures AllValid([t] + ts) && EncodeAll([t] + ts) == EncodeTlv(t) + EncodeAll(ts)
  {
    assert ([t] + ts)[1..] == ts;
  }

  /** No whole TLV begins at the start of s. */
  predicate NoWholeTlv(s: seq<octet>) {
    |s| < 4 || 4 + Word(s[2], s[3]) > |s|
  }

  /** The whole TLV at an offset, if there is one. */
  function TlvAt(data: seq<octet>, off: nat): (r: Option<Tlv>)
    ensures r.Some? ==> r.value.Valid() && off + 4 + |r.value.value| <= |data|
  {
    if off + 4 > |data| then None
    else
      var ln := Word(data[off + 2], data[off + 3]);
      if off + 4 + ln > |data| then None
      else Some(Tlv(Word(data[off], data[off + 1]), data[off + 4..off + 4 + ln]))
  }

  /** What iterating over the TLVs of a message from an offset yields. */
  function TlvsFrom(data: seq<octet>, off: nat): (ts: seq<Tlv>)
    ensures AllValid(ts)
    decreases |data| - off
  {
    var t := TlvAt(data, off);
    if t.None? then [] else [t.value] + TlvsFrom(data, off + 4 + |t.value.value|)
  }

  method IterTlvs(data: seq<octet>, bodyStart: nat) returns (ts: seq<Tlv>)
    ensures ts == TlvsFrom(data, bodyStart)
  {
    ts := [];
    var off := bodyStart;
    while off + 4 <= |data|
      invariant ts + TlvsFrom(data, off) == TlvsFrom(data, bodyStart)
      decreases |data| - off
    {
      var typ, ln := Word(data[off], data[off + 1]), Word(data[off + 2], data[off + 3]);
      if off + 4 + ln > |data| {
        return;
      }
      var t := Tlv(typ, data[off + 4..off + 4 + ln]);
      assert TlvAt(data, off) == Some(t);
      ConcatAssociative(ts, [t], TlvsFrom(data, off + 4 + ln));
      ts := ts + [t];
      off := off + 4 + ln;
    }
  }

  lemma TlvAtSuffix(before: seq<octet>, data: seq<octet>, off: nat)
    ensures TlvAt(before + data, |before| + off) == TlvAt(data, off)
  {
    var whole, k := before + data, |before|;
    if off + 4 <= |data| {
      assert whole[k + off] == data[off] && whole[k + off + 1] == data[off + 1];
      assert whole[k + off + 2] == data[off + 2] && whole[k + off + 3] == data[off + 3];
      var end := off + 4 + Word(data[off + 2], data[off + 3]);
      if end <= |data| {
        assert whole[k + off + 4..k + end] == data[off + 4..end];
      }
    }
  }

  lemma {:induction false} TlvsFromSuffix(before: seq<octet>, data: seq<octet>, off: nat)
    ensures TlvsFrom(before + data, |before| + off) == TlvsFrom(data, off)
    decreases |data| - off
  {
    TlvAtSuffix(before, data, off);
    var t := TlvAt(data, off);
    if t.Some? {
      TlvsFromSuffix(before, data, off + 4 + |t.value.value|);
    }
  }

  lemma TlvSpelledOut(a: octet, b: octet, c: octet, d: octet, value: seq<octet>, rest: seq<octet>)
    requires Word(c, d) == |value|
    ensures TlvAt([a, b, c, d] + value + rest, 0) == Some(Tlv(Word(a, b), value))
  {
    assert ([a, b, c, d] + value + rest)[4..4 + |value|] == value;
  }

  lemma EncodedTlvIsFound(t: Tlv, rest: seq<octet>)
    requires t.Valid()
    ensures TlvAt(EncodeTlv(t) + rest, 0) == Some(t)
  {
    var a, b := U16(t.typ), U16(|t.value|);
    assert EncodeTlv(t) == [a[0], a[1], b[0], b[1]] + t.value;
    TlvSpelledOut(a[0], a[1], b[0], b[1], t.value, rest);
  }

  lemma FoundTlvEncodes(data: seq<octet>, off: nat)
    requires TlvAt(data, off).Some?
    ensures var t := TlvAt(data, off).value; EncodeTlv(t) == data[off..off + 4 + |t.value|]
  {
    U16OfWord(data[off], data[off + 1]);
    U16OfWord(data[off + 2], data[off + 3]);
  }

  lemma FirstTlvThenRest(t: Tlv, rest: seq<octet>)
    requires t.Valid()
    ensures TlvsFrom(EncodeTlv(t) + rest, 0) == [t] + TlvsFrom(rest, 0)
  {
    EncodedTlvIsFound(t, rest);
    TlvsFromSuffix(EncodeTlv(t), rest, 0);
  }

  /** Iterating over concatenated TLVs returns them, then whatever the rest holds. */
  lemma {:induction false} TlvsRoundTrip(ts: seq<Tlv>, rest: seq<octet>)
    requires AllValid(ts)
    ensures TlvsFrom(EncodeAll(ts) + rest, 0) == ts + TlvsFrom(rest, 0)
  {
    if ts == [] {
      assert EncodeAll(ts) + rest == rest;
    } else {
      var t, others := ts[0], ts[1..];
      assert ts == [t] + others;
      EncodeCons(t, others);
      ConcatAssociative(EncodeTlv(t), EncodeAll(others), rest);
      FirstTlvThenRest(t, EncodeAll(others) + rest);
      TlvsRoundTrip(others, rest);
      ConcatAssociative([t], others, TlvsFrom(rest, 0));
    }
  }

  lemma NoTlvFound(data: seq<octet>, off: nat)
    requires off <= |data| && TlvAt(data, off).None?
    ensures NoWholeTlv(data[off..])
  {
  }

  lemma TlvInFront(data: seq<octet>, off: nat, ts: seq<Tlv>, rest: seq<octet>)
    requires TlvAt(data, off).Some? && AllValid(ts)
    requires data[off + 4 + |TlvAt(data, off).value.value|..] == EncodeAll(ts) + rest
    ensures AllValid([TlvAt(data, off).value] + ts)
    ensures data[off..] == EncodeAll([TlvAt(data, off).value] + ts) + rest
  {
    var t := TlvAt(data, off).value;
    FoundTlvEncodes(data, off);
    SliceSplits(data, off, off + 4 + |t.value|);
    EncodeCons(t, ts);
    ConcatAssociative(EncodeTlv(t), EncodeAll(ts), rest);
  }

  /** Over any octets, the TLVs found encode to a prefix whose remainder starts no whole TLV. */
  lemma {:induction false} TlvsSplitData(data: seq<octet>, off: nat) returns (rest: seq<octet>)
    requires off <= |data|
    ensures data[off..] == EncodeAll(TlvsFrom(data, off)) + rest
    ensures NoWholeTlv(rest)
    decreases |data| - off
  {
    var t := TlvAt(data, off);
    if t.None? {
      rest := data[off..];
      NoTlvFound(data, off);
      assert EncodeAll([]) + rest == rest;
    } else {
      var next := off + 4 + |t.value.value|;
      rest := TlvsSplitData(data, next);
      TlvInFront(data, off, TlvsFrom(data, next), rest);
    }
  }

  predicate Splits(s: seq<octet>, ts: seq<Tlv>, rest: seq<octet>) {
    AllValid(ts) && s == EncodeAll(ts) + rest && NoWholeTlv(rest)
  }

  lemma ReadingIsFound(data: seq<octet>, off: nat, ts: seq<Tlv>, rest: seq<octet>)
    requires off <= |data| && Splits(data[off..], ts, rest)
    ensures TlvsFrom(data, off) == ts
  {
    TlvsRoundTrip(ts, rest);
    assert data == data[..off] + data[off..];
    TlvsFromSuffix(data[..off], data[off..], 0);
    assert TlvAt(rest, 0).None?;
    assert ts + [] == ts;
  }

  /** So iterating computes the one way to read the octets as TLVs and a remainder. */
  lemma TlvsFromIsTheOnlyReading(data: seq<octet>, off: nat, ts: seq<Tlv>)
    requires off <= |data|
    ensures TlvsFrom(data, off) == ts <==> exists rest :: Splits(data[off..], ts, rest)
  {
    if TlvsFrom(data, off) == ts {
      var rest := TlvsSplitData(data, off);
      assert Splits(data[off..], ts, rest);
    }
    if rest :| Splits(data[off..], ts, rest) {
      ReadingIsFound(data, off, ts, rest);
    }
  }

  // ---- Grants ----

  datatype ParsedGrant = ParsedGrant(messageType: int, logPeriod: int, durationSec: int, flags: int)

  function ParseRequestValue(value: seq<octet>): Result<ParsedGrant> {
    if |value| < 6 then Raise(ValueError)
    else Ok(ParsedGrant(Nibbles(value[0]).0, SignedOctet(value[1]), FromBE(value[2..6]), 0))
  }

  function ParseGrantValue(value: seq<octet>): Result<ParsedGrant> {
    if |value| < 8 then Raise(ValueError)
    else Ok(ParsedGrant(Nibbles(value[0]).0, SignedOctet(value[1]), FromBE(value[2..6]), value[7]))
  }

  /** The six octets that REQUEST and GRANT have in common; the period is the one field not masked. */
  function RequestValue(messageType: int, logPeriod: int, durationSec: int): (r: Result<seq<octet>>)
    ensures r.Ok? ==> |r.value| == 6
  {
    if !(-128 <= logPeriod < 128) then Raise(StructError)
    else Ok([16 * (messageType % 16), SignedByte(logPeriod)] + Uint(durationSec, 4))
  }

  function RequestTlv(messageType: int, logPeriod: int, durationSec: int): (r: Result<Tlv>)
    ensures r.Ok? ==> r.value.Valid()
  {
    var value :- RequestValue(messageType, logPeriod, durationSec);
    Ok(Tlv(TLV_REQUEST_UNICAST, value))
  }

  function BuildRequestTlv(messageType: int, logPeriod: int, durationSec: int): Result<seq<octet>> {
    var t :- RequestTlv(messageType, logPeriod, durationSec);
    Ok(EncodeTlv(t))
  }

  function BuildGrantTlv(messageType: int, logPeriod: int, durationSec: int, reserved: int, flags: int)
    : Result<seq<octet>> {
    var value :- RequestValue(messageType, logPeriod, durationSec);
    Ok(EncodeTlv(Tlv(TLV_GRANT_UNICAST, value + [reserved % 0x100, flags % 0x100])))
  }

  predicate GrantFieldsFit(messageType: int, logPeriod: int, durationSec: int) {
    0 <= messageType < 16 && -128 <= logPeriod < 128 && 0 <= durationSec < 0x1_0000_0000
  }

  /** Both TLV values give back the fields they were built from. */
  lemma GrantValueRoundTrip(messageType: int, logPeriod: int, durationSec: int, reserved: octet, flags: octet)
    requires GrantFieldsFit(messageType, logPeriod, durationSec)
    ensures var value := RequestValue(messageType, logPeriod, durationSec).value;
            && ParseRequestValue(value) == Ok(ParsedGrant(messageType, logPeriod, durationSec, 0))
            && ParseGrantValue(value + [reserved, flags]) == Ok(ParsedGrant(messageType, logPeriod, durationSec, flags))
  {
    var value := RequestValue(messageType, logPeriod, durationSec).value;
    assert value[2..6] == Uint(durationSec, 4);
    assert (value + [reserved, flags])[2..6] == Uint(durationSec, 4);
    Widths();
    UintRoundTrip(durationSec, 4);
  }

  /** The grant a TLV carries: a GRANT of at least 6 value octets, the short form without flags. */
  function GrantIn(t: Tlv): Option<ParsedGrant> {
    if t.typ != TLV_GRANT_UNICAST then None
    else if ParseGrantValue(t.value).Ok? then Some(ParseGrantValue(t.value).value)
    else if |t.value| >= 6 then Some(ParseRequestValue(t.value).value)
    else None
  }

  lemma OneTlvIsFound(t: Tlv)
    requires t.Valid()
    ensures TlvAt(EncodeTlv(t), 0) == Some(t)
  {
    EncodedTlvIsFound(t, []);
    assert EncodeTlv(t) + [] == EncodeTlv(t);
  }

  /** The builders fail exactly for a period that is not a signed octet; what they build is one TLV that
      reads back as the request or the grant it was built from. */
  lemma BuiltRequestReadsBack(messageType: int, logPeriod: int, durationSec: int)
    requires 0 <= messageType < 16 && 0 <= durationSec < 0x1_0000_0000
    ensures var built := BuildRequestTlv(messageType, logPeriod, durationSec);
            && (built.Ok? <==> -128 <= logPeriod < 128)
            && (built.Ok? ==>
                  var t := TlvAt(built.value, 0);
                  && t.Some? && |built.value| == 10 && t.value.typ == 0x0004
                  && ParseRequestValue(t.value.value) == Ok(ParsedGrant(messageType, logPeriod, durationSec, 0)))
  {
    if -128 <= logPeriod < 128 {
      GrantValueRoundTrip(messageType, logPeriod, durationSec, 0, 0);
      OneTlvIsFound(RequestTlv(messageType, logPeriod, durationSec).value);
    }
  }

  lemma BuiltGrantReadsBack(messageType: int, logPeriod: int, durationSec: int, reserved: octet, flags: octet)
    requires 0 <= messageType < 16 && 0 <= durationSec < 0x1_0000_0000
    ensures var built := BuildGrantTlv(messageType, logPeriod, durationSec, reserved, flags);
            && (built.Ok? <==> -128 <= logPeriod < 128)
            && (built.Ok? ==>
                  var t := TlvAt(built.value, 0);
                  && t.Some? && |built.value| == 12 && t.value.typ == 0x0005
                  && ParseGrantValue(t.value.value) == Ok(ParsedGrant(messageType, logPeriod, durationSec, flags)))
  {
    if -128 <= logPeriod < 128 {
      GrantValueRoundTrip(messageType, logPeriod, durationSec, reserved, flags);
      OneTlvIsFound(Tlv(TLV_GRANT_UNICAST, RequestValue(messageType, logPeriod, durationSec).value + [reserved, flags]));
    }
  }

  function GrantsOf(ts: seq<Tlv>): seq<ParsedGrant> {
    if ts == [] then []
    else if GrantIn(ts[0]).Some? then [GrantIn(ts[0]).value] + GrantsOf(ts[1..])
    else GrantsOf(ts[1..])
  }

  lemma {:induction false} GrantsOfAppend(ts: seq<Tlv>, t: Tlv)
    ensures GrantsOf(ts + [t]) == GrantsOf(ts) + (if GrantIn(t).Some? then [GrantIn(t).value] else [])
  {
    if ts == [] {
      assert ts + [t] == [t];
    } else {
      GrantsOfAppend(ts[1..], t);
      assert (ts + [t])[1..] == ts[1..] + [t];
    }
  }

  /** The grant that the last-resort scan reads at one offset. */
  function GrantAt(data: seq<octet>, off: nat): Option<ParsedGrant> {
    var t := TlvAt(data, off);
    if t.None? then None else GrantIn(t.value)
  }

  function ScanFrom(data: seq<octet>, off: nat): seq<ParsedGrant>
    decreases |data| - off
  {
    if off + 4 > |data| then []
    else (if GrantAt(data, off).Some? then [GrantAt(data, off).value] else []) + ScanFrom(data, off + 1)
  }

  function ExtractGrants(data: seq<octet>): Result<seq<ParsedGrant>> {
    var header :- UnpackHeader(data);
    if header.messageType != SIGNALING then Ok([])
    else
      var listed := GrantsOf(TlvsFrom(data, BODY_START));
      Ok(if listed != [] then listed else ScanFrom(data, BODY_START))
  }

  method ExtractGrantsFromSignalingUdp(data: seq<octet>) returns (r: Result<seq<ParsedGrant>>)
    ensures r == ExtractGrants(data)
  {
    var header :- UnpackHeader(data);
    if header.messageType != SIGNALING {
      return Ok([]);
    }
    var out := CollectListed(data);
    if out == [] {
      out := ScanForGrants(data);
    }
    return Ok(out);
  }

  method CollectListed(data: seq<octet>) returns (out: seq<ParsedGrant>)
    ensures out == GrantsOf(TlvsFrom(data, BODY_START))
  {
    out := [];
    var tlvs := IterTlvs(data, BODY_START);
    for k := 0 to |tlvs|
      invariant out == GrantsOf(tlvs[..k])
    {
      assert tlvs[..k + 1] == tlvs[..k] + [tlvs[k]];
      GrantsOfAppend(tlvs[..k], tlvs[k]);
      if tlvs[k].typ == TLV_GRANT_UNICAST {
        var g := ParseGrantValue(tlvs[k].value);
        if g.Ok? {
          out := out + [g.value];
        } else if |tlvs[k].value| >= 6 {
          out := out + [ParseRequestValue(tlvs[k].value).value];
        }
      }
    }
    assert tlvs[..|tlvs|] == tlvs;
  }

  method ScanForGrants(data: seq<octet>) returns (out: seq<ParsedGrant>)
    ensures out == ScanFrom(data, BODY_START)
  {
    out := [];
    var off := BODY_START;
    while off + 4 <= |data|
      invariant off >= BODY_START
      invariant out + ScanFrom(data, off) == ScanFrom(data, BODY_START)
      decreases |data| - off
    {
      var found := [];
      var ln := Word(data[off + 2], data[off + 3]);
      if Word(data[off], data[off + 1]) == TLV_GRANT_UNICAST && off + 4 + ln <= |data| {
        var value := data[off + 4..off + 4 + ln];
        if ParseGrantValue(value).Ok? {
          found := [ParseGrantValue(value).value];
        } else if |value| >= 6 {
          found := [ParseRequestValue(value).value];
        }
      }
      ConcatAssociative(out, found, ScanFrom(data, off + 1));
      out := out + found;
      off := off + 1;
    }
  }

  // ---- Whole messages ----

  function SignalingHeader(domain: int, source: PortIdentity, tlvsLen: nat, sequenceId: int): PTPHeader {
    CommonHeader(SIGNALING, domain % 0x100, FLAG_UNICAST, source, sequenceId, 0x05, 0x7F, 0, 10 + tlvsLen)
  }

  function BuildSignaling(domain: int, source: PortIdentity, target: PortIdentity, tlvs: seq<octet>, sequenceId: int)
    : Result<seq<octet>> {
    var header :- PackHeader(SignalingHeader(domain, source, |tlvs|, sequenceId));
    Ok(header + (PackIdentity(target) + tlvs))
  }

  lemma SignalingHeaderOnTheWire(domain: int, source: PortIdentity, tlvsLen: nat, sequenceId: int)
    ensures var h := SignalingHeader(domain, source, tlvsLen, sequenceId);
            && h.Packable()
            && h.OnTheWire() == PTPHeader(SIGNALING, 2, (BODY_START + tlvsLen) % 0x1_0000, domain % 0x100, 0,
                                          FLAG_UNICAST, 0, source, sequenceId % 0x1_0000, 0x05, 0x7F, 0)
  {
    SmallCorrection();
  }

  lemma MessageParts(header: seq<octet>, target: PortIdentity, tlvs: seq<octet>)
    requires |header| == HEADER_LEN
    ensures (header + (PackIdentity(target) + tlvs))[BODY_START..] == tlvs
  {
  }

  lemma SignalingReadable(domain: int, source: PortIdentity, target: PortIdentity, tlvs: seq<octet>, sequenceId: int)
    ensures var built := BuildSignaling(domain, source, target, tlvs, sequenceId);
            && built.Ok?
            && |built.value| == BODY_START + |tlvs| && built.value[BODY_START..] == tlvs
            && UnpackHeader(built.value) == Ok(PTPHeader(SIGNALING, 2, (BODY_START + |tlvs|) % 0x1_0000, domain % 0x100, 0,
                                                         FLAG_UNICAST, 0, source, sequenceId % 0x1_0000, 0x05, 0x7F, 0))
            && UnpackIdentity(built.value, HEADER_LEN) == Ok(target)
  {
    var h := SignalingHeader(domain, source, |tlvs|, sequenceId);
    SignalingHeaderOnTheWire(domain, source, |tlvs|, sequenceId);
    HeaderRoundTrip(h, PackIdentity(target) + tlvs);
    MessageParts(PackHeader(h).value, target, tlvs);
    ConcatAssociative(PackHeader(h).value, PackIdentity(target), tlvs);
    IdentityRoundTrip(target, PackHeader(h).value, tlvs);
  }

  lemma BuiltTlvsAreListed(data: seq<octet>, ts: seq<Tlv>)
    requires AllValid(ts) && |data| >= BODY_START && data[BODY_START..] == EncodeAll(ts)
    ensures TlvsFrom(data, BODY_START) == ts
  {
    TlvsRoundTrip(ts, []);
    assert EncodeAll(ts) + [] == EncodeAll(ts);
    assert data == data[..BODY_START] + EncodeAll(ts);
    TlvsFromSuffix(data[..BODY_START], EncodeAll(ts), 0);
  }

  /** A message built from a TLV list yields exactly the list's grants, in order, when it has
      any; when it has none, only if no octet of its body starts what looks like one. */
  lemma BuiltGrantsAreExtracted(domain: int, source: PortIdentity, target: PortIdentity, ts: seq<Tlv>, sequenceId: int)
    requires AllValid(ts)
    ensures var built := BuildSignaling(domain, source, target, EncodeAll(ts), sequenceId);
            && built.Ok?
            && TlvsFrom(built.value, BODY_START) == ts
            && (ExtractGrants(built.value) == Ok(GrantsOf(ts))
                <==> GrantsOf(ts) != [] || forall off | off >= BODY_START :: GrantAt(built.value, off).None?)
  {
    SignalingReadable(domain, source, target, EncodeAll(ts), sequenceId);
    var data := BuildSignaling(domain, source, target, EncodeAll(ts), sequenceId).value;
    BuiltTlvsAreListed(data, ts);
    ScanEmptyIffNoGrantAt(data, BODY_START);
  }

  lemma {:induction false} ScanEmptyIffNoGrantAt(data: seq<octet>, from: nat)
    ensures ScanFrom(data, from) == [] <==> forall off | off >= from :: GrantAt(data, off).None?
    decreases |data| - from
  {
    if from + 4 <= |data| {
      ScanEmptyIffNoGrantAt(data, from + 1);
      if GrantAt(data, from).None? {
        assert [] + ScanFrom(data, from + 1) == ScanFrom(data, from + 1);
      }
    }
  }

  /** So a message without any GRANT TLV can yield a grant all the same: one whose octets
      stand inside the value of a TLV of another type. */
  lemma ScanCanInventAGrant(domain: int, source: PortIdentity, target: PortIdentity, sequenceId: int, typ: int, inner: Tlv)
    requires 0 <= typ < 0x1_0000 && typ != TLV_GRANT_UNICAST
    requires inner.Valid() && GrantIn(inner).Some? && |inner.value| < 0x1000
    ensures var ts := [Tlv(typ, EncodeTlv(inner))];
            var built := BuildSignaling(domain, source, target, EncodeAll(ts), sequenceId);
            && built.Ok? && TlvsFrom(built.value, BODY_START) == ts && GrantsOf(ts) == []
            && ExtractGrants(built.value).Ok? && ExtractGrants(built.value).value != []
  {
    var t := Tlv(typ, EncodeTlv(inner));
    BuiltGrantsAreExtracted(domain, source, target, [t], sequenceId);
    SignalingReadable(domain, source, target, EncodeAll([t]), sequenceId);
    var data := BuildSignaling(domain, source, target, EncodeAll([t]), sequenceId).value;
    assert EncodeAll([t]) == EncodeTlv(t) + EncodeAll([]) == EncodeTlv(t);
    NestedGrantIsFound(data, typ, inner);
  }

  lemma NestedGrantIsFound(data: seq<octet>, typ: int, inner: Tlv)
    requires |data| >= BODY_START && inner.Valid() && GrantIn(inner).Some?
    requires Tlv(typ, EncodeTlv(inner)).Valid()
    requires data[BODY_START..] == EncodeTlv(Tlv(typ, EncodeTlv(inner)))
    ensures GrantAt(data, BODY_START + 4).Some?
  {
    var front := data[..BODY_START + 4];
    assert data[BODY_START + 4..] == data[BODY_START..][4..] == EncodeTlv(inner);
    assert data == front + EncodeTlv(inner);
    EncodedTlvIsFound(inner, []);
    assert EncodeTlv(inner) + [] == EncodeTlv(inner);
    TlvAtSuffix(front, EncodeTlv(inner), 0);
  }
}

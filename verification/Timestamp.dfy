/** PTP Timestamp: 48-bit seconds and 32-bit nanoseconds. */
module Timestamp {
  import opened Outcomes
  import opened Octets

  datatype TimestampPair = TimestampPair(seconds: int, nanoseconds: int) {
    /** What the constructor of the source checks. */
    predicate Valid() {
      0 <= seconds < 0x1_0000_0000_0000 && 0 <= nanoseconds < 1_000_000_000
    }
  }

  type PTPTimestamp = t: TimestampPair | t.Valid() witness TimestampPair(0, 0)

  function MakeTimestamp(seconds: int, nanoseconds: int): Result<PTPTimestamp> {
    var t := TimestampPair(seconds, nanoseconds);
    if t.Valid() then Ok(t) else Raise(ValueError)
  }

  /** A count of nanoseconds since the epoch, as the clock delivers it. */
  function FromNanoseconds(ns: int): Result<PTPTimestamp> {
    MakeTimestamp(ns / 1_000_000_000, ns % 1_000_000_000)
  }

  /** Nanoseconds become the timestamp that says as much, exactly while 48 bits hold the seconds. */
  lemma NanosecondsAreKept(ns: int)
    ensures FromNanoseconds(ns).Ok? <==> 0 <= ns < 0x1_0000_0000_0000 * 1_000_000_000
    ensures FromNanoseconds(ns).Ok? ==>
              var t := FromNanoseconds(ns).value; t.seconds * 1_000_000_000 + t.nanoseconds == ns
  {
  }

  function Pack10(t: PTPTimestamp): (s: seq<octet>)
    ensures |s| == 10
  {
    Uint(t.seconds, 6) + Uint(t.nanoseconds, 4)
  }

  function Unpack10(data: seq<octet>, offset: nat): Result<PTPTimestamp> {
    if |data| < offset + 10 then Raise(ValueError)
    else MakeTimestamp(FromBE(data[offset..offset + 6]), FromBE(data[offset + 6..offset + 10]))
  }

  /** A packed timestamp is read back wherever it stands in a message. */
  lemma TimestampRoundTrip(t: PTPTimestamp, before: seq<octet>, after: seq<octet>)
    ensures Unpack10(before + Pack10(t) + after, |before|) == Ok(t)
  {
    var data, k := before + Pack10(t) + after, |before|;
    assert data[k..k + 6] == Uint(t.seconds, 6);
    assert data[k + 6..k + 10] == Uint(t.nanoseconds, 4);
    Widths();
    UintRoundTrip(t.seconds, 6);
    UintRoundTrip(t.nanoseconds, 4);
  }

  /** Whatever is read packs to the octets it was read from; reading fails exactly when
      they are missing or hold a billion nanoseconds or more. */
  lemma TimestampReadBack(data: seq<octet>, offset: nat)
    ensures Unpack10(data, offset).Raise? <==>
            |data| < offset + 10 || FromBE(data[offset + 6..offset + 10]) >= 1_000_000_000
    ensures Unpack10(data, offset).Ok? ==> Pack10(Unpack10(data, offset).value) == data[offset..offset + 10]
  {
    if |data| >= offset + 10 {
      Widths();
      var s, n := data[offset..offset + 6], data[offset + 6..offset + 10];
      assert FromBE(s) < Pow256(6);
      ReadBack(s);
      ReadBack(n);
      assert s + n == data[offset..offset + 10];
    }
  }
}

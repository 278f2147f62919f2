/** IPv4 and UDP checksums of hand-built datagrams (RFC 791 section 3.1, RFC 768, RFC 1071 section 1). */
module Checksum {
  import opened Outcomes
  import opened Octets

  /** The plain sum of the 16-bit words; an odd last octet is padded with zero on the right. */
  function RawSum(data: seq<octet>): (s: nat) {
    if |data| == 0 then 0
    else if |data| == 1 then Word(data[0], 0)
    else Word(data[0], data[1]) + RawSum(data[2..])
  }

  function Fold(s: nat): nat {
    s % 0x1_0000 + s / 0x1_0000
  }

  /** The complement of the sum folded twice. */
  function ChecksumOf(s: nat): (c: nat)
    ensures c < 0x1_0000
  {
    0xFFFF - Fold(Fold(s)) % 0x1_0000
  }

  // ---- The reference: addition with end-around carry, word by word ----

  function OcAdd(a: nat, b: nat): nat {
    if a + b > 0xFFFF then a + b - 0xFFFF else a + b
  }

  function OcSum(data: seq<octet>): (s: nat)
    ensures s <= 0xFFFF
  {
    if |data| == 0 then 0
    else if |data| == 1 then Word(data[0], 0)
    else OcAdd(Word(data[0], data[1]), OcSum(data[2..]))
  }

  /** The end-around-carry sum is the plain sum less a multiple of 65535, and zero only with it. */
  lemma {:induction false} OcSumOfRawSum(data: seq<octet>) returns (k: nat)
    ensures RawSum(data) == OcSum(data) + 0xFFFF * k
    ensures OcSum(data) == 0 <==> RawSum(data) == 0
  {
    if |data| < 2 {
      k := 0;
    } else {
      k := OcSumOfRawSum(data[2..]);
      if Word(data[0], data[1]) + OcSum(data[2..]) > 0xFFFF {
        k := k + 1;
      }
    }
  }

  lemma FoldKeepsResidue(s: nat)
    requires s < 0x1_0000_0000
    ensures s == Fold(s) + 0xFFFF * (s / 0x1_0000)
    ensures Fold(s) <= 0x1_FFFE && (s <= 0x1_FFFE ==> Fold(s) <= 0xFFFF)
    ensures Fold(s) == 0 <==> s == 0
  {
  }

  lemma ResidueIsUnique(x: nat, y: nat, a: int, b: int)
    requires x <= 0xFFFF && y <= 0xFFFF && (x == 0 <==> y == 0)
    requires x + 0xFFFF * a == y + 0xFFFF * b
    ensures x == y
  {
  }

  /** Below 2^32 two folds carry everything around: they give the end-around-carry sum. */
  lemma TwoFoldsSuffice(data: seq<octet>)
    requires RawSum(data) < 0x1_0000_0000
    ensures Fold(Fold(RawSum(data))) == OcSum(data)
  {
    var s := RawSum(data);
    FoldKeepsResidue(s);
    FoldKeepsResidue(Fold(s));
    var k := OcSumOfRawSum(data);
    ResidueIsUnique(Fold(Fold(s)), OcSum(data), Fold(s) / 0x1_0000 + s / 0x1_0000, k);
  }

  lemma {:induction false} RawSumSplits(a: seq<octet>, b: seq<octet>)
    requires |a| % 2 == 0
    ensures RawSum(a + b) == RawSum(a) + RawSum(b)
  {
    if a == [] {
      assert a + b == b;
    } else {
      assert (a + b)[2..] == a[2..] + b;
      RawSumSplits(a[2..], b);
    }
  }

  lemma {:induction false} RawSumBound(data: seq<octet>)
    ensures RawSum(data) <= 0x8000 * (|data| + 1)
  {
    if |data| >= 2 {
      RawSumBound(data[2..]);
    }
  }

  lemma RawSumOfU16(v: int)
    requires 0 <= v < 0x1_0000
    ensures RawSum(U16(v)) == v
  {
    assert U16(v)[2..] == [];
  }

  lemma ChecksumComplements(s: nat) returns (folded: nat, j: nat)
    requires 0 < s < 0x1_0000_0000
    ensures 0 < folded <= 0xFFFF && s == folded + 0xFFFF * j && ChecksumOf(s) == 0xFFFF - folded
  {
    FoldKeepsResidue(s);
    FoldKeepsResidue(Fold(s));
    folded, j := Fold(Fold(s)), Fold(s) / 0x1_0000 + s / 0x1_0000;
  }

  /** Octets whose checksum field holds the complement of the rest, or 0xFFFF in place of 0, sum to 0xFFFF. */
  lemma FilledSumIsAllOnes(whole: seq<octet>, others: nat, field: nat)
    requires 0 < others < 0x1_0000_0000 && RawSum(whole) == others + field
    requires field == ChecksumOf(others) || (ChecksumOf(others) == 0 && field == 0xFFFF)
    ensures OcSum(whole) == 0xFFFF
  {
    var folded, j := ChecksumComplements(others);
    var k := OcSumOfRawSum(whole);
    ResidueIsUnique(OcSum(whole), 0xFFFF, k, if folded + field == 0xFFFF then j else j + 1);
  }

  lemma SumWithField(front: seq<octet>, field: int, back: seq<octet>)
    requires |front| % 2 == 0 && 0 <= field < 0x1_0000
    ensures RawSum(front + U16(field) + back) == RawSum(front) + field + RawSum(back)
  {
    RawSumSplits(front + U16(field), back);
    RawSumSplits(front, U16(field));
    RawSumOfU16(field);
  }

  // ---- Datagrams ----

  const IP_HEADER_LEN := 20
  const UDP_HEADER_LEN := 8
  const UDP_PROTOCOL := 17

  datatype Flow = Flow(src: seq<octet>, dst: seq<octet>, srcPort: int, dstPort: int) {
    predicate Valid() {
      |src| == 4 && |dst| == 4
    }
  }

  function IpHeader(totalLen: int, ipId: int, checksum: int, flow: Flow): (h: seq<octet>)
    requires flow.Valid() && 0 <= totalLen < 0x1_0000 && 0 <= checksum < 0x1_0000
    ensures |h| == IP_HEADER_LEN
  {
    IpFront(totalLen, ipId) + U16(checksum) + (flow.src + flow.dst)
  }

  function IpFront(totalLen: int, ipId: int): (h: seq<octet>)
    requires 0 <= totalLen < 0x1_0000
    ensures |h| == 10
  {
    [0x45, 0x00] + U16(totalLen) + U16(ipId % 0x1_0000) + [0x40, 0x00, 64, UDP_PROTOCOL]
  }

  function UdpHeader(flow: Flow, udpLen: int, checksum: int): (h: seq<octet>)
    requires 0 <= udpLen < 0x1_0000 && 0 <= checksum < 0x1_0000
    ensures |h| == UDP_HEADER_LEN
  {
    UdpFront(flow, udpLen) + U16(checksum)
  }

  function UdpFront(flow: Flow, udpLen: int): (h: seq<octet>)
    requires 0 <= udpLen < 0x1_0000
    ensures |h| == 6
  {
    U16(flow.srcPort % 0x1_0000) + U16(flow.dstPort % 0x1_0000) + U16(udpLen)
  }

  function PseudoHeader(src: seq<octet>, dst: seq<octet>, udpLen: int): (h: seq<octet>)
    requires |src| == 4 && |dst| == 4 && 0 <= udpLen < 0x1_0000
    ensures |h| == 12
  {
    src + dst + U16(UDP_PROTOCOL) + U16(udpLen)
  }

  function UdpChecksum(flow: Flow, segment: seq<octet>): (c: int)
    requires flow.Valid() && |segment| < 0x1_0000
    ensures 0 < c < 0x1_0000
  {
    var c := ChecksumOf(RawSum(PseudoHeader(flow.src, flow.dst, |segment|) + segment));
    if c == 0 then 0xFFFF else c
  }

  function BuildDatagram(flow: Flow, payload: seq<octet>, ipId: int): (r: Result<seq<octet>>)
    requires flow.Valid()
    ensures r.Ok? <==> |payload| <= 0xFFFF - IP_HEADER_LEN - UDP_HEADER_LEN
  {
    var totalLen := IP_HEADER_LEN + UDP_HEADER_LEN + |payload|;
    if totalLen > 0xFFFF then Raise(StructError)
    else
      var ipChecksum := ChecksumOf(RawSum(IpHeader(totalLen, ipId, 0, flow)));
      var udpLen := UDP_HEADER_LEN + |payload|;
      var udpChecksum := UdpChecksum(flow, UdpHeader(flow, udpLen, 0) + payload);
      Ok(IpHeader(totalLen, ipId, ipChecksum, flow) + UdpHeader(flow, udpLen, udpChecksum) + payload)
  }

  /** A receiver's two checks, on nothing but the datagram. */
  predicate HeaderSumsToOnes(datagram: seq<octet>)
    requires |datagram| >= IP_HEADER_LEN
  {
    OcSum(datagram[..IP_HEADER_LEN]) == 0xFFFF
  }

  predicate SegmentSumsToOnes(datagram: seq<octet>)
    requires IP_HEADER_LEN <= |datagram| < 0x1_0000
  {
    OcSum(PseudoHeader(datagram[12..16], datagram[16..20], |datagram| - IP_HEADER_LEN) + datagram[IP_HEADER_LEN..])
    == 0xFFFF
  }

  /** Every payload that fits is carried whole in a datagram that passes both checks. */
  lemma DatagramPassesBothChecks(flow: Flow, payload: seq<octet>, ipId: int)
    requires flow.Valid() && |payload| <= 0xFFFF - IP_HEADER_LEN - UDP_HEADER_LEN
    ensures var datagram := BuildDatagram(flow, payload, ipId).value;
            && |datagram| == IP_HEADER_LEN + UDP_HEADER_LEN + |payload|
            && datagram[IP_HEADER_LEN + UDP_HEADER_LEN..] == payload
            && HeaderSumsToOnes(datagram)
            && SegmentSumsToOnes(datagram)
  {
    var totalLen, udpLen := IP_HEADER_LEN + UDP_HEADER_LEN + |payload|, UDP_HEADER_LEN + |payload|;
    var header := IpHeader(totalLen, ipId, ChecksumOf(RawSum(IpHeader(totalLen, ipId, 0, flow))), flow);
    var udp := UdpHeader(flow, udpLen, UdpChecksum(flow, UdpHeader(flow, udpLen, 0) + payload));
    DatagramParts(header, udp, payload);
    AddressesInHeader(totalLen, ipId, ChecksumOf(RawSum(IpHeader(totalLen, ipId, 0, flow))), flow);
    IpHeaderSum(totalLen, ipId, flow);
    UdpSegmentSum(flow, payload);
  }

  /** What the two headers say. */
  lemma DatagramIsLaidOut(flow: Flow, payload: seq<octet>, ipId: int)
    requires flow.Valid() && |payload| <= 0xFFFF - IP_HEADER_LEN - UDP_HEADER_LEN
    ensures var d := BuildDatagram(flow, payload, ipId).value;
            && d[0] == 0x45 && d[1] == 0 && Word(d[2], d[3]) == |d| && Word(d[4], d[5]) == ipId % 0x1_0000
            && Word(d[6], d[7]) == 0x4000 && d[8] == 64 && d[9] == UDP_PROTOCOL
            && d[12..16] == flow.src && d[16..20] == flow.dst
            && Word(d[20], d[21]) == flow.srcPort % 0x1_0000 && Word(d[22], d[23]) == flow.dstPort % 0x1_0000
            && Word(d[24], d[25]) == 8 + |payload| && d[28..] == payload
  {
    var totalLen, udpLen := IP_HEADER_LEN + UDP_HEADER_LEN + |payload|, UDP_HEADER_LEN + |payload|;
    var checksum := ChecksumOf(RawSum(IpHeader(totalLen, ipId, 0, flow)));
    var header := IpHeader(totalLen, ipId, checksum, flow);
    var udp := UdpHeader(flow, udpLen, UdpChecksum(flow, UdpHeader(flow, udpLen, 0) + payload));
    DatagramParts(header, udp, payload);
    AddressesInHeader(totalLen, ipId, checksum, flow);
    HeadersSay(totalLen, ipId, checksum, flow, udpLen, UdpChecksum(flow, UdpHeader(flow, udpLen, 0) + payload));
    DatagramElements(header, udp, payload);
  }

  lemma HeadersSay(totalLen: int, ipId: int, checksum: int, flow: Flow, udpLen: int, udpChecksum: int)
    requires flow.Valid() && 0 <= totalLen < 0x1_0000 && 0 <= checksum < 0x1_0000
    requires 0 <= udpLen < 0x1_0000 && 0 <= udpChecksum < 0x1_0000
    ensures var h := IpHeader(totalLen, ipId, checksum, flow);
            && h[0] == 0x45 && h[1] == 0 && Word(h[2], h[3]) == totalLen && Word(h[4], h[5]) == ipId % 0x1_0000
            && Word(h[6], h[7]) == 0x4000 && h[8] == 64 && h[9] == UDP_PROTOCOL
    ensures var u := UdpHeader(flow, udpLen, udpChecksum);
            && Word(u[0], u[1]) == flow.srcPort % 0x1_0000 && Word(u[2], u[3]) == flow.dstPort % 0x1_0000
            && Word(u[4], u[5]) == udpLen
  {
  }

  lemma DatagramElements(header: seq<octet>, udp: seq<octet>, payload: seq<octet>)
    requires |header| == IP_HEADER_LEN && |udp| == UDP_HEADER_LEN
    ensures var d := header + udp + payload;
            && (forall i | 0 <= i < 20 :: d[i] == header[i])
            && (forall i | 20 <= i < 28 :: d[i] == udp[i - 20])
  {
  }

  lemma AddressesInHeader(totalLen: int, ipId: int, checksum: int, flow: Flow)
    requires flow.Valid() && 0 <= totalLen < 0x1_0000 && 0 <= checksum < 0x1_0000
    ensures IpHeader(totalLen, ipId, checksum, flow)[12..16] == flow.src
    ensures IpHeader(totalLen, ipId, checksum, flow)[16..20] == flow.dst
  {
  }

  lemma DatagramParts(header: seq<octet>, udp: seq<octet>, payload: seq<octet>)
    requires |header| == IP_HEADER_LEN && |udp| == UDP_HEADER_LEN
    ensures var datagram := header + udp + payload;
            && datagram[..20] == header && datagram[20..] == udp + payload && datagram[28..] == payload
            && datagram[12..16] == header[12..16] && datagram[16..20] == header[16..20]
  {
  }

  lemma IpHeaderSum(totalLen: int, ipId: int, flow: Flow)
    requires flow.Valid() && 0 <= totalLen < 0x1_0000
    ensures OcSum(IpHeader(totalLen, ipId, ChecksumOf(RawSum(IpHeader(totalLen, ipId, 0, flow))), flow)) == 0xFFFF
  {
    var front, back := IpFront(totalLen, ipId), flow.src + flow.dst;
    VersionSumPositive(totalLen, ipId);
    RawSumBound(front);
    RawSumBound(back);
    SumWithField(front, 0, back);
    var others := RawSum(front) + RawSum(back);
    SumWithField(front, ChecksumOf(others), back);
    FilledSumIsAllOnes(front + U16(ChecksumOf(others)) + back, others, ChecksumOf(others));
  }

  lemma VersionSumPositive(totalLen: int, ipId: int)
    requires 0 <= totalLen < 0x1_0000
    ensures RawSum(IpFront(totalLen, ipId)) > 0
  {
    assert IpFront(totalLen, ipId)[0] == 0x45;
  }

  lemma SegmentWithField(pseudo: seq<octet>, flow: Flow, udpLen: int, checksum: int, payload: seq<octet>)
    requires |pseudo| == 12 && 0 <= udpLen < 0x1_0000 && 0 <= checksum < 0x1_0000
    ensures RawSum(pseudo + (UdpHeader(flow, udpLen, checksum) + payload))
            == RawSum(pseudo) + RawSum(UdpFront(flow, udpLen)) + RawSum(payload) + checksum
  {
    RawSumSplits(pseudo, UdpHeader(flow, udpLen, checksum) + payload);
    SumWithField(UdpFront(flow, udpLen), checksum, payload);
  }

  lemma SegmentSum(pseudo: seq<octet>, flow: Flow, udpLen: int, payload: seq<octet>, checksum: int)
    requires |pseudo| == 12 && RawSum(pseudo) > 0
    requires 0 <= udpLen < 0x1_0000 && |payload| < 0x1_0000 && 0 <= checksum < 0x1_0000
    requires var c := ChecksumOf(RawSum(pseudo + (UdpHeader(flow, udpLen, 0) + payload)));
             checksum == if c == 0 then 0xFFFF else c
    ensures OcSum(pseudo + (UdpHeader(flow, udpLen, checksum) + payload)) == 0xFFFF
  {
    var ports := UdpFront(flow, udpLen);
    RawSumBound(pseudo);
    RawSumBound(ports);
    RawSumBound(payload);
    SegmentWithField(pseudo, flow, udpLen, 0, payload);
    SegmentWithField(pseudo, flow, udpLen, checksum, payload);
    var others := RawSum(pseudo) + RawSum(ports) + RawSum(payload);
    FilledSumIsAllOnes(pseudo + (UdpHeader(flow, udpLen, checksum) + payload), others, checksum);
  }

  lemma UdpSegmentSum(flow: Flow, payload: seq<octet>)
    requires flow.Valid() && |payload| <= 0xFFFF - IP_HEADER_LEN - UDP_HEADER_LEN
    ensures var udpLen := UDP_HEADER_LEN + |payload|;
            var checksum := UdpChecksum(flow, UdpHeader(flow, udpLen, 0) + payload);
            OcSum(PseudoHeader(flow.src, flow.dst, udpLen) + (UdpHeader(flow, udpLen, checksum) + payload)) == 0xFFFF
  {
    var udpLen := UDP_HEADER_LEN + |payload|;
    PseudoSumPositive(flow, udpLen);
    SegmentSum(PseudoHeader(flow.src, flow.dst, udpLen), flow, udpLen, payload,
               UdpChecksum(flow, UdpHeader(flow, udpLen, 0) + payload));
  }

  lemma PseudoSumPositive(flow: Flow, udpLen: int)
    requires flow.Valid() && 0 < udpLen < 0x1_0000
    ensures RawSum(PseudoHeader(flow.src, flow.dst, udpLen)) > 0
  {
    RawSumSplits(flow.src + flow.dst + U16(UDP_PROTOCOL), U16(udpLen));
    RawSumOfU16(udpLen);
  }
}

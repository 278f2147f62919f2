/** Ethernet framing of PTP messages, with and without an 802.1Q tag. */
module Transport {
  import opened Outcomes
  import opened Octets

  const ETHERTYPE_PTP := 0x88F7
  const ETHERTYPE_VLAN := 0x8100

  function BuildEthernetFrame(dst: seq<octet>, src: seq<octet>, payload: seq<octet>, vlanId: Option<int>, vlanPcp: int)
    : Result<seq<octet>> {
    if |dst| != 6 || |src| != 6 then Raise(ValueError)
    else if vlanId.Some? && !(0 <= vlanId.value < 0x1000) then Raise(ValueError)
    else
      var types := if vlanId.None? then TYPE_PTP else TYPE_VLAN + Tag(vlanId.value, vlanPcp) + TYPE_PTP;
      Ok(dst + src + types + payload)
  }

  const TYPE_PTP: seq<octet> := [0x88, 0xF7]
  const TYPE_VLAN: seq<octet> := [0x81, 0x00]

  /** The 802.1Q tag control field. */
  function Tag(vlanId: int, vlanPcp: int): (s: seq<octet>)
    requires 0 <= vlanId < 0x1000
    ensures |s| == 2
  {
    U16(vlanPcp % 8 * 0x2000 + vlanId)
  }

  datatype ParsedFrame = ParsedFrame(src: seq<octet>, payload: seq<octet>)

  /** The decoder of received frames. None: not PTP, or too short. A tagged frame that stops
      inside the second type field raises instead. */
  function ParseEthernetFrame(data: seq<octet>): Result<Option<ParsedFrame>> {
    if |data| < 14 then Ok(None)
    else if Word(data[12], data[13]) == ETHERTYPE_VLAN then
      if |data| < 16 then Ok(None)
      else if |data| < 18 then Raise(StructError)
      else if Word(data[16], data[17]) != ETHERTYPE_PTP then Ok(None)
      else Ok(Some(ParsedFrame(data[6..12], data[18..])))
    else if Word(data[12], data[13]) != ETHERTYPE_PTP then Ok(None)
    else Ok(Some(ParsedFrame(data[6..12], data[14..])))
  }

  lemma HeadOf(head: seq<octet>, types: seq<octet>, rest: seq<octet>)
    requires |head| == 12 && |types| >= 2
    ensures var data := head + types + rest;
            && data[6..12] == head[6..12]
            && (forall i | 0 <= i < |types| :: data[12 + i] == types[i])
            && data[12 + |types|..] == rest
  {
  }

  /** A frame is built exactly for six-octet addresses and a tag that fits, and then yields
      its source and its payload again, whatever the link appended to it. */
  lemma FrameRoundTrip(dst: seq<octet>, src: seq<octet>, payload: seq<octet>, vlanId: Option<int>, vlanPcp: int,
                       padding: seq<octet>)
    ensures var built := BuildEthernetFrame(dst, src, payload, vlanId, vlanPcp);
            && (built.Ok? <==> |dst| == 6 && |src| == 6 && (vlanId.Some? ==> 0 <= vlanId.value < 0x1000))
            && (built.Ok? ==> ParseEthernetFrame(built.value + padding) == Ok(Some(ParsedFrame(src, payload + padding))))
  {
    var built := BuildEthernetFrame(dst, src, payload, vlanId, vlanPcp);
    if built.Ok? {
      var types := if vlanId.None? then TYPE_PTP else TYPE_VLAN + Tag(vlanId.value, vlanPcp) + TYPE_PTP;
      assert built.value + padding == (dst + src) + types + (payload + padding);
      HeadOf(dst + src, types, payload + padding);
      assert (dst + src)[6..12] == src;
    }
  }

  /** What stands before the payload: the addresses, the tag if there is one, and the type. */
  lemma FrameIsLaidOut(dst: seq<octet>, src: seq<octet>, payload: seq<octet>, vlanId: Option<int>, vlanPcp: int)
    requires BuildEthernetFrame(dst, src, payload, vlanId, vlanPcp).Ok? && 0 <= vlanPcp < 8
    ensures var f := BuildEthernetFrame(dst, src, payload, vlanId, vlanPcp).value;
            && f[0..6] == dst && f[6..12] == src
            && (if vlanId.None? then |f| == 14 + |payload| && Word(f[12], f[13]) == ETHERTYPE_PTP && f[14..] == payload
                else
                  && |f| == 18 + |payload| && Word(f[12], f[13]) == ETHERTYPE_VLAN
                  && Word(f[14], f[15]) == 0x2000 * vlanPcp + vlanId.value
                  && Word(f[16], f[17]) == ETHERTYPE_PTP && f[18..] == payload)
  {
    var types := if vlanId.None? then TYPE_PTP else TYPE_VLAN + Tag(vlanId.value, vlanPcp) + TYPE_PTP;
    HeadOf(dst + src, types, payload);
    if vlanId.Some? {
      TagHoldsPriorityAndId(vlanId.value, vlanPcp);
    }
  }

  /** The tag carries the priority, a clear DEI bit and the VLAN id. */
  lemma TagHoldsPriorityAndId(vlanId: int, vlanPcp: int)
    requires 0 <= vlanId < 0x1000 && 0 <= vlanPcp < 8
    ensures var tag := Tag(vlanId, vlanPcp); Word(tag[0], tag[1]) == 0x2000 * vlanPcp + vlanId
  {
  }
}

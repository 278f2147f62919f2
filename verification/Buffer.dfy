/** The bounded buffer between the client's receiver thread and its manager thread. */
module Buffer {
  import opened Outcomes
  import opened Octets
  import opened Header

  /** A buffered datagram; `no` is its number among all that were ingested, for the record. */
  datatype Entry = Entry(no: nat, header: PTPHeader, data: seq<octet>, wall: real) {
    /** Exactly the octets the header announces, which may be fewer than a header's own. */
    predicate Whole() {
      |data| == header.messageLength
    }
  }

  datatype Parsed = Parsed(header: PTPHeader, data: seq<octet>)

  /** A datagram is taken when it holds a header and all the octets the header announces; what
      follows them is cut off. */
  function Accepted(data: seq<octet>): Option<Parsed> {
    var h := UnpackHeader(data);
    if h.Raise? || |data| < h.value.messageLength then None
    else Some(Parsed(h.value, if |data| > h.value.messageLength then data[..Length(h.value)] else data))
  }

  function Length(h: PTPHeader): nat {
    if h.messageLength > 0 then h.messageLength else 0
  }

  // ---- Deleting by descending index ----

  function Removed<T>(s: seq<T>, i: nat): (r: seq<T>)
    requires i < |s|
    ensures |r| == |s| - 1
  {
    s[..i] + s[i + 1..]
  }

  predicate Ascending(idxs: seq<nat>) {
    forall i, j | 0 <= i < j < |idxs| :: idxs[i] < idxs[j]
  }

  predicate Within(idxs: seq<nat>, n: nat) {
    forall i | 0 <= i < |idxs| :: idxs[i] < n
  }

  /** Deletes the listed indices, the last one first. */
  function DeleteDescending<T>(s: seq<T>, idxs: seq<nat>): seq<T>
    requires Ascending(idxs) && Within(idxs, |s|)
    decreases |idxs|
  {
    if idxs == [] then s
    else DeleteDescending(Removed(s, idxs[|idxs| - 1]), idxs[..|idxs| - 1])
  }

  /** The filter: what stands at the other indices below n. */
  function Others<T>(s: seq<T>, idxs: seq<nat>, n: nat): seq<T>
    requires n <= |s|
    decreases n
  {
    if n == 0 then [] else Others(s, idxs, n - 1) + (if n - 1 in idxs then [] else [s[n - 1]])
  }

  lemma {:induction false} OthersBelow<T>(s: seq<T>, t: seq<T>, idxs: seq<nat>, less: seq<nat>, n: nat)
    requires n <= |s| && n <= |t| && s[..n] == t[..n]
    requires forall i | 0 <= i < n :: i in idxs <==> i in less
    ensures Others(s, idxs, n) == Others(t, less, n)
    decreases n
  {
    if n > 0 {
      assert s[n - 1] == s[..n][n - 1] == t[n - 1];
      assert s[..n - 1] == s[..n][..n - 1] == t[..n - 1];
      OthersBelow(s, t, idxs, less, n - 1);
    }
  }

  /** Beyond the last listed index everything stays. */
  lemma {:induction false} OthersAbove<T>(s: seq<T>, idxs: seq<nat>, from: nat, n: nat)
    requires from <= n <= |s| && forall i | from <= i < n :: i !in idxs
    ensures Others(s, idxs, n) == Others(s, idxs, from) + s[from..n]
    decreases n
  {
    if from < n {
      OthersAbove(s, idxs, from, n - 1);
      assert s[from..n] == s[from..n - 1] + [s[n - 1]];
    }
  }

  lemma PartsOfRemoved<T>(s: seq<T>, i: nat)
    requires i < |s|
    ensures Removed(s, i)[..i] == s[..i] && Removed(s, i)[i..] == s[i + 1..]
  {
  }

  lemma WholeSlice<T>(s: seq<T>, i: nat)
    requires i <= |s|
    ensures s[i..|s|] == s[i..]
  {
  }

  /** Deleting by descending index is filtering. */
  lemma {:induction false} DescendingDeletionFilters<T>(s: seq<T>, idxs: seq<nat>)
    requires Ascending(idxs) && Within(idxs, |s|)
    ensures DeleteDescending(s, idxs) == Others(s, idxs, |s|)
    decreases |idxs|
  {
    if idxs == [] {
      OthersAbove(s, idxs, 0, |s|);
    } else {
      var last, less := idxs[|idxs| - 1], idxs[..|idxs| - 1];
      var t := Removed(s, last);
      DescendingDeletionFilters(t, less);
      OthersAbove(s, idxs, last + 1, |s|);
      OthersAbove(t, less, last, |t|);
      PartsOfRemoved(s, last);
      OthersBelow(s, t, idxs, less, last);
      WholeSlice(s, last + 1);
      WholeSlice(t, last);
      assert Others(s, idxs, last + 1) == Others(s, idxs, last) + [] == Others(s, idxs, last);
    }
  }

  // ---- The buffer ----

  function Nos(entries: seq<Entry>): set<nat> {
    set i | 0 <= i < |entries| :: entries[i].no
  }

  datatype Buf = Buf(
    maxLen: nat,
    entries: seq<Entry>,
    // for the record
    ingested: seq<Entry>,
    consumed: set<nat>,
    evicted: set<nat>)
  {
    /** Each ingested datagram is in the buffer, consumed or evicted, exactly one of the three; those in
        the buffer are in order of arrival and came after all that were evicted. */
    ghost predicate Valid() {
      && |entries| <= maxLen
      && (forall n | 0 <= n < |ingested| :: ingested[n].no == n && ingested[n].Whole())
      && (forall i | 0 <= i < |entries| :: Known(entries[i]))
      && (forall i, j | 0 <= i < j < |entries| :: entries[i].no < entries[j].no)
      && (forall n: nat :: n in Accounted() <==> n < |ingested|)
      && Nos(entries) !! consumed && Nos(entries) !! evicted && consumed !! evicted
      && (forall n, i | n in evicted && 0 <= i < |entries| :: n < entries[i].no)
    }

    function Accounted(): set<nat> {
      Nos(entries) + consumed + evicted
    }

    predicate Known(e: Entry) {
      e.no < |ingested| && ingested[e.no] == e
    }
  }

  function Ingested(b: Buf, data: seq<octet>, wall: real): Buf {
    var a := Accepted(data);
    if a.None? then b else Appended(b, Entry(|b.ingested|, a.value.header, a.value.data, wall))
  }

  function Pushed(b: Buf, e: Entry): Buf {
    b.(entries := b.entries + [e], ingested := b.ingested + [e])
  }

  function OldestDropped(b: Buf): Buf
    requires b.entries != []
  {
    b.(entries := Removed(b.entries, 0), evicted := b.evicted + {b.entries[0].no})
  }

  /** Appending to a full deque drops its oldest entry. */
  function Appended(b: Buf, e: Entry): Buf {
    var p := Pushed(b, e);
    if |p.entries| > b.maxLen then OldestDropped(p) else p
  }

  function Taken(b: Buf, i: nat): Buf
    requires i < |b.entries|
  {
    b.(entries := Removed(b.entries, i), consumed := b.consumed + {b.entries[i].no})
  }

  lemma NosOfAppended(es: seq<Entry>, e: Entry)
    ensures Nos(es + [e]) == Nos(es) + {e.no}
  {
    var more := es + [e];
    assert forall i | 0 <= i < |es| :: es[i] == more[i];
    assert more[|es|] == e;
  }

  lemma NosOfRemoved(es: seq<Entry>, i: nat)
    requires i < |es| && forall j, k | 0 <= j < k < |es| :: es[j].no < es[k].no
    ensures Nos(Removed(es, i)) == Nos(es) - {es[i].no}
  {
    var left := Removed(es, i);
    assert forall j | 0 <= j < |left| :: left[j] == es[if j < i then j else j + 1];
    forall j | 0 <= j < |es| && j != i
      ensures es[j].no in Nos(left)
    {
      assert left[if j < i then j else j - 1] == es[j];
    }
  }

  /** Taking an entry out of the buffer accounts for it. */
  lemma TakenIsValid(b: Buf, i: nat)
    requires b.Valid() && i < |b.entries|
    ensures Taken(b, i).Valid()
  {
    NosOfRemoved(b.entries, i);
    assert Taken(b, i).Accounted() == b.Accounted();
  }

  lemma PushedIsValid(b: Buf, e: Entry)
    requires b.Valid() && e.no == |b.ingested| && e.Whole()
    ensures Pushed(b, e).(maxLen := b.maxLen + 1).Valid()
  {
    NosOfAppended(b.entries, e);
    assert e.no !in b.Accounted();
    assert Pushed(b, e).Accounted() == b.Accounted() + {e.no};
  }

  lemma OldestDroppedIsValid(b: Buf)
    requires b.Valid() && b.entries != []
    ensures OldestDropped(b).Valid() && |OldestDropped(b).entries| == |b.entries| - 1
  {
    NosOfRemoved(b.entries, 0);
    assert OldestDropped(b).Accounted() == b.Accounted();
  }

  /** So does ingesting one, whether or not the oldest must go. */
  lemma AppendedIsValid(b: Buf, e: Entry)
    requires b.Valid() && e.no == |b.ingested| && e.Whole()
    ensures Appended(b, e).Valid()
  {
    PushedIsValid(b, e);
    var p := Pushed(b, e).(maxLen := b.maxLen + 1);
    OldestDroppedIsValid(p);
    var q := if |p.entries| > b.maxLen then OldestDropped(p) else p;
    assert Appended(b, e) == q.(maxLen := b.maxLen) && Appended(b, e).Accounted() == q.Accounted();
  }

  /** So padding is cut off, and a message that announces its own length comes through as it was built. */
  lemma PaddingIsCut(message: seq<octet>, padding: seq<octet>, h: PTPHeader)
    requires UnpackHeader(message + padding) == Ok(h) && h.messageLength == |message|
    ensures Accepted(message + padding) == Some(Parsed(h, message))
  {
    assert (message + padding)[..|message|] == message;
    assert padding == [] ==> message + padding == message;
  }

  /** A datagram that ends before its announced length is not taken. */
  lemma TruncatedIsRefused(data: seq<octet>)
    requires |data| >= HEADER_LEN
    ensures Accepted(data).None? <==> |data| < Word(data[2], data[3])
  {
    assert data[0..8][2] == data[2] && data[0..8][3] == data[3];
  }

  /** One that announces fewer octets than a header has is taken, cut off inside its header. */
  lemma ShortAnnouncedIsCut(data: seq<octet>)
    requires |data| >= HEADER_LEN
    ensures Accepted(data).Some? && |Accepted(data).value.data| < HEADER_LEN <==> Word(data[2], data[3]) < HEADER_LEN
  {
    TruncatedIsRefused(data);
    HeaderReadBack(data);
    assert data[0..8][2] == data[2] && data[0..8][3] == data[3];
  }

  lemma AcceptedIsWhole(data: seq<octet>)
    requires Accepted(data).Some?
    ensures |Accepted(data).value.data| == Accepted(data).value.header.messageLength
  {
    HeaderReadBack(data);
  }

  /** What the passing of time does to a buffer: more is ingested, and nothing is undone. */
  ghost predicate Later(a: Buf, b: Buf) {
    && a.maxLen == b.maxLen
    && a.ingested <= b.ingested
    && a.consumed <= b.consumed && a.evicted <= b.evicted
  }

  lemma LaterStill(a: Buf, b: Buf, c: Buf)
    requires Later(a, b) && Later(b, c)
    ensures Later(a, c)
  {
  }

  lemma KnownLater(a: Buf, b: Buf, e: Entry)
    requires Later(a, b) && a.Known(e)
    ensures b.Known(e)
  {
    assert b.ingested[e.no] == a.ingested[e.no];
  }

  lemma IngestedIsValid(b: Buf, data: seq<octet>, wall: real)
    requires b.Valid()
    ensures Ingested(b, data, wall).Valid() && Later(b, Ingested(b, data, wall))
    ensures Ingested(b, data, wall).consumed == b.consumed
  {
    if Accepted(data).Some? {
      AcceptedIsWhole(data);
      AppendedIsValid(b, Entry(|b.ingested|, Accepted(data).value.header, Accepted(data).value.data, wall));
    }
  }

  lemma InNos(entries: seq<Entry>, e: Entry)
    requires e in entries
    ensures e.no in Nos(entries)
  {
    var i :| 0 <= i < |entries| && entries[i] == e;
  }

  /** What a later buffer holds of the earlier time, the earlier one held already. */
  lemma HeldBefore(a: Buf, b: Buf, e: Entry)
    requires a.Valid() && b.Valid() && Later(a, b) && e in b.entries && e.no < |a.ingested|
    ensures e in a.entries
  {
    InNos(b.entries, e);
    assert e.no in a.Accounted() && e.no in Nos(a.entries);
    var i :| 0 <= i < |a.entries| && a.entries[i].no == e.no;
    assert a.Known(a.entries[i]) && b.Known(e) && b.ingested[e.no] == a.ingested[e.no];
  }

  /** An entry stays in the buffer until it is consumed or evicted. */
  lemma HeldStill(a: Buf, b: Buf, e: Entry)
    requires a.Valid() && b.Valid() && Later(a, b) && e in a.entries
    requires e.no !in b.consumed && e.no !in b.evicted
    ensures e in b.entries
  {
    assert a.Known(e) && b.ingested[e.no] == e;
    assert e.no in b.Accounted() && e.no in Nos(b.entries);
    var i :| 0 <= i < |b.entries| && b.entries[i].no == e.no;
    assert b.Known(b.entries[i]);
  }
}

/** Segments as a receiver sees them: numbered pieces that may arrive in any order (smpp/segment.go). */
module Transport {
  import opened Octets
  import opened Options
  import opened Seqs

  const UDH_LEN := 6

  datatype SplitMethod = SAR | UDH

  datatype Segment = Segment(data: Bytes, refNum: Word, seqNum: Byte, totalParts: Byte, dataCoding: Byte)

  /** The concatenation header of section 9.2.3.24.1 of 3GPP TS 23.040. */
  function ConcatHeader(refNum: Word, totalParts: Byte, seqNum: Byte): Bytes {
    [0x05, 0x00, 0x03, refNum % 256, totalParts, seqNum]
  }

  /** Segment `i` of a message; the part numbers are truncated to a byte. */
  function PartSegment(payloads: seq<Bytes>, coding: Byte, how: SplitMethod, refNum: Word, i: nat): (s: Segment)
    requires i < |payloads|
  {
    var total, num := |payloads| % 256, (i + 1) % 256;
    Segment(if how == UDH then ConcatHeader(refNum, total, num) + payloads[i] else payloads[i],
            refNum, num, total, coding)
  }

  function PartSegments(payloads: seq<Bytes>, coding: Byte, how: SplitMethod, refNum: Word): (s: seq<Segment>)
    ensures |s| == |payloads|
  {
    seq(|payloads|, i requires 0 <= i < |payloads| => PartSegment(payloads, coding, how, refNum, i))
  }

  /** `prependUDH`. */
  method PrependUdh(payload: Bytes, refNum: Word, totalParts: Byte, seqNum: Byte) returns (result: Bytes)
    ensures result == ConcatHeader(refNum, totalParts, seqNum) + payload
  {
    var udh := new Byte[UDH_LEN] [0x05, 0x00, 0x03, refNum % 256, totalParts, seqNum];
    result := udh[..] + payload;
  }

  // ---- What a receiver reads -------------------------------------------------

  /** Reference, total and part number, as they travel with a segment. */
  datatype Label = Label(reference: Word, total: Byte, number: Byte)

  /**
   * With `udhi` the label is the concatenation header at the start of the data, and nothing else is
   * sent; otherwise it is in the sar parameters.
   */
  function ReadLabel(udhi: bool, s: Segment): Option<Label> {
    if !udhi then Some(Label(s.refNum, s.totalParts, s.seqNum))
    else if |s.data| >= UDH_LEN && s.data[0] == 5 && s.data[1] == 0 && s.data[2] == 3
    then Some(Label(s.data[3], s.data[4], s.data[5]))
    else None
  }

  /** The user data of a segment; `udhi` says that a concatenation header comes first. */
  function Content(udhi: bool, s: Segment): Bytes {
    if udhi && |s.data| >= UDH_LEN then s.data[UDH_LEN..] else s.data
  }

  predicate HasLabel(udhi: bool, s: Segment, reference: int, number: int) {
    var l := ReadLabel(udhi, s);
    l.Some? && l.value.reference == reference && l.value.number == number
  }

  /** The first segment that arrived as part `k` of the message with this reference. */
  function Numbered(udhi: bool, arrived: seq<Segment>, reference: int, k: int): Option<Segment> {
    if arrived == [] then None
    else if HasLabel(udhi, arrived[0], reference, k) then Some(arrived[0])
    else Numbered(udhi, arrived[1..], reference, k)
  }

  function ContentOf(udhi: bool, arrived: seq<Segment>, reference: int, k: int): Bytes {
    var s := Numbered(udhi, arrived, reference, k);
    if s.Some? then Content(udhi, s.value) else []
  }

  /** How many parts the first segment with this reference announces. */
  function Announced(udhi: bool, arrived: seq<Segment>, reference: int): nat {
    if arrived == [] then 0
    else
      var l := ReadLabel(udhi, arrived[0]);
      if l.Some? && l.value.reference == reference then l.value.total else Announced(udhi, arrived[1..], reference)
  }

  /** The payloads of the message with this reference, ordered by number. */
  function DeliveredFor(udhi: bool, arrived: seq<Segment>, reference: int): seq<Bytes> {
    seq(Announced(udhi, arrived, reference), i requires 0 <= i => ContentOf(udhi, arrived, reference, i + 1))
  }

  /** The message that the first segment belongs to. */
  function Delivered(udhi: bool, arrived: seq<Segment>): seq<Bytes> {
    if arrived == [] || ReadLabel(udhi, arrived[0]).None? then []
    else DeliveredFor(udhi, arrived, ReadLabel(udhi, arrived[0]).value.reference)
  }

  /** The part of the reference that travels: its low octet in a header, all of it in the parameters. */
  function Sent(how: SplitMethod, refNum: Word): Word {
    if how == UDH then refNum % 256 else refNum
  }

  // ---- The label of a part ---------------------------------------------------

  /** A part carries its reference, the total and its number, and gives back its payload. */
  lemma PartLabel(payloads: seq<Bytes>, coding: Byte, how: SplitMethod, refNum: Word, i: nat)
    requires i < |payloads|
    ensures var t := PartSegment(payloads, coding, how, refNum, i);
            && ReadLabel(how == UDH, t) == Some(Label(Sent(how, refNum), |payloads| % 256, (i + 1) % 256))
            && Content(how == UDH, t) == payloads[i]
  {
  }

  /** The header octet by octet, as section 9.2.3.24.1 of 3GPP TS 23.040 lays it out. */
  lemma HeaderOctets(payloads: seq<Bytes>, coding: Byte, refNum: Word, i: nat)
    requires i < |payloads|
    ensures PartSegment(payloads, coding, UDH, refNum, i).data ==
            [5, 0, 3, refNum % 256, |payloads| % 256, (i + 1) % 256] + payloads[i]
  {
  }

  /** All parts of a message carry the same reference. */
  lemma SameReference(payloads: seq<Bytes>, coding: Byte, refNum: Word, i: nat, j: nat)
    requires i < |payloads| && j < |payloads|
    ensures var s, t := PartSegment(payloads, coding, UDH, refNum, i).data, PartSegment(payloads, coding, UDH, refNum, j).data;
            |s| > 3 && |t| > 3 && s[3] == t[3] == refNum % 256
  {
    HeaderOctets(payloads, coding, refNum, i);
    HeaderOctets(payloads, coding, refNum, j);
  }

  // ---- Finding parts ---------------------------------------------------------

  lemma {:induction false} NumberedFinds(udhi: bool, arrived: seq<Segment>, reference: int, k: int, s: Segment)
    requires s in arrived && HasLabel(udhi, s, reference, k)
    requires forall t :: t in arrived && HasLabel(udhi, t, reference, k) ==> t == s
    ensures Numbered(udhi, arrived, reference, k) == Some(s)
  {
    if HasLabel(udhi, arrived[0], reference, k) {
      assert arrived[0] in arrived;
    } else {
      assert arrived == [arrived[0]] + arrived[1..];
      NumberedFinds(udhi, arrived[1..], reference, k, s);
    }
  }

  lemma {:induction false} NumberedAt(udhi: bool, arrived: seq<Segment>, reference: int, k: int, n: nat)
    requires n < |arrived| && HasLabel(udhi, arrived[n], reference, k)
    requires forall i :: 0 <= i < n ==> !HasLabel(udhi, arrived[i], reference, k)
    ensures Numbered(udhi, arrived, reference, k) == Some(arrived[n])
  {
    if n > 0 {
      NumberedAt(udhi, arrived[1..], reference, k, n - 1);
    }
  }

  lemma {:induction false} AnnouncedIs(udhi: bool, arrived: seq<Segment>, reference: int, total: nat, s: Segment)
    requires s in arrived && ReadLabel(udhi, s).Some? && ReadLabel(udhi, s).value.reference == reference
    requires forall t :: t in arrived ==> Announces(udhi, t, reference, total)
    ensures Announced(udhi, arrived, reference) == total
  {
    assert Announces(udhi, arrived[0], reference, total);
    if !(ReadLabel(udhi, arrived[0]).Some? && ReadLabel(udhi, arrived[0]).value.reference == reference) {
      assert arrived == [arrived[0]] + arrived[1..];
      AnnouncedIs(udhi, arrived[1..], reference, total, s);
    }
  }

  predicate Announces(udhi: bool, t: Segment, reference: int, total: nat) {
    var l := ReadLabel(udhi, t);
    l.Some? && l.value.reference == reference ==> l.value.total == total
  }

  // ---- Delivery --------------------------------------------------------------

  /** Among the segments that arrived, exactly the parts of this message carry its reference. */
  ghost predicate AllArrived(payloads: seq<Bytes>, coding: Byte, how: SplitMethod, refNum: Word, arrived: seq<Segment>) {
    && (forall i :: 0 <= i < |payloads| ==> PartSegment(payloads, coding, how, refNum, i) in arrived)
    && (forall t :: t in arrived ==> OwnOrForeign(payloads, coding, how, refNum, t))
  }

  ghost predicate OwnOrForeign(payloads: seq<Bytes>, coding: Byte, how: SplitMethod, refNum: Word, t: Segment) {
    var l := ReadLabel(how == UDH, t);
    l.Some? && l.value.reference == Sent(how, refNum) ==> t in PartSegments(payloads, coding, how, refNum)
  }

  /** A segment of the message is one of its parts, with that part's label. */
  lemma WhichPart(payloads: seq<Bytes>, coding: Byte, how: SplitMethod, refNum: Word, t: Segment) returns (j: nat)
    requires t in PartSegments(payloads, coding, how, refNum)
    ensures j < |payloads| && t == PartSegment(payloads, coding, how, refNum, j)
    ensures ReadLabel(how == UDH, t) == Some(Label(Sent(how, refNum), |payloads| % 256, (j + 1) % 256))
  {
    var segs := PartSegments(payloads, coding, how, refNum);
    j :| 0 <= j < |segs| && segs[j] == t;
    PartLabel(payloads, coding, how, refNum, j);
  }

  /** Up to 255 parts, a number belongs to one part. */
  lemma OnlyPart(payloads: seq<Bytes>, coding: Byte, how: SplitMethod, refNum: Word, i: nat, t: Segment)
    requires i < |payloads| <= 255 && OwnOrForeign(payloads, coding, how, refNum, t)
    requires HasLabel(how == UDH, t, Sent(how, refNum), i + 1)
    ensures t == PartSegment(payloads, coding, how, refNum, i)
  {
    var j := WhichPart(payloads, coding, how, refNum, t);
  }

  lemma ArrivedPart(payloads: seq<Bytes>, coding: Byte, how: SplitMethod, refNum: Word,
                    arrived: seq<Segment>, i: nat)
    requires i < |payloads| <= 255 && AllArrived(payloads, coding, how, refNum, arrived)
    ensures ContentOf(how == UDH, arrived, Sent(how, refNum), i + 1) == payloads[i]
  {
    var part := PartSegment(payloads, coding, how, refNum, i);
    PartLabel(payloads, coding, how, refNum, i);
    forall t | t in arrived && HasLabel(how == UDH, t, Sent(how, refNum), i + 1) ensures t == part {
      OnlyPart(payloads, coding, how, refNum, i, t);
    }
    NumberedFinds(how == UDH, arrived, Sent(how, refNum), i + 1, part);
  }

  lemma AnnouncesAll(payloads: seq<Bytes>, coding: Byte, how: SplitMethod, refNum: Word, t: Segment)
    requires |payloads| <= 255 && OwnOrForeign(payloads, coding, how, refNum, t)
    ensures Announces(how == UDH, t, Sent(how, refNum), |payloads|)
  {
    if t in PartSegments(payloads, coding, how, refNum) {
      var j := WhichPart(payloads, coding, how, refNum, t);
    }
  }

  /**
   * Up to 255 parts, the payloads are recovered from any order of arrival, from repeated segments,
   * and from among the segments of messages with other references.
   */
  lemma AmongOthersDelivers(payloads: seq<Bytes>, coding: Byte, how: SplitMethod, refNum: Word, arrived: seq<Segment>)
    requires 0 < |payloads| <= 255 && AllArrived(payloads, coding, how, refNum, arrived)
    ensures DeliveredFor(how == UDH, arrived, Sent(how, refNum)) == payloads
  {
    PartLabel(payloads, coding, how, refNum, 0);
    forall t | t in arrived ensures Announces(how == UDH, t, Sent(how, refNum), |payloads|) {
      AnnouncesAll(payloads, coding, how, refNum, t);
    }
    AnnouncedIs(how == UDH, arrived, Sent(how, refNum), |payloads|, PartSegment(payloads, coding, how, refNum, 0));
    forall i: nat | i < |payloads| ensures ContentOf(how == UDH, arrived, Sent(how, refNum), i + 1) == payloads[i] {
      ArrivedPart(payloads, coding, how, refNum, arrived, i);
    }
  }

  lemma PermutedArrived(payloads: seq<Bytes>, coding: Byte, how: SplitMethod, refNum: Word, arrived: seq<Segment>)
    requires multiset(arrived) == multiset(PartSegments(payloads, coding, how, refNum))
    ensures AllArrived(payloads, coding, how, refNum, arrived)
  {
    var segs := PartSegments(payloads, coding, how, refNum);
    forall i | 0 <= i < |payloads| ensures PartSegment(payloads, coding, how, refNum, i) in arrived {
      InBoth(segs, arrived, segs[i]);
    }
    forall t | t in arrived ensures t in segs {
      InBoth(arrived, segs, t);
    }
  }

  lemma FirstReference(payloads: seq<Bytes>, coding: Byte, how: SplitMethod, refNum: Word, t: Segment)
    requires t in PartSegments(payloads, coding, how, refNum)
    ensures ReadLabel(how == UDH, t).Some? && ReadLabel(how == UDH, t).value.reference == Sent(how, refNum)
  {
    var j := WhichPart(payloads, coding, how, refNum, t);
  }

  /** From the segments of one message in any order. */
  lemma AnyOrderDelivers(payloads: seq<Bytes>, coding: Byte, how: SplitMethod, refNum: Word, arrived: seq<Segment>)
    requires 0 < |payloads| <= 255
    requires multiset(arrived) == multiset(PartSegments(payloads, coding, how, refNum))
    ensures Delivered(how == UDH, arrived) == payloads
  {
    var segs := PartSegments(payloads, coding, how, refNum);
    assert |multiset(arrived)| == |multiset(segs)|;
    InBoth(arrived, segs, arrived[0]);
    FirstReference(payloads, coding, how, refNum, arrived[0]);
    PermutedArrived(payloads, coding, how, refNum, arrived);
    AmongOthersDelivers(payloads, coding, how, refNum, arrived);
  }

  lemma InOrderContent(payloads: seq<Bytes>, coding: Byte, how: SplitMethod, refNum: Word, i: nat)
    requires i < |payloads| && i < 255
    ensures ContentOf(how == UDH, PartSegments(payloads, coding, how, refNum), Sent(how, refNum), i + 1) == payloads[i]
  {
    var segs := PartSegments(payloads, coding, how, refNum);
    PartLabel(payloads, coding, how, refNum, i);
    forall j | 0 <= j < i ensures !HasLabel(how == UDH, segs[j], Sent(how, refNum), i + 1) {
      PartLabel(payloads, coding, how, refNum, j);
    }
    NumberedAt(how == UDH, segs, Sent(how, refNum), i + 1, i);
  }

  /** Whatever their number, parts that arrive in order are recovered up to the announced count. */
  lemma InOrderDelivers(payloads: seq<Bytes>, coding: Byte, how: SplitMethod, refNum: Word)
    requires payloads != []
    ensures Delivered(how == UDH, PartSegments(payloads, coding, how, refNum)) == payloads[..|payloads| % 256]
  {
    var segs := PartSegments(payloads, coding, how, refNum);
    PartLabel(payloads, coding, how, refNum, 0);
    forall i: nat | i < |payloads| % 256
      ensures ContentOf(how == UDH, segs, Sent(how, refNum), i + 1) == payloads[i]
    {
      InOrderContent(payloads, coding, how, refNum, i);
    }
  }

  predicate TrueLabel(payloads: seq<Bytes>, coding: Byte, how: SplitMethod, refNum: Word, i: nat)
    requires i < |payloads|
  {
    var l := ReadLabel(how == UDH, PartSegment(payloads, coding, how, refNum, i));
    l.Some? && l.value.number == i + 1 && l.value.total == |payloads|
  }

  /** The numbers that travel are the true ones exactly up to 255 parts. */
  lemma NumbersFit(payloads: seq<Bytes>, coding: Byte, how: SplitMethod, refNum: Word)
    requires payloads != []
    ensures (forall i :: 0 <= i < |payloads| ==> TrueLabel(payloads, coding, how, refNum, i)) <==> |payloads| <= 255
  {
    forall i | 0 <= i < |payloads|
      ensures TrueLabel(payloads, coding, how, refNum, i) <==> |payloads| % 256 == |payloads| && (i + 1) % 256 == i + 1
    {
      PartLabel(payloads, coding, how, refNum, i);
    }
    if |payloads| > 255 {
      assert !TrueLabel(payloads, coding, how, refNum, 0);
    }
  }

  // ---- References ---------------------------------------------------------------

  /** `nextSegmentRef`, `k` calls after the 32-bit counter stood at `start`. */
  function ReferenceAt(start: nat, k: nat): Word {
    (start + k) % 0x1_0000_0000 % 65536
  }

  /**
   * Two messages travel under one reference exactly when a multiple of 256 calls lies between them with
   * a header, or of 65536 without: so a receiver can tell apart any 256 messages in a row.
   */
  lemma ReferencesRecur(start: nat, i: nat, j: nat)
    requires i <= j
    ensures Sent(UDH, ReferenceAt(start, i)) == Sent(UDH, ReferenceAt(start, j)) <==> (j - i) % 256 == 0
    ensures ReferenceAt(start, i) == ReferenceAt(start, j) <==> (j - i) % 65536 == 0
  {
    Remainders(start + i);
    Remainders(start + j);
    SameLowOctet(start + i, j - i);
    SameLowWord(start + i, j - i);
  }

  lemma Remainders(n: nat)
    ensures n % 0x1_0000_0000 % 65536 == n % 65536 && n % 65536 % 256 == n % 256
  {
  }

  lemma SameLowOctet(n: nat, d: nat)
    ensures n % 256 == (n + d) % 256 <==> d % 256 == 0
  {
    var q, r := n / 256 + d / 256, n % 256 + d % 256;
    assert n + d == 256 * q + r;
    assert (n + d) % 256 == if r < 256 then r else r - 256;
  }

  lemma SameLowWord(n: nat, d: nat)
    ensures n % 65536 == (n + d) % 65536 <==> d % 65536 == 0
  {
    var q, r := n / 65536 + d / 65536, n % 65536 + d % 65536;
    assert n + d == 65536 * q + r;
    assert (n + d) % 65536 == if r < 65536 then r else r - 65536;
  }
}

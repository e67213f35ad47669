/** Splitting a text into segments, and the text a receiver gets back from them (smpp/segment.go). */
module Reassembly {
  import opened Octets
  import opened Options
  import opened Seqs
  import opened GsmAlphabet
  import opened Gsm7
  import opened Segmentation
  import opened PartCount
  import opened Coding
  import opened Transport
  import Ucs2

  // ---- What the splitter emits -----------------------------------------------

  predicate Supported(a: Alphabet, t: Text, coding: Byte) {
    coding == UCS2 || (coding == DEFAULT && Encodable(a, t))
  }

  predicate AllSupported(a: Alphabet, parts: seq<Text>, coding: Byte) {
    forall i :: 0 <= i < |parts| ==> Supported(a, parts[i], coding)
  }

  function Payloads(a: Alphabet, parts: seq<Text>, coding: Byte): (d: seq<Bytes>)
    requires a.Valid() && AllSupported(a, parts, coding)
    ensures |d| == |parts|
  {
    seq(|parts|, i requires 0 <= i < |parts| => Encoded(a, parts[i], coding).value)
  }

  /** Whether the text goes out in one segment. */
  predicate FitsOne(a: Alphabet, text: Text, coding: Byte)
    requires Supported(a, text, coding)
  {
    if coding == UCS2 then |text| <= UCS2_SINGLE_MAX else CharCount(a, text) <= GSM7_SINGLE_MAX
  }

  /** How a text that needs several segments is cut. */
  ghost predicate CutWell(a: Alphabet, text: Text, coding: Byte, parts: seq<Text>) {
    && Concat(parts) == text
    && AllSupported(a, parts, coding)
    && (coding == DEFAULT ==>
          Splits(a, text, GSM7_SEGMENT_MAX, parts) && Greedy(a, GSM7_SEGMENT_MAX, parts))
    && (coding == UCS2 ==>
          && (forall i :: 0 <= i < |parts| ==> 0 < |parts[i]| <= UCS2_SEGMENT_MAX)
          && (forall i :: 0 <= i < |parts| - 1 ==> |parts[i]| == UCS2_SEGMENT_MAX))
  }

  /** `segs` is what `SplitMessage` returns for a supported text cut into `parts`. */
  ghost predicate Emits(a: Alphabet, text: Text, coding: Byte, how: SplitMethod, refNum: Word,
                        parts: seq<Text>, segs: seq<Segment>)
    requires a.Valid() && Supported(a, text, coding)
  {
    if FitsOne(a, text, coding) then
      parts == [text] && segs == [Segment(Encoded(a, text, coding).value, 0, 1, 1, coding)]
    else
      CutWell(a, text, coding, parts) && segs == PartSegments(Payloads(a, parts, coding), coding, how, refNum)
  }

  method EncodePart(a: Alphabet, part: Text, coding: Byte) returns (data: Bytes)
    requires a.Valid() && Supported(a, part, coding)
    ensures data == Encoded(a, part, coding).value
  {
    if coding == UCS2 {
      data := Ucs2.EncodeUcs2(part);
    } else {
      var packed := EncodeGsm7(a, part);
      data := packed.value.0;
    }
  }

  /** The loops of `splitGSM7` and `splitUCS2` over the parts. */
  method EmitParts(a: Alphabet, coding: Byte, how: SplitMethod, parts: seq<Text>, refNum: Word)
    returns (segments: seq<Segment>)
    requires a.Valid() && AllSupported(a, parts, coding)
    ensures segments == PartSegments(Payloads(a, parts, coding), coding, how, refNum)
  {
    segments := [];
    ghost var payloads := Payloads(a, parts, coding);
    for i := 0 to |parts|
      invariant EmittedUpTo(segments, payloads, coding, how, refNum, i)
    {
      var data := EncodePart(a, parts[i], coding);
      PayloadAt(a, parts, coding, i);
      var segment := NumberPart(data, coding, how, refNum, i, |parts|, payloads);
      EmitNext(segments, segment, payloads, coding, how, refNum, i);
      segments := segments + [segment];
    }
    SegmentsAre(segments, payloads, coding, how, refNum);
  }

  lemma PayloadAt(a: Alphabet, parts: seq<Text>, coding: Byte, i: nat)
    requires a.Valid() && AllSupported(a, parts, coding) && i < |parts|
    ensures Payloads(a, parts, coding)[i] == Encoded(a, parts[i], coding).value
  {
  }

  lemma SegmentsAre(segments: seq<Segment>, payloads: seq<Bytes>, coding: Byte, how: SplitMethod, refNum: Word)
    requires EmittedUpTo(segments, payloads, coding, how, refNum, |payloads|)
    ensures segments == PartSegments(payloads, coding, how, refNum)
  {
  }

  ghost predicate EmittedUpTo(segments: seq<Segment>, payloads: seq<Bytes>, coding: Byte, how: SplitMethod, refNum: Word, i: nat) {
    |segments| == i <= |payloads| &&
    forall j :: 0 <= j < i ==> segments[j] == PartSegment(payloads, coding, how, refNum, j)
  }

  lemma EmitNext(segments: seq<Segment>, s: Segment, payloads: seq<Bytes>, coding: Byte, how: SplitMethod, refNum: Word, i: nat)
    requires EmittedUpTo(segments, payloads, coding, how, refNum, i) && i < |payloads|
    requires s == PartSegment(payloads, coding, how, refNum, i)
    ensures EmittedUpTo(segments + [s], payloads, coding, how, refNum, i + 1)
  {
  }

  /** The end of the loop body: the header, if any, and the truncated part numbers. */
  method NumberPart(payload: Bytes, coding: Byte, how: SplitMethod, refNum: Word, i: nat, n: nat,
                    ghost payloads: seq<Bytes>)
    returns (segment: Segment)
    requires i < |payloads| == n && payloads[i] == payload
    ensures segment == PartSegment(payloads, coding, how, refNum, i)
  {
    var data := payload;
    if how == UDH {
      data := PrependUdh(payload, refNum, n % 256, (i + 1) % 256);
    }
    segment := Segment(data, refNum, (i + 1) % 256, n % 256, coding);
  }

  /** `splitGSM7`. `refNum` is what `nextSegmentRef` would give. */
  method SplitGsm7(a: Alphabet, text: Text, how: SplitMethod, refNum: Word)
    returns (r: Option<seq<Segment>>, ghost parts: seq<Text>)
    requires a.Valid()
    ensures r.Some? <==> Encodable(a, text)
    ensures r.Some? ==> Emits(a, text, DEFAULT, how, refNum, parts, r.value)
  {
    parts := [];
    var total := Gsm7CharCount(a, text);
    if total < 0 {
      return None, parts;
    }
    if total <= GSM7_SINGLE_MAX {
      var packed := EncodeGsm7(a, text);
      return Some([Segment(packed.value.0, 0, 1, 1, DEFAULT)]), [text];
    }
    var ps := SplitTextBySeptets(a, text, GSM7_SEGMENT_MAX);
    var segments := EmitParts(a, DEFAULT, how, ps, refNum);
    return Some(segments), ps;
  }

  /** `splitUCS2`. */
  method SplitUcs2(a: Alphabet, text: Text, how: SplitMethod, refNum: Word)
    returns (segments: seq<Segment>, ghost parts: seq<Text>)
    requires a.Valid()
    ensures Emits(a, text, UCS2, how, refNum, parts, segments)
  {
    if |text| <= UCS2_SINGLE_MAX {
      var encoded := Ucs2.EncodeUcs2(text);
      return [Segment(encoded, 0, 1, 1, UCS2)], [text];
    }
    var ps := SplitRuneChunks(text, UCS2_SEGMENT_MAX);
    segments := EmitParts(a, UCS2, how, ps, refNum);
    parts := ps;
  }

  /** `SplitMessage`. */
  method SplitMessage(a: Alphabet, text: Text, coding: Byte, how: SplitMethod, refNum: Word)
    returns (r: Option<seq<Segment>>, ghost parts: seq<Text>)
    requires a.Valid()
    ensures r.Some? <==> text != [] && Supported(a, text, coding)
    ensures r.Some? ==> Emits(a, text, coding, how, refNum, parts, r.value)
  {
    parts := [];
    if |text| == 0 {
      return None, parts;
    }
    if coding == DEFAULT {
      r, parts := SplitGsm7(a, text, how, refNum);
    } else if coding == UCS2 {
      var segments;
      segments, parts := SplitUcs2(a, text, how, refNum);
      r := Some(segments);
    } else {
      r := None;
    }
  }

  // ---- What a receiver reads -------------------------------------------------

  /** The text of one payload; undecodable data counts as no text. */
  function PayloadText(a: Alphabet, coding: Byte, d: Bytes): Text
    requires a.Valid() && (coding == DEFAULT || coding == UCS2)
  {
    var r := Decoded(a, d, coding);
    if r.Some? then r.value else []
  }

  /** The payloads decoded one by one and joined. */
  function PayloadsText(a: Alphabet, coding: Byte, ds: seq<Bytes>): Text
    requires a.Valid() && (coding == DEFAULT || coding == UCS2)
  {
    if ds == [] then []
    else PayloadsText(a, coding, ds[..|ds| - 1]) + PayloadText(a, coding, ds[|ds| - 1])
  }

  /** The text a receiver gets from the segments that arrived. */
  function Received(a: Alphabet, coding: Byte, udhi: bool, arrived: seq<Segment>): Text
    requires a.Valid() && (coding == DEFAULT || coding == UCS2)
  {
    PayloadsText(a, coding, Delivered(udhi, arrived))
  }

  /** The only trailing text that decoding may add is on the last part. */
  lemma CutsLeaveNoExtra(a: Alphabet, text: Text, coding: Byte, parts: seq<Text>, i: nat)
    requires a.Valid() && CutWell(a, text, coding, parts) && i < |parts| - 1
    ensures Supported(a, parts[i], coding) && Extra(a, parts[i], coding) == []
  {
    if coding == DEFAULT {
      GreedyPartsFull(a, GSM7_SEGMENT_MAX, parts, i);
    }
  }

  lemma PartText(a: Alphabet, coding: Byte, parts: seq<Text>, i: nat)
    requires a.Valid() && AllSupported(a, parts, coding) && i < |parts|
    ensures PayloadText(a, coding, Payloads(a, parts, coding)[i]) == parts[i] + Extra(a, parts[i], coding)
  {
    RoundTrip(a, parts[i], coding);
  }

  lemma NextText(a: Alphabet, coding: Byte, ds: seq<Bytes>, k: nat)
    requires a.Valid() && (coding == DEFAULT || coding == UCS2) && k < |ds|
    ensures PayloadsText(a, coding, ds[..k + 1]) ==
            PayloadsText(a, coding, ds[..k]) + PayloadText(a, coding, ds[k])
  {
    assert ds[..k + 1][..k] == ds[..k];
  }

  lemma PartsTextNext(a: Alphabet, coding: Byte, parts: seq<Text>, k: nat)
    requires a.Valid() && AllSupported(a, parts, coding) && k < |parts| && Extra(a, parts[k], coding) == []
    requires PayloadsText(a, coding, Payloads(a, parts, coding)[..k]) == Concat(parts[..k])
    ensures PayloadsText(a, coding, Payloads(a, parts, coding)[..k + 1]) == Concat(parts[..k + 1])
  {
    NextText(a, coding, Payloads(a, parts, coding), k);
    PartText(a, coding, parts, k);
    ConcatNext(parts, k);
  }

  lemma {:induction false} PartsText(a: Alphabet, text: Text, coding: Byte, parts: seq<Text>, k: nat)
    requires a.Valid() && CutWell(a, text, coding, parts) && (coding == DEFAULT || coding == UCS2)
    requires k < |parts|
    ensures PayloadsText(a, coding, Payloads(a, parts, coding)[..k]) == Concat(parts[..k])
  {
    if k > 0 {
      PartsText(a, text, coding, parts, k - 1);
      CutsLeaveNoExtra(a, text, coding, parts, k - 1);
      PartsTextNext(a, coding, parts, k - 1);
    }
  }

  lemma ConcatOne(parts: seq<Text>)
    requires |parts| == 1
    ensures Concat(parts) == parts[0]
  {
    assert Concat(parts[..0]) + parts[0] == parts[0];
  }

  /** A text that does not fit one segment is cut into at least two parts. */
  lemma SeveralParts(a: Alphabet, text: Text, coding: Byte, parts: seq<Text>)
    requires Supported(a, text, coding)
    requires !FitsOne(a, text, coding) && CutWell(a, text, coding, parts)
    ensures |parts| >= 2
  {
    if |parts| == 1 {
      ConcatOne(parts);
    }
  }

  /** All the payloads decode to the text, and what the last one adds. */
  lemma AllPartsText(a: Alphabet, text: Text, coding: Byte, parts: seq<Text>)
    requires a.Valid() && CutWell(a, text, coding, parts) && parts != []
    ensures PayloadsText(a, coding, Payloads(a, parts, coding)) == text + Extra(a, parts[|parts| - 1], coding)
  {
    var ds, n := Payloads(a, parts, coding), |parts| - 1;
    PartsText(a, text, coding, parts, n);
    NextText(a, coding, ds, n);
    PartText(a, coding, parts, n);
    TakeAll(ds);
    TakeAll(parts);
    ConcatNext(parts, n);
  }

  /** Whether the segments of a text carry the concatenation header. */
  predicate HasHeader(a: Alphabet, text: Text, coding: Byte, how: SplitMethod)
    requires Supported(a, text, coding)
  {
    how == UDH && !FitsOne(a, text, coding)
  }

  lemma OneSegmentText(a: Alphabet, text: Text, coding: Byte, arrived: seq<Segment>)
    requires a.Valid() && Supported(a, text, coding)
    requires arrived == [Segment(Encoded(a, text, coding).value, 0, 1, 1, coding)]
    ensures Received(a, coding, false, arrived) == text + Extra(a, text, coding)
  {
    RoundTrip(a, text, coding);
    var d := Encoded(a, text, coding).value;
    var ds: seq<Bytes> := [d];
    assert Delivered(false, arrived) == ds;
    NextText(a, coding, ds, 0);
    TakeAll(ds);
    assert ds[..0] == [];
    assert [] + PayloadText(a, coding, d) == PayloadText(a, coding, d);
  }

  /** The same, in terms of the parts that the text was cut into. */
  lemma PartsReassemble(a: Alphabet, text: Text, coding: Byte, how: SplitMethod, refNum: Word,
                        parts: seq<Text>, segs: seq<Segment>, arrived: seq<Segment>)
    requires a.Valid() && Supported(a, text, coding)
    requires Emits(a, text, coding, how, refNum, parts, segs) && |parts| <= 255
    requires multiset(arrived) == multiset(segs)
    ensures parts != [] && Supported(a, parts[|parts| - 1], coding)
    ensures Received(a, coding, HasHeader(a, text, coding, how), arrived) ==
            text + Extra(a, parts[|parts| - 1], coding)
  {
    if FitsOne(a, text, coding) {
      assert |multiset(arrived)| == |multiset(segs)|;
      assert arrived[0] in multiset(segs);
      OneSegmentText(a, text, coding, arrived);
    } else {
      SeveralParts(a, text, coding, parts);
      AnyOrderDelivers(Payloads(a, parts, coding), coding, how, refNum, arrived);
      AllPartsText(a, text, coding, parts);
    }
  }

  /** Beyond 255 parts the announced count is truncated, and a proper prefix of the text arrives. */
  lemma PartsLost(a: Alphabet, text: Text, coding: Byte, how: SplitMethod, refNum: Word,
                  parts: seq<Text>, segs: seq<Segment>)
    requires a.Valid() && Supported(a, text, coding) && !FitsOne(a, text, coding)
    requires Emits(a, text, coding, how, refNum, parts, segs) && |parts| > 255
    ensures Received(a, coding, how == UDH, segs) == Concat(parts[..|parts| % 256]) < text
  {
    var k := |parts| % 256;
    InOrderDelivers(Payloads(a, parts, coding), coding, how, refNum);
    PartsText(a, text, coding, parts, k);
    ProperPrefix(parts, k);
    assert parts[k] != [];
  }

  lemma ProperPrefix(parts: seq<Text>, k: nat)
    requires k < |parts| && parts[k] != []
    ensures Concat(parts[..k]) < Concat(parts)
  {
    PartAt(parts, k);
    ConcatPrefix(parts, k);
  }

  // ---- Segment sizes ---------------------------------------------------------

  // ---- What the text decides -------------------------------------------------

  /** How many segments a text needs. */
  function SegmentCount(a: Alphabet, text: Text, coding: Byte): nat
    requires Supported(a, text, coding)
  {
    if FitsOne(a, text, coding) then 1
    else if coding == UCS2 then (|text| + UCS2_SEGMENT_MAX - 1) / UCS2_SEGMENT_MAX
    else TallyOf(a, text, GSM7_SEGMENT_MAX).closed + 1
  }

  /** What decoding adds to the text: a carriage return when the last part has 7 modulo 8 septets. */
  function Added(a: Alphabet, text: Text, coding: Byte): Text
    requires a.Valid() && Supported(a, text, coding)
  {
    if FitsOne(a, text, coding) || coding == UCS2 then Extra(a, text, coding)
    else if TallyOf(a, text, GSM7_SEGMENT_MAX).last % 8 == 7 then [a.default[CR]] else []
  }

  lemma PartsCounted(a: Alphabet, text: Text, coding: Byte, parts: seq<Text>)
    requires a.Valid() && Supported(a, text, coding) && !FitsOne(a, text, coding) && CutWell(a, text, coding, parts)
    ensures |parts| == SegmentCount(a, text, coding) && parts != []
    ensures Supported(a, parts[|parts| - 1], coding) && Extra(a, parts[|parts| - 1], coding) == Added(a, text, coding)
  {
    SeveralParts(a, text, coding, parts);
    if coding == UCS2 {
      ChunkCount(UCS2_SEGMENT_MAX, parts);
    } else {
      GreedyTally(a, GSM7_SEGMENT_MAX, parts);
    }
  }

  /**
   * Reassembly: from the segments of a text that needs at most 255, in whatever order they arrive,
   * a receiver gets exactly the text; with 7-bit coding one carriage return is added if and only
   * if the last part has 7 modulo 8 septets.
   */
  lemma AnyOrderReassembles(a: Alphabet, text: Text, coding: Byte, how: SplitMethod, refNum: Word,
                            parts: seq<Text>, segs: seq<Segment>, arrived: seq<Segment>)
    requires a.Valid() && Supported(a, text, coding) && SegmentCount(a, text, coding) <= 255
    requires Emits(a, text, coding, how, refNum, parts, segs) && multiset(arrived) == multiset(segs)
    ensures Received(a, coding, HasHeader(a, text, coding, how), arrived) == text + Added(a, text, coding)
  {
    if !FitsOne(a, text, coding) {
      PartsCounted(a, text, coding, parts);
    }
    PartsReassemble(a, text, coding, how, refNum, parts, segs, arrived);
  }

  /** The text of the message with this reference, from whatever else arrived. */
  function ReceivedFor(a: Alphabet, coding: Byte, udhi: bool, arrived: seq<Segment>, reference: int): Text
    requires a.Valid() && (coding == DEFAULT || coding == UCS2)
  {
    PayloadsText(a, coding, DeliveredFor(udhi, arrived, reference))
  }

  /**
   * Segments of other messages, repeated segments and the order do not matter, as long as the other
   * messages have other references (in a header: other low octets).
   */
  lemma AmongOthersReassembles(a: Alphabet, text: Text, coding: Byte, how: SplitMethod, refNum: Word,
                               parts: seq<Text>, segs: seq<Segment>, arrived: seq<Segment>)
    requires a.Valid() && Supported(a, text, coding) && !FitsOne(a, text, coding) && SegmentCount(a, text, coding) <= 255
    requires Emits(a, text, coding, how, refNum, parts, segs)
    requires AllArrived(Payloads(a, parts, coding), coding, how, refNum, arrived)
    ensures ReceivedFor(a, coding, how == UDH, arrived, Sent(how, refNum)) == text + Added(a, text, coding)
  {
    PartsCounted(a, text, coding, parts);
    AmongOthersDelivers(Payloads(a, parts, coding), coding, how, refNum, arrived);
    AllPartsText(a, text, coding, parts);
  }

  /**
   * Part counts are truncated to a byte, so segments that arrive in order give the text back if and
   * only if the text needs at most 255 of them: beyond that a receiver gets a proper prefix.
   */
  lemma ReassemblesIffAtMost255(a: Alphabet, text: Text, coding: Byte, how: SplitMethod, refNum: Word,
                                parts: seq<Text>, segs: seq<Segment>)
    requires a.Valid() && Supported(a, text, coding) && Emits(a, text, coding, how, refNum, parts, segs)
    ensures Received(a, coding, HasHeader(a, text, coding, how), segs) == text + Added(a, text, coding)
            <==> SegmentCount(a, text, coding) <= 255
    ensures SegmentCount(a, text, coding) > 255 ==> Received(a, coding, HasHeader(a, text, coding, how), segs) < text
  {
    if SegmentCount(a, text, coding) <= 255 {
      AnyOrderReassembles(a, text, coding, how, refNum, parts, segs, segs);
    } else {
      PartsCounted(a, text, coding, parts);
      PartsLost(a, text, coding, how, refNum, parts, segs);
    }
  }

  /** For UCS-2 that is 17085 characters. */
  lemma Ucs2Limit(a: Alphabet, text: Text)
    ensures SegmentCount(a, text, UCS2) <= 255 <==> |text| <= 17085
  {
  }

  /** For 7-bit it is the texts that can be cut into 255 parts at all. */
  lemma Gsm7Limit(a: Alphabet, text: Text, parts: seq<Text>)
    requires a.Valid() && Encodable(a, text) && !FitsOne(a, text, DEFAULT) && CutWell(a, text, DEFAULT, parts)
    ensures SegmentCount(a, text, DEFAULT) <= 255 <==> exists q :: Splits(a, text, GSM7_SEGMENT_MAX, q) && |q| <= 255
  {
    PartsCounted(a, text, DEFAULT, parts);
    if q :| Splits(a, text, GSM7_SEGMENT_MAX, q) && |q| <= 255 {
      GreedyIsShortest(a, text, GSM7_SEGMENT_MAX, parts, q);
    }
  }

  /** Without extension characters it is 39015 characters. */
  lemma BasicLimit(a: Alphabet, text: Text)
    requires AllBasic(a, text)
    ensures SegmentCount(a, text, DEFAULT) <= 255 <==> |text| <= 39015
  {
    BasicTally(a, text, GSM7_SEGMENT_MAX);
    BasicLength(a, text);
  }

  lemma {:induction false} BasicLength(a: Alphabet, text: Text)
    requires AllBasic(a, text)
    ensures Encodable(a, text) && CharCount(a, text) == |text|
  {
    if text != [] {
      BasicLength(a, text[..|text| - 1]);
    }
  }

  /** One character more, and nothing at all arrives: the count 256 is announced as 0. */
  lemma NothingArrives(a: Alphabet, text: Text, coding: Byte, how: SplitMethod, refNum: Word,
                       parts: seq<Text>, segs: seq<Segment>)
    requires a.Valid() && Supported(a, text, coding) && Emits(a, text, coding, how, refNum, parts, segs)
    requires SegmentCount(a, text, coding) == 256
    ensures Received(a, coding, HasHeader(a, text, coding, how), segs) == []
  {
    PartsCounted(a, text, coding, parts);
    AllLost(a, text, coding, how, refNum, parts, segs);
  }

  lemma AllLost(a: Alphabet, text: Text, coding: Byte, how: SplitMethod, refNum: Word,
                parts: seq<Text>, segs: seq<Segment>)
    requires a.Valid() && Supported(a, text, coding) && !FitsOne(a, text, coding)
    requires Emits(a, text, coding, how, refNum, parts, segs) && |parts| == 256
    ensures Received(a, coding, how == UDH, segs) == []
  {
    PartsLost(a, text, coding, how, refNum, parts, segs);
    NoParts(parts);
  }

  lemma NoParts(parts: seq<Text>)
    requires |parts| == 256
    ensures Concat(parts[..|parts| % 256]) == []
  {
    assert parts[..|parts| % 256] == [];
  }

  lemma Ucs2TextLost(a: Alphabet, r: Rune, how: SplitMethod, refNum: Word, parts: seq<Text>, segs: seq<Segment>)
    requires a.Valid() && Emits(a, seq(17086, _ => r), UCS2, how, refNum, parts, segs)
    ensures |segs| == 256 && Received(a, UCS2, how == UDH, segs) == []
  {
    var text := seq(17086, _ => r);
    PartsCounted(a, text, UCS2, parts);
    NothingArrives(a, text, UCS2, how, refNum, parts, segs);
  }

  lemma Gsm7TextLost(a: Alphabet, r: Rune, how: SplitMethod, refNum: Word, parts: seq<Text>, segs: seq<Segment>)
    requires a.Valid() && r in a.basic && Supported(a, seq(39016, _ => r), DEFAULT)
    requires Emits(a, seq(39016, _ => r), DEFAULT, how, refNum, parts, segs)
    ensures |segs| == 256 && Received(a, DEFAULT, how == UDH, segs) == []
  {
    var text := seq(39016, _ => r);
    BasicTally(a, text, GSM7_SEGMENT_MAX);
    BasicLength(a, text);
    PartsCounted(a, text, DEFAULT, parts);
    NothingArrives(a, text, DEFAULT, how, refNum, parts, segs);
  }

  // ---- Segment sizes ---------------------------------------------------------

  /** One 7-bit segment is used exactly when the packed text has at most 140 octets. */
  lemma Gsm7SingleIff140(a: Alphabet, text: Text)
    requires a.Valid() && Encodable(a, text)
    ensures FitsOne(a, text, DEFAULT) <==> |Pack(SeptetsOfText(a, text))| <= 140
  {
    CharCountIsSeptetCount(a, text);
  }

  /** The limit of a part is the most that fits behind a header. */
  lemma Gsm7PartLimit(a: Alphabet, part: Text)
    requires a.Valid() && Encodable(a, part)
    ensures CharCount(a, part) <= GSM7_SEGMENT_MAX <==> UDH_LEN + |Pack(SeptetsOfText(a, part))| <= 140
  {
    CharCountIsSeptetCount(a, part);
  }

  /** Every 7-bit segment fits the 140 octets of a short message. */
  lemma Gsm7SegmentsFit(a: Alphabet, text: Text, how: SplitMethod, refNum: Word,
                        parts: seq<Text>, segs: seq<Segment>, i: nat)
    requires a.Valid() && Encodable(a, text)
    requires Emits(a, text, DEFAULT, how, refNum, parts, segs) && i < |segs|
    ensures |segs[i].data| <= 140
  {
    CharCountIsSeptetCount(a, if FitsOne(a, text, DEFAULT) then text else parts[i]);
  }

  /** The stretch of a text that UCS-2 segment `i` carries. */
  function Stretch(text: Text, i: nat): Text
    requires |text| > UCS2_SINGLE_MAX ==> UCS2_SEGMENT_MAX * i <= |text|
  {
    if |text| <= UCS2_SINGLE_MAX then text
    else
      var k := UCS2_SEGMENT_MAX * i;
      text[k..if k + UCS2_SEGMENT_MAX <= |text| then k + UCS2_SEGMENT_MAX else |text|]
  }

  lemma PartIsStretch(a: Alphabet, text: Text, parts: seq<Text>, i: nat)
    requires |text| > UCS2_SINGLE_MAX && CutWell(a, text, UCS2, parts) && i < |parts|
    ensures UCS2_SEGMENT_MAX * i <= |text| && parts[i] == Stretch(text, i)
  {
    ChunkAt(UCS2_SEGMENT_MAX, parts, i);
  }

  /** A UCS-2 segment keeps to 140 octets exactly when its stretch has at most 67 units, or 70 without a header. */
  lemma Ucs2SegmentFits(a: Alphabet, text: Text, how: SplitMethod, refNum: Word,
                        parts: seq<Text>, segs: seq<Segment>, i: nat)
    requires a.Valid()
    requires Emits(a, text, UCS2, how, refNum, parts, segs) && i < |segs|
    ensures |text| > UCS2_SINGLE_MAX ==> UCS2_SEGMENT_MAX * i <= |text|
    ensures |segs[i].data| <= 140 <==>
            |Ucs2.UnitsOfText(Stretch(text, i))| <= if HasHeader(a, text, UCS2, how) then 67 else 70
  {
    if |text| > UCS2_SINGLE_MAX {
      PartIsStretch(a, text, parts, i);
    }
  }

  /** All segments keep to 140 octets exactly when every stretch of the text does. */
  lemma Ucs2MessageFits(a: Alphabet, text: Text, how: SplitMethod, refNum: Word, parts: seq<Text>, segs: seq<Segment>)
    requires a.Valid() && text != [] && Emits(a, text, UCS2, how, refNum, parts, segs)
    ensures (forall i :: 0 <= i < |segs| ==> |segs[i].data| <= 140) <==>
            forall i :: 0 <= i < SegmentCount(a, text, UCS2) ==> StretchFits(a, text, how, i)
  {
    if !FitsOne(a, text, UCS2) {
      PartsCounted(a, text, UCS2, parts);
    }
    assert |segs| == SegmentCount(a, text, UCS2);
    forall i | 0 <= i < |segs| ensures |segs[i].data| <= 140 <==> StretchFits(a, text, how, i) {
      Ucs2SegmentFits(a, text, how, refNum, parts, segs, i);
    }
  }

  predicate StretchFits(a: Alphabet, text: Text, how: SplitMethod, i: nat) {
    (|text| > UCS2_SINGLE_MAX ==> UCS2_SEGMENT_MAX * i <= |text|) &&
    |Ucs2.UnitsOfText(Stretch(text, i))| <= if HasHeader(a, text, UCS2, how) then 67 else 70
  }

  /** In the Basic Multilingual Plane every UCS-2 segment fits. */
  lemma Ucs2BmpSegmentsFit(a: Alphabet, text: Text, how: SplitMethod, refNum: Word,
                           parts: seq<Text>, segs: seq<Segment>, i: nat)
    requires a.Valid() && (forall j :: 0 <= j < |text| ==> text[j] < 0x10000)
    requires Emits(a, text, UCS2, how, refNum, parts, segs) && i < |segs|
    ensures |segs[i].data| <= 140
  {
    Ucs2SegmentFits(a, text, how, refNum, parts, segs, i);
    BmpStretch(text, i);
  }

  lemma BmpStretch(text: Text, i: nat)
    requires |text| > UCS2_SINGLE_MAX ==> UCS2_SEGMENT_MAX * i <= |text|
    requires forall j :: 0 <= j < |text| ==> text[j] < 0x10000
    ensures |Ucs2.UnitsOfText(Stretch(text, i))| == |Stretch(text, i)| <= if |text| <= UCS2_SINGLE_MAX then 70 else 67
  {
    Ucs2.UnitCount(Stretch(text, i));
  }

  /** Seventy characters beyond the BMP are sent as one segment of 280 octets. */
  lemma Ucs2BeyondBmpOverflows(a: Alphabet, how: SplitMethod, refNum: Word, r: Rune, parts: seq<Text>, segs: seq<Segment>)
    requires a.Valid() && r >= 0x10000
    requires Emits(a, seq(70, _ => r), UCS2, how, refNum, parts, segs)
    ensures |segs| == 1 && |segs[0].data| == 280
  {
    AllBeyondBmp(seq(70, _ => r));
  }

  lemma {:induction false} AllBeyondBmp(t: Text)
    requires forall i :: 0 <= i < |t| ==> t[i] >= 0x10000
    ensures |Ucs2.UnitsOfText(t)| == 2 * |t|
  {
    if t != [] {
      AllBeyondBmp(t[..|t| - 1]);
    }
  }
}

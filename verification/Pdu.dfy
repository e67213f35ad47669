/** PDU framing (smpp/pdu.go, section 3.2 of SMPP v3.4) and TLV extraction (smpp/pdu_fields.go). */
module Pdu {
  import opened Octets
  import opened Options
  import opened Seqs
  import opened Fields
  import opened Tlv

  type Uint32 = x: int | 0 <= x < 0x1_0000_0000

  const PDU_HEADER_LEN := 16
  const LIMIT := 0x1_0000_0000

  function Be32(v: Uint32): (d: Bytes)
    ensures |d| == 4
  {
    Be16(v / 65536) + Be16(v % 65536)
  }

  function Uint32At(d: Bytes, i: nat): Uint32
    requires i + 4 <= |d|
  {
    65536 * (Uint16(d[i], d[i + 1]) as int) + Uint16(d[i + 2], d[i + 3]) as int
  }

  lemma Be32RoundTrip(v: Uint32, d: Bytes, i: nat)
    requires i + 4 <= |d| && d[i..i + 4] == Be32(v)
    ensures Uint32At(d, i) == v
  {
    var b := d[i..i + 4];
    assert b[0] == d[i] && b[1] == d[i + 1] && b[2] == d[i + 2] && b[3] == d[i + 3];
    assert Uint16(b[0], b[1]) == v / 65536 && Uint16(b[2], b[3]) == v % 65536;
  }

  /** Everything of a PDU but its body and TLVs. */
  datatype Header = Header(commandLength: Uint32, commandId: CommandId, commandStatus: Uint32, sequenceNumber: Uint32)

  function HeaderBytes(h: Header): (d: Bytes)
    ensures |d| == PDU_HEADER_LEN
  {
    Be32(h.commandLength) + Be32(h.commandId) + Be32(h.commandStatus) + Be32(h.sequenceNumber)
  }

  lemma Be32Octets(v: Uint32)
    ensures Be32(v) == [v / 16777216, v / 65536 % 256, v / 256 % 256, v % 256]
  {
    LengthOctets(v);
    TopOctet(v);
  }

  lemma TopOctet(v: nat)
    ensures v / 65536 / 256 == v / 16777216
  {
    var q := v / 65536;
    var p := q / 256;
    assert v == 16777216 * p + 65536 * (q % 256) + v % 65536;
  }

  /** The header on the wire: length, command, status and sequence number, most significant octets first. */
  lemma HeaderOctets(h: Header)
    ensures HeaderBytes(h)[..4] == [h.commandLength / 16777216, h.commandLength / 65536 % 256, h.commandLength / 256 % 256, h.commandLength % 256]
    ensures HeaderBytes(h)[4..8] == [h.commandId / 16777216, h.commandId / 65536 % 256, h.commandId / 256 % 256, h.commandId % 256]
    ensures HeaderBytes(h)[8..12] == [h.commandStatus / 16777216, h.commandStatus / 65536 % 256, h.commandStatus / 256 % 256, h.commandStatus % 256]
    ensures HeaderBytes(h)[12..] == [h.sequenceNumber / 16777216, h.sequenceNumber / 65536 % 256, h.sequenceNumber / 256 % 256, h.sequenceNumber % 256]
  {
    Be32Octets(h.commandLength);
    Be32Octets(h.commandId);
    Be32Octets(h.commandStatus);
    Be32Octets(h.sequenceNumber);
    Quarters(Be32(h.commandLength), Be32(h.commandId), Be32(h.commandStatus), Be32(h.sequenceNumber));
  }

  lemma Quarters(a: Bytes, b: Bytes, c: Bytes, d: Bytes)
    requires |a| == |b| == |c| == |d| == 4
    ensures var s := a + b + c + d; s[..4] == a && s[4..8] == b && s[8..12] == c && s[12..] == d
  {
  }

  /** The PDU record that the source mutates when it is encoded. */
  class Pdu {
    var commandLength: Uint32
    const commandId: CommandId
    const commandStatus: Uint32
    const sequenceNumber: Uint32
    const body: Bytes
    const tlvs: Option<TlvSet>

    constructor (commandId: CommandId, commandStatus: Uint32, sequenceNumber: Uint32, body: Bytes, tlvs: Option<TlvSet>)
      ensures this.commandId == commandId && this.commandStatus == commandStatus
      ensures this.sequenceNumber == sequenceNumber && this.body == body && this.tlvs == tlvs
    {
      this.commandLength := 0;
      this.commandId := commandId;
      this.commandStatus := commandStatus;
      this.sequenceNumber := sequenceNumber;
      this.body := body;
      this.tlvs := tlvs;
    }

    /** The parameters to send; `nil` sends none. */
    function Parameters(): TlvSet {
      if tlvs.Some? then tlvs.value else map[]
    }

    /** `EncodePDU`: header, body and TLVs in ascending order; the length is stored in the PDU. */
    method Encode() returns (r: Bytes, ghost tlvBytes: Bytes)
      requires forall d :: Encodes(Parameters(), d) ==> PDU_HEADER_LEN + |body| + |d| < LIMIT
      modifies this`commandLength
      ensures Encodes(Parameters(), tlvBytes)
      ensures commandLength == PDU_HEADER_LEN + |body| + |tlvBytes|
      ensures r == HeaderBytes(Header(commandLength, commandId, commandStatus, sequenceNumber)) + body + tlvBytes
    {
      var encoded: Bytes := [];
      if tlvs.Some? {
        encoded := Tlv.Encode(tlvs.value);
      } else {
        NothingEncodes();
      }
      tlvBytes := encoded;
      commandLength := PDU_HEADER_LEN + |body| + |encoded|;
      r := FillBuffer(HeaderBytes(Header(commandLength, commandId, commandStatus, sequenceNumber)), body, encoded);
    }
  }

  /** The buffer that `EncodePDU` fills piece by piece. */
  method FillBuffer(header: Bytes, body: Bytes, encoded: Bytes) returns (r: Bytes)
    ensures r == header + body + encoded
  {
    var n := |header| + |body| + |encoded|;
    var buf := new Byte[n](_ => 0);
    Tlv.Put(buf, 0, header);
    Tlv.Put(buf, |header|, body);
    if |encoded| > 0 {
      Tlv.Put(buf, |header| + |body|, encoded);
    }
    TakeAll(buf[..]);
    r := buf[..n];
  }

  lemma NothingEncodes()
    ensures Encodes(map[], [])
  {
    var none: seq<Tag> := [];
    var t: TlvSet := map[];
    assert Ascending(none) && Elements(none) == t.Keys && Listed(t, none) && Triples(t, none) == [];
  }

  /** `DecodePDU`: the header, and all the octets that its length covers. */
  function DecodePdu(data: Bytes): (r: Option<(Header, Bytes)>) {
    if |data| < PDU_HEADER_LEN then None
    else
      var cmdLen := Uint32At(data, 0);
      if |data| % LIMIT < cmdLen then None
      else
        Some((Header(cmdLen, Uint32At(data, 4), Uint32At(data, 8), Uint32At(data, 12)),
              if cmdLen > PDU_HEADER_LEN then data[PDU_HEADER_LEN..cmdLen] else []))
  }

  lemma HeaderSlices(h: Header, rest: Bytes)
    ensures var d := HeaderBytes(h) + rest;
      && d[0..4] == Be32(h.commandLength) && d[4..8] == Be32(h.commandId)
      && d[8..12] == Be32(h.commandStatus) && d[12..16] == Be32(h.sequenceNumber)
  {
  }

  lemma HeaderReadsBack(h: Header, rest: Bytes)
    ensures var d := HeaderBytes(h) + rest;
      && Uint32At(d, 0) == h.commandLength && Uint32At(d, 4) == h.commandId
      && Uint32At(d, 8) == h.commandStatus && Uint32At(d, 12) == h.sequenceNumber
  {
    var d := HeaderBytes(h) + rest;
    HeaderSlices(h, rest);
    Be32RoundTrip(h.commandLength, d, 0);
    Be32RoundTrip(h.commandId, d, 4);
    Be32RoundTrip(h.commandStatus, d, 8);
    Be32RoundTrip(h.sequenceNumber, d, 12);
  }

  lemma DecodeFrame(h: Header, content: Bytes, d: Bytes)
    requires PDU_HEADER_LEN <= h.commandLength == PDU_HEADER_LEN + |content| <= |d| < LIMIT
    requires Uint32At(d, 0) == h.commandLength && Uint32At(d, 4) == h.commandId
    requires Uint32At(d, 8) == h.commandStatus && Uint32At(d, 12) == h.sequenceNumber
    requires d[PDU_HEADER_LEN..PDU_HEADER_LEN + |content|] == content
    ensures DecodePdu(d) == Some((h, content))
  {
  }

  /** Framing: the PDU is recovered, and octets after it are not touched. */
  lemma FrameRoundTrip(h: Header, content: Bytes, after: Bytes)
    requires h.commandLength == PDU_HEADER_LEN + |content| && PDU_HEADER_LEN + |content| + |after| < LIMIT
    ensures DecodePdu(HeaderBytes(h) + content + after) == Some((h, content))
  {
    var d := HeaderBytes(h) + content + after;
    HeaderReadsBack(h, content + after);
    Assoc(HeaderBytes(h), content, after);
    Middle(HeaderBytes(h), content, after);
    DecodeFrame(h, content, d);
  }

  // ---- ExtractTLVs -----------------------------------------------------------

  datatype Extracted = NoBoundary | Malformed | Parsed(tlvs: TlvSet)

  /** `ExtractTLVs`. */
  function ExtractTlvs(cmd: CommandId, body: Bytes): Extracted {
    var offset := MandatoryBodyLen(cmd, body);
    if offset < 0 || offset > |body| then NoBoundary
    else if offset == |body| then Parsed(map[])
    else
      var r := Decoded(body[offset..], map[]);
      if r.None? then Malformed else Parsed(r.value)
  }

  /** The size of a set on the wire. */
  ghost function Weight(t: TlvSet): nat
    decreases |t|
  {
    if t == map[] then 0
    else
      var tag :| tag in t;
      HEADER_LEN + |t[tag]| + Weight(t - {tag})
  }

  lemma {:induction false} WeightOf(t: TlvSet, tag: Tag)
    requires tag in t
    ensures Weight(t) == HEADER_LEN + |t[tag]| + Weight(t - {tag})
    decreases |t|
  {
    var first :| first in t && Weight(t) == HEADER_LEN + |t[first]| + Weight(t - {first});
    if first != tag {
      WeightOf(t - {first}, tag);
      WeightOf(t - {tag}, first);
      assert t - {first} - {tag} == t - {tag} - {first};
    }
  }

  lemma WeightOfUpdate(t: TlvSet, tag: Tag, v: Bytes)
    ensures Weight(t[tag := v]) <= Weight(t) + HEADER_LEN + |v|
  {
    WeightOf(t[tag := v], tag);
    if tag in t {
      WeightOf(t, tag);
      assert t[tag := v] - {tag} == t - {tag};
    } else {
      assert t[tag := v] - {tag} == t;
    }
  }

  /** What was read is no larger than what it was read from. */
  lemma {:induction false} DecodedWeight(data: Bytes, soFar: TlvSet)
    requires Decoded(data, soFar).Some?
    ensures Weight(Decoded(data, soFar).value) <= Weight(soFar) + |data|
    decreases |data|
  {
    if data != [] {
      var tag, n := Uint16(data[0], data[1]), Uint16(data[2], data[3]);
      var v := data[HEADER_LEN..HEADER_LEN + n];
      WeightOfUpdate(soFar, tag, v);
      DecodedWeight(data[HEADER_LEN + n..], soFar[tag := v]);
    }
  }

  lemma {:induction false} TriplesWeight(t: TlvSet, tags: seq<Tag>)
    requires Ascending(tags) && Listed(t, tags) && Elements(tags) == t.Keys
    ensures |Triples(t, tags)| == Weight(t)
    decreases |tags|
  {
    if tags == [] {
      assert Elements(tags) == {};
      assert t == map[];
    } else {
      var tag := tags[0];
      assert tag in Elements(tags);
      ElementsRest(tags);
      var t1 := t - {tag};
      assert forall i :: 0 <= i < |tags[1..]| ==> tags[1..][i] in Elements(tags[1..]);
      TriplesWeight(t1, tags[1..]);
      SameTriples(t, t1, tags[1..]);
      WeightOf(t, tag);
    }
  }

  lemma {:induction false} SameTriples(t: TlvSet, u: TlvSet, tags: seq<Tag>)
    requires Listed(t, tags) && Listed(u, tags) && forall tag :: tag in u ==> tag in t && t[tag] == u[tag]
    ensures Triples(t, tags) == Triples(u, tags)
  {
    if tags != [] {
      SameTriples(t, u, tags[1..]);
    }
  }

  /** A set is not read from fewer octets than it takes. */
  lemma NotFromLess(t: TlvSet, d: Bytes, data: Bytes)
    requires Encodes(t, d) && |data| < |d|
    ensures Decoded(data, map[]) != Some(t)
  {
    var tags :| Ascending(tags) && Elements(tags) == t.Keys && Listed(t, tags) && d == Triples(t, tags);
    TriplesWeight(t, tags);
    if Decoded(data, map[]) == Some(t) {
      DecodedWeight(data, map[]);
    }
  }

  /** The only bodies that do not say where they end: the empty ones of C-string responses. */
  predicate SelfDelimiting(cmd: CommandId, body: Bytes) {
    !(LayoutOf(cmd).OptionalCString? && body == [])
  }

  lemma BoundaryKept(cmd: CommandId, body: Bytes, suffix: Bytes)
    requires MandatoryBodyLen(cmd, body) == |body| && SelfDelimiting(cmd, body)
    ensures MandatoryBodyLen(cmd, body + suffix) == |body|
  {
    match LayoutOf(cmd)
    case Known(fs) => SuffixIgnored(fs, body, suffix);
    case OptionalCString => SuffixIgnored([CString], body, suffix);
  }

  lemma EmptyEncodesEmpty(t: TlvSet, d: Bytes)
    requires Encodes(t, d)
    ensures d == [] <==> t == map[]
  {
    var tags :| Ascending(tags) && Elements(tags) == t.Keys && Listed(t, tags) && d == Triples(t, tags);
    if tags == [] {
      assert Elements(tags) == {};
    } else {
      assert tags[0] in Elements(tags);
    }
  }

  lemma ExtractedFromSelfDelimiting(cmd: CommandId, body: Bytes, t: TlvSet, d: Bytes)
    requires MandatoryBodyLen(cmd, body) == |body| && SelfDelimiting(cmd, body) && Encodes(t, d)
    ensures ExtractTlvs(cmd, body + d) == Parsed(t) <==> Sizes16(t)
  {
    BoundaryKept(cmd, body, d);
    RoundTrip(t, d);
    EmptyEncodesEmpty(t, d);
    assert (body + d)[|body|..] == d;
  }

  lemma ExtractedFromEmptyResponse(cmd: CommandId, t: TlvSet, d: Bytes)
    requires LayoutOf(cmd).OptionalCString? && Encodes(t, d)
    ensures ExtractTlvs(cmd, d) == Parsed(t) <==> t == map[]
  {
    EmptyEncodesEmpty(t, d);
    var offset := MandatoryBodyLen(cmd, d);
    if d != [] && 0 < offset < |d| {
      NotFromLess(t, d, d[offset..]);
    }
    if d != [] && offset >= 0 {
      WalkAccepts([CString], d);
      StringIsNotEmpty(d);
    }
  }

  lemma StringIsNotEmpty(d: Bytes)
    requires WalkedLen([CString], d) >= 0
    ensures 0 < WalkedLen([CString], d) <= |d|
  {
    PutTake(CString, d);
    assert [CString][1..] == [];
  }

  lemma Regrouped(a: Bytes, b: Bytes, c: Bytes)
    ensures a + b + c == a + (b + c) + []
  {
  }

  /**
   * The PDU round trip: from an encoded PDU whose body consists of its mandatory fields, the
   * header fields and the TLVs are recovered, the TLVs if and only if every value is under 65536
   * octets and the body says where it ends (or there is nothing after it).
   */
  lemma PduRoundTrip(h: Header, body: Bytes, t: TlvSet, d: Bytes)
    requires Encodes(t, d) && h.commandLength == PDU_HEADER_LEN + |body| + |d|
    requires MandatoryBodyLen(h.commandId, body) == |body|
    ensures DecodePdu(HeaderBytes(h) + body + d) == Some((h, body + d))
    ensures ExtractTlvs(h.commandId, body + d) == Parsed(t) <==>
            Sizes16(t) && (SelfDelimiting(h.commandId, body) || t == map[])
  {
    FrameRoundTrip(h, body + d, []);
    Regrouped(HeaderBytes(h), body, d);
    if SelfDelimiting(h.commandId, body) {
      ExtractedFromSelfDelimiting(h.commandId, body, t, d);
    } else {
      assert body + d == d;
      ExtractedFromEmptyResponse(h.commandId, t, d);
    }
  }

  /** A submit_sm_resp with an empty body and any one parameter: the parameter is not found again. */
  lemma ParameterLost(tag: Tag, v: Bytes)
    ensures Encodes(map[tag := v], Triple(tag, v)) && MandatoryBodyLen(SUBMIT_SM_RESP, []) == 0
    ensures ExtractTlvs(SUBMIT_SM_RESP, [] + Triple(tag, v)) != Parsed(map[tag := v])
  {
    OneEncodes(tag, v);
    assert tag in map[tag := v];
    assert [] + Triple(tag, v) == Triple(tag, v);
    ExtractedFromEmptyResponse(SUBMIT_SM_RESP, map[tag := v], Triple(tag, v));
  }

  const SUBMIT_SM_RESP: CommandId := 0x80000004

  lemma OneEncodes(tag: Tag, v: Bytes)
    ensures Encodes(map[tag := v], Triple(tag, v))
  {
    var t: TlvSet, tags: seq<Tag> := map[tag := v], [tag];
    assert Triples(t, tags[1..]) == [];
    assert Triples(t, tags) == Triple(tag, v) + [];
    assert Ascending(tags) && Elements(tags) == t.Keys && Listed(t, tags) && Triple(tag, v) == Triples(t, tags);
  }
}

/**
 * Bodies of submit_sm and deliver_sm: builders, the lenient parsers and the rewriting of the
 * source address (smpp/pdu.go, gateway/connection.go).
 */
module ShortMessage {
  import opened Octets
  import opened Options
  import opened Seqs
  import opened Fields
  import opened Tlv
  import opened Pdu

  const SUBMIT_SM: CommandId := 0x00000004
  const DELIVER_SM: CommandId := 0x00000005
  const MESSAGE_PAYLOAD: Tag := 0x0424
  const SHORT_MAX := 254

  // ---- Reading C-strings leniently -------------------------------------------

  /** What `ReadCString` reads off the front of `d`; a missing NUL ends the string with the data. */
  function TakeCString(d: Bytes): (r: (Bytes, Bytes)) {
    var s := UpToNul(d);
    (s, if |s| == |d| then [] else d[|s| + 1..])
  }

  lemma TakeCStringOf(s: Bytes, rest: Bytes)
    requires NulFree(s)
    ensures TakeCString(CStr(s) + rest) == (s, rest)
  {
    UpToNulOf(s, rest);
    assert (CStr(s) + rest)[|s| + 1..] == rest;
  }

  /** Where the strict walk goes on, the lenient one does the same. */
  lemma LenientCString(d: Bytes)
    requires TakeField(CString, d).Some?
    ensures TakeCString(d) == TakeField(CString, d).value
  {
  }

  /** `ReadCString`. */
  method ReadCString(data: Bytes, offset: nat) returns (s: Bytes, end: nat)
    ensures offset <= |data| ==> offset <= end <= |data| && (s, data[end..]) == TakeCString(data[offset..])
    ensures offset > |data| ==> s == [] && end == offset
  {
    if offset >= |data| {
      AllString([]);
      return [], offset;
    }
    end := offset;
    while end < |data| && data[end] != 0
      invariant offset <= end <= |data| && NulFree(data[offset..end])
    {
      TakeNext(data[offset..], end - offset);
      assert data[offset..end] == data[offset..][..end - offset];
      assert data[offset..end + 1] == data[offset..][..end + 1 - offset];
      end := end + 1;
    }
    s := data[offset..end];
    if end < |data| {
      assert data[offset..] == CStr(s) + data[end + 1..];
      TakeCStringOf(s, data[end + 1..]);
      end := end + 1;
    } else {
      assert s == data[offset..] && data[end..] == [];
      AllString(s);
    }
  }

  lemma AllString(d: Bytes)
    requires NulFree(d)
    ensures TakeCString(d) == (d, [])
  {
    assert |UpToNul(d)| == |d|;
    TakeAll(d);
  }

  // ---- The lenient parsers ---------------------------------------------------

  datatype Sm = Sm(source: Bytes, dest: Bytes, esm: Byte, message: Bytes)

  /** `ParseDeliverSM`: whatever is missing at the end of the body is left empty. */
  function ParseDeliverSm(body: Bytes): (p: Sm) {
    var d1 := TakeCString(body).1;
    if |d1| < 2 then Sm([], [], 0, [])
    else
      var (source, d2) := TakeCString(d1[2..]);
      ParseFromDest(source, d2)
  }

  function ParseFromDest(source: Bytes, d2: Bytes): Sm {
    if |d2| < 2 then Sm(source, [], 0, [])
    else
      var (dest, d3) := TakeCString(d2[2..]);
      if d3 == [] then Sm(source, dest, 0, [])
      else Sm(source, dest, d3[0], MessageAfterEsmClass(d3))
  }

  /** The short_message of a body, from esm_class on. */
  function MessageAfterEsmClass(d: Bytes): Bytes
    requires d != []
  {
    if |d| < 3 then []
    else
      var d5 := TakeCString(TakeCString(d[3..]).1).1;
      if |d5| < 5 || 5 + d5[4] as int > |d5| then [] else d5[5..5 + d5[4] as int]
  }

  /** `ParseSubmitSMAddresses`. */
  function ParseSubmitSmAddresses(body: Bytes): (Bytes, Bytes) {
    var d1 := TakeCString(body).1;
    if |d1| < 2 then ([], [])
    else
      var (source, d2) := TakeCString(d1[2..]);
      (source, if |d2| < 2 then [] else TakeCString(d2[2..]).0)
  }

  /** `ParseDeliverSM`, over an offset. */
  method ParseDeliverSmByOffset(body: Bytes) returns (p: Sm)
    ensures p == ParseDeliverSm(body)
  {
    assert body[0..] == body;
    var _, offset := ReadCString(body, 0);
    if offset >= |body| { return Sm([], [], 0, []); }
    offset := offset + 1;
    if offset >= |body| { return Sm([], [], 0, []); }
    offset := offset + 1;
    DropDrop(body, offset - 2, 2);
    var source, end := ReadCString(body, offset);
    p := ParseFromDestByOffset(source, body, end);
  }

  method ParseFromDestByOffset(source: Bytes, body: Bytes, start: nat) returns (p: Sm)
    requires start <= |body|
    ensures p == ParseFromDest(source, body[start..])
  {
    var offset := start;
    if offset >= |body| { return Sm(source, [], 0, []); }
    offset := offset + 1;
    if offset >= |body| { return Sm(source, [], 0, []); }
    offset := offset + 1;
    DropDrop(body, start, 2);
    var dest, end := ReadCString(body, offset);
    if end >= |body| { return Sm(source, dest, 0, []); }
    var message := ParseMessageByOffset(body, end);
    p := Sm(source, dest, body[end], message);
  }

  /** `ParseDeliverSM`, from esm_class on. */
  method ParseMessageByOffset(body: Bytes, start: nat) returns (message: Bytes)
    requires start < |body|
    ensures message == MessageAfterEsmClass(body[start..])
  {
    message := [];
    var offset := start + 1;
    if offset >= |body| { return; }
    offset := offset + 1;
    if offset >= |body| { return; }
    offset := offset + 1;
    DropDrop(body, start, 3);
    var _, afterSchedule := ReadCString(body, offset);
    var _, afterValidity := ReadCString(body, afterSchedule);
    if afterValidity + 4 >= |body| { return; }
    var smLen := body[afterValidity + 4] as int;
    offset := afterValidity + 5;
    if smLen > 0 && offset + smLen <= |body| {
      message := body[offset..offset + smLen];
      DropSlice(body, afterValidity, 5, 5 + smLen);
    }
  }

  // ---- Strict and lenient reading --------------------------------------------

  lemma WalkHead(f: Field, fs: seq<Field>, d: Bytes, vs: seq<Bytes>, rest: Bytes)
    requires Walk([f] + fs, d) == Some((vs, rest))
    ensures TakeField(f, d).Some? && vs != [] && TakeField(f, d).value.0 == vs[0]
    ensures Walk(fs, TakeField(f, d).value.1) == Some((vs[1..], rest))
  {
    assert ([f] + fs)[1..] == fs;
  }

  /** Type of number, numbering plan and address. */
  const ADDRESS: seq<Field> := [Fixed(2), CString]

  const FROM_ESM_CLASS: seq<Field> := [Fixed(3), CString, CString, Fixed(4), Counted]

  lemma ShortMessageParts()
    ensures SHORT_MESSAGE == [CString] + (ADDRESS + (ADDRESS + FROM_ESM_CLASS))
  {
  }

  /** Strict and lenient reading of an address field. */
  lemma AddressFields(fs: seq<Field>)
    ensures ADDRESS + fs == [Fixed(2)] + ([CString] + fs)
  {
  }

  lemma AddressHead(fs: seq<Field>, d: Bytes, vs: seq<Bytes>, rest: Bytes)
    requires Walk(ADDRESS + fs, d) == Some((vs, rest))
    ensures |d| >= 2 && |vs| >= 2 && vs[0] == d[..2] && TakeCString(d[2..]).0 == vs[1]
    ensures Walk(fs, TakeCString(d[2..]).1) == Some((vs[2..], rest))
  {
    AddressFields(fs);
    WalkHead(Fixed(2), [CString] + fs, d, vs, rest);
    WalkHead(CString, fs, d[2..], vs[1..], rest);
    LenientCString(d[2..]);
    DropDrop(vs, 1, 1);
  }

  /** From esm_class on, the lenient parser reads what the walker steps over. */
  lemma MessageAgrees(d: Bytes, vs: seq<Bytes>, rest: Bytes)
    requires Walk(FROM_ESM_CLASS, d) == Some((vs, rest))
    ensures |vs| == 5 && |vs[0]| == 3 && d != [] && d[0] == vs[0][0] && MessageAfterEsmClass(d) == vs[4]
  {
    var t2 := [CString] + ([Fixed(4)] + [Counted]);
    assert FROM_ESM_CLASS == [Fixed(3)] + ([CString] + t2);
    WalkHead(Fixed(3), [CString] + t2, d, vs, rest);
    WalkHead(CString, t2, d[3..], vs[1..], rest);
    LenientCString(d[3..]);
    LastFieldsAgree(TakeCString(d[3..]).1, vs[2..], rest);
  }

  lemma LastFieldsAgree(d: Bytes, vs: seq<Bytes>, rest: Bytes)
    requires Walk([CString] + ([Fixed(4)] + [Counted]), d) == Some((vs, rest))
    ensures |vs| == 3
    ensures var d5 := TakeCString(d).1; |d5| >= 5 && 5 + d5[4] as int <= |d5| && d5[5..5 + d5[4] as int] == vs[2]
  {
    WalkHead(CString, [Fixed(4)] + [Counted], d, vs, rest);
    LenientCString(d);
    var d5 := TakeCString(d).1;
    WalkHead(Fixed(4), [Counted], d5, vs[1..], rest);
    assert [Counted] == [Counted] + [];
    WalkHead(Counted, [], d5[4..], vs[2..], rest);
    var n := d5[4] as int;
    assert d5[4..][0] == d5[4] && d5[4..][1..1 + n] == d5[5..5 + n];
  }

  /** Whenever the strict walker accepts a body, the lenient parsers read the same fields. */
  lemma StrictImpliesLenient(body: Bytes, vs: seq<Bytes>, rest: Bytes)
    requires Walk(SHORT_MESSAGE, body) == Some((vs, rest))
    ensures |vs| == 10 && |vs[5]| == 3
    ensures ParseDeliverSm(body) == Sm(vs[2], vs[4], vs[5][0], vs[9])
    ensures ParseSubmitSmAddresses(body) == (vs[2], vs[4])
  {
    ShortMessageParts();
    WalkHead(CString, ADDRESS + (ADDRESS + FROM_ESM_CLASS), body, vs, rest);
    LenientCString(body);
    var d1 := TakeCString(body).1;
    AddressHead(ADDRESS + FROM_ESM_CLASS, d1, vs[1..], rest);
    var d2 := TakeCString(d1[2..]).1;
    AddressHead(FROM_ESM_CLASS, d2, vs[1..][2..], rest);
    MessageAgrees(TakeCString(d2[2..]).1, vs[1..][2..][2..], rest);
  }

  // ---- The builders ----------------------------------------------------------

  /** The fields that the three builders fill in; the others are empty or zero. */
  datatype Filled = Filled(
    sourceTon: Byte, sourceNpi: Byte, source: Bytes,
    destTon: Byte, destNpi: Byte, dest: Bytes,
    esm: Byte, protocolId: Byte, registeredDelivery: Byte, dataCoding: Byte)

  /** sm_length and short_message, or an empty one and a message_payload TLV for long messages. */
  function MessageField(message: Bytes): Bytes {
    if |message| > SHORT_MAX then [0] + Triple(MESSAGE_PAYLOAD, message) else [|message|] + message
  }

  /** `EncodeSubmitSM`: the octets of a body, from the fields that a builder fills in. */
  function BodyOf(f: Filled, message: Bytes): Bytes {
    CStr([]) + ([f.sourceTon, f.sourceNpi] + (CStr(f.source) + ([f.destTon, f.destNpi] + (CStr(f.dest) + FromEsmClass(f, message)))))
  }

  function FromEsmClass(f: Filled, message: Bytes): Bytes {
    [f.esm, f.protocolId, 0] + (CStr([]) + (CStr([]) + ([f.registeredDelivery, 0, f.dataCoding, 0] + MessageField(message))))
  }

  lemma Appended(buf: Bytes, piece: Bytes, rest: Bytes)
    ensures (buf + piece) + rest == buf + (piece + rest)
  {
  }

  /** What the builders append to their buffer, piece by piece. */
  method AppendBody(f: Filled, message: Bytes) returns (buf: Bytes)
    ensures buf == BodyOf(f, message)
  {
    ghost var r5 := FromEsmClass(f, message);
    ghost var r4 := CStr(f.dest) + r5;
    ghost var r3 := [f.destTon, f.destNpi] + r4;
    ghost var r2 := CStr(f.source) + r3;
    buf := CStr([]);
    Appended(buf, [f.sourceTon, f.sourceNpi], r2);
    buf := buf + [f.sourceTon, f.sourceNpi];
    Appended(buf, CStr(f.source), r3);
    buf := buf + CStr(f.source);
    Appended(buf, [f.destTon, f.destNpi], r4);
    buf := buf + [f.destTon, f.destNpi];
    Appended(buf, CStr(f.dest), r5);
    buf := buf + CStr(f.dest);
    var rest := AppendFromEsmClass(f, message);
    buf := buf + rest;
  }

  method AppendFromEsmClass(f: Filled, message: Bytes) returns (buf: Bytes)
    ensures buf == FromEsmClass(f, message)
  {
    var fixed := [f.registeredDelivery, 0, f.dataCoding, 0];
    ghost var r := MessageField(message);
    buf := [f.esm, f.protocolId, 0];
    Appended(buf, CStr([]), CStr([]) + (fixed + r));
    buf := buf + CStr([]);
    Appended(buf, CStr([]), fixed + r);
    buf := buf + CStr([]);
    Appended(buf, fixed, r);
    buf := buf + fixed;
    if |message| > SHORT_MAX {
      Appended(buf, [0], Triple(MESSAGE_PAYLOAD, message));
      buf := buf + [0];
      buf := buf + Triple(MESSAGE_PAYLOAD, message);
    } else {
      Appended(buf, [|message|], message);
      buf := buf + [|message|];
      buf := buf + message;
    }
  }

  /** The mandatory field values of a built body. */
  function ValuesOf(f: Filled, message: Bytes): (vs: seq<Bytes>)
    ensures |vs| == 10
  {
    [[], [f.sourceTon, f.sourceNpi], f.source, [f.destTon, f.destNpi], f.dest]
    + [[f.esm, f.protocolId, 0], [], [], [f.registeredDelivery, 0, f.dataCoding, 0], ShortOf(message)]
  }

  function ShortOf(message: Bytes): Bytes {
    if |message| > SHORT_MAX then [] else message
  }

  /** What a built body has after its mandatory fields. */
  function TailOf(message: Bytes): Bytes {
    if |message| > SHORT_MAX then Triple(MESSAGE_PAYLOAD, message) else []
  }

  lemma WalkField(f: Field, fs: seq<Field>, v: Bytes, d: Bytes, vs: seq<Bytes>, rest: Bytes)
    requires Fits(f, v) && Walk(fs, d) == Some((vs, rest))
    ensures Walk([f] + fs, FieldBytes(f, v) + d) == Some(([v] + vs, rest))
  {
    assert ([f] + fs)[1..] == fs;
    TakePut(f, v, d);
  }

  lemma WalkMessage(message: Bytes)
    ensures Walk([Counted], MessageField(message)) == Some(([ShortOf(message)], TailOf(message)))
  {
    assert MessageField(message) == FieldBytes(Counted, ShortOf(message)) + TailOf(message);
    WalkField(Counted, [], ShortOf(message), TailOf(message), [], TailOf(message));
    assert [Counted] + [] == [Counted] && [ShortOf(message)] + [] == [ShortOf(message)];
  }

  lemma WalkLastFields(f: Filled, message: Bytes)
    ensures var fixed: Bytes := [f.registeredDelivery, 0, f.dataCoding, 0];
      Walk([CString] + ([Fixed(4)] + [Counted]), CStr([]) + (fixed + MessageField(message))) ==
        Some(([[], fixed, ShortOf(message)], TailOf(message)))
  {
    var fixed: Bytes := [f.registeredDelivery, 0, f.dataCoding, 0];
    var short, tail, m := ShortOf(message), TailOf(message), MessageField(message);
    WalkMessage(message);
    WalkField(Fixed(4), [Counted], fixed, m, [short], tail);
    WalkField(CString, [Fixed(4)] + [Counted], [], fixed + m, [fixed] + [short], tail);
    assert [[]] + ([fixed] + [short]) == [[], fixed, short];
  }

  lemma WalkFromEsmClass(f: Filled, message: Bytes)
    ensures Walk(FROM_ESM_CLASS, FromEsmClass(f, message)) == Some((ValuesOf(f, message)[5..], TailOf(message)))
  {
    var fixed: Bytes := [f.registeredDelivery, 0, f.dataCoding, 0];
    var first: Bytes := [f.esm, f.protocolId, 0];
    var tail, m := TailOf(message), MessageField(message);
    var t := [CString] + ([Fixed(4)] + [Counted]);
    var vs: seq<Bytes> := [[], fixed, ShortOf(message)];
    WalkLastFields(f, message);
    WalkField(CString, t, [], CStr([]) + (fixed + m), vs, tail);
    WalkField(Fixed(3), [CString] + t, first, CStr([]) + (CStr([]) + (fixed + m)), [[]] + vs, tail);
    assert FROM_ESM_CLASS == [Fixed(3)] + ([CString] + t);
    assert ValuesOf(f, message)[5..] == [first] + ([[]] + vs);
  }

  lemma WalkAddress(ton: Byte, npi: Byte, addr: Bytes, fs: seq<Field>, d: Bytes, vs: seq<Bytes>, rest: Bytes)
    requires NulFree(addr) && Walk(fs, d) == Some((vs, rest))
    ensures Walk(ADDRESS + fs, [ton, npi] + (CStr(addr) + d)) == Some(([[ton, npi], addr] + vs, rest))
  {
    WalkField(CString, fs, addr, d, vs, rest);
    WalkField(Fixed(2), [CString] + fs, [ton, npi], CStr(addr) + d, [addr] + vs, rest);
    Assoc([Fixed(2)], [CString], fs);
    Assoc([[ton, npi]], [addr], vs);
    assert ADDRESS == [Fixed(2)] + [CString];
    assert [[ton, npi], addr] == [[ton, npi]] + [addr];
  }

  /** The strict walker steps over a built body and stops at its message_payload TLV. */
  lemma WalkBuilt(f: Filled, message: Bytes)
    requires NulFree(f.source) && NulFree(f.dest)
    ensures Walk(SHORT_MESSAGE, BodyOf(f, message)) == Some((ValuesOf(f, message), TailOf(message)))
  {
    var e, tail, vs := FromEsmClass(f, message), TailOf(message), ValuesOf(f, message)[5..];
    WalkFromEsmClass(f, message);
    WalkAddress(f.destTon, f.destNpi, f.dest, FROM_ESM_CLASS, e, vs, tail);
    var d2 := [f.destTon, f.destNpi] + (CStr(f.dest) + e);
    var v2 := [[f.destTon, f.destNpi], f.dest] + vs;
    WalkAddress(f.sourceTon, f.sourceNpi, f.source, ADDRESS + FROM_ESM_CLASS, d2, v2, tail);
    var d1 := [f.sourceTon, f.sourceNpi] + (CStr(f.source) + d2);
    var v1 := [[f.sourceTon, f.sourceNpi], f.source] + v2;
    WalkField(CString, ADDRESS + (ADDRESS + FROM_ESM_CLASS), [], d1, v1, tail);
    ShortMessageParts();
    ValuesInOrder(f, message);
  }

  lemma ValuesInOrder(f: Filled, message: Bytes)
    ensures ValuesOf(f, message) ==
            [[]] + ([[f.sourceTon, f.sourceNpi], f.source] + ([[f.destTon, f.destNpi], f.dest] + ValuesOf(f, message)[5..]))
  {
  }

  // ---- Builders and parsers agree --------------------------------------------

  /** What the TLV set of a built body should be. */
  function PayloadTlvs(message: Bytes): TlvSet {
    if |message| > SHORT_MAX then map[MESSAGE_PAYLOAD := message] else map[]
  }

  /**
   * From a built body the addresses, esm_class and message are read back, the message as
   * short_message up to 254 octets and as message_payload beyond; that TLV is intact if and only
   * if the message is under 65536 octets.
   */
  lemma BuiltBodyReadsBack(cmd: CommandId, f: Filled, message: Bytes)
    requires cmd == SUBMIT_SM || cmd == DELIVER_SM
    requires NulFree(f.source) && NulFree(f.dest)
    ensures ParseDeliverSm(BodyOf(f, message)) == Sm(f.source, f.dest, f.esm, ShortOf(message))
    ensures ExtractTlvs(cmd, BodyOf(f, message)) == Parsed(PayloadTlvs(message)) <==> |message| < 65536
  {
    WalkBuilt(f, message);
    StrictImpliesLenient(BodyOf(f, message), ValuesOf(f, message), TailOf(message));
    BuiltTlvs(cmd, BodyOf(f, message), ValuesOf(f, message), message);
  }

  /** The octets from esm_class to sm_default_msg_id, after the NUL of the destination address. */
  function FromDestNul(f: Filled): Bytes {
    [0, f.esm, f.protocolId, 0, 0, 0, f.registeredDelivery, 0, f.dataCoding, 0]
  }

  lemma FlatTail(f: Filled, d: Bytes)
    ensures [0] + ([f.esm, f.protocolId, 0] + (CStr([]) + (CStr([]) + ([f.registeredDelivery, 0, f.dataCoding, 0] + d)))) ==
            FromDestNul(f) + d
  {
  }

  lemma FlatAddress(t: Byte, n: Byte, a: Bytes, d: Bytes)
    ensures [0] + ([t, n] + (CStr(a) + d)) == ([0, t, n] + a) + ([0] + d)
  {
  }

  /** The octets of a body in order: addresses, the fixed fields, then length and message. */
  lemma BodyOctets(f: Filled, message: Bytes)
    ensures BodyOf(f, message) ==
            ([0, f.sourceTon, f.sourceNpi] + f.source) + (([0, f.destTon, f.destNpi] + f.dest) + (FromDestNul(f) + MessageField(message)))
  {
    var e := FromEsmClass(f, message);
    FlatTail(f, MessageField(message));
    FlatAddress(f.destTon, f.destNpi, f.dest, e);
    var d := [f.destTon, f.destNpi] + (CStr(f.dest) + e);
    FlatAddress(f.sourceTon, f.sourceNpi, f.source, d);
    assert CStr([]) == [0];
  }

  /** sm_length and message, octet by octet: the length is taken modulo 65536 in message_payload. */
  lemma MessageOctets(message: Bytes, high: Byte, low: Byte)
    requires high == |message| / 256 % 256 && low == |message| % 256
    ensures |message| <= 254 ==> MessageField(message) == [|message|] + message
    ensures |message| > 254 ==> MessageField(message) == [0, 0x04, 0x24, high, low] + message
  {
    PayloadTriple(message, high, low);
    PayloadOctets(high, low, message);
  }

  lemma PayloadTriple(message: Bytes, high: Byte, low: Byte)
    requires high == |message| / 256 % 256 && low == |message| % 256
    ensures Triple(MESSAGE_PAYLOAD, message) == [0x04, 0x24, high, low] + message
  {
    TripleOctets(MESSAGE_PAYLOAD, message, 0x04, 0x24, high, low);
  }

  lemma PayloadOctets(high: Byte, low: Byte, message: Bytes)
    ensures [0] + ([0x04, 0x24, high, low] + message) == [0, 0x04, 0x24, high, low] + message
  {
  }

  /**
   * `BuildDeliverSMBody`: source TON and NPI 0, destination TON and NPI 1, no receipt requested; and
   * what the parser and the TLV extraction read back from it.
   */
  method BuildDeliverSmBody(source: Bytes, dest: Bytes, esm: Byte, message: Bytes) returns (buf: Bytes)
    ensures |message| <= 254 ==>
              buf == ([0, 0, 0] + source) + (([0, 1, 1] + dest) + ([0, esm, 0, 0, 0, 0, 0, 0, 0, 0] + ([|message|] + message)))
    ensures |message| > 254 ==>
              buf == ([0, 0, 0] + source) + (([0, 1, 1] + dest) + ([0, esm, 0, 0, 0, 0, 0, 0, 0, 0]
                     + ([0, 0x04, 0x24, |message| / 256 % 256, |message| % 256] + message)))
    ensures NulFree(source) && NulFree(dest) ==>
              && ParseDeliverSm(buf) == Sm(source, dest, esm, ShortOf(message))
              && (ExtractTlvs(DELIVER_SM, buf) == Parsed(PayloadTlvs(message)) <==> |message| < 65536)
  {
    var f := Filled(0, 0, source, 1, 1, dest, esm, 0, 0, 0);
    buf := AppendBody(f, message);
    BodyOctets(f, message);
    MessageOctets(message, |message| / 256 % 256, |message| % 256);
    if NulFree(source) && NulFree(dest) {
      BuiltBodyReadsBack(DELIVER_SM, f, message);
    }
  }

  /** `BuildSubmitSMBody`: as `BuildDeliverSMBody` with esm_class 0, and a receipt requested. */
  method BuildSubmitSmBody(source: Bytes, dest: Bytes, message: Bytes) returns (buf: Bytes)
    ensures |message| <= 254 ==>
              buf == ([0, 0, 0] + source) + (([0, 1, 1] + dest) + ([0, 0, 0, 0, 0, 0, 1, 0, 0, 0] + ([|message|] + message)))
    ensures |message| > 254 ==>
              buf == ([0, 0, 0] + source) + (([0, 1, 1] + dest) + ([0, 0, 0, 0, 0, 0, 1, 0, 0, 0]
                     + ([0, 0x04, 0x24, |message| / 256 % 256, |message| % 256] + message)))
    ensures ParseSubmitSmAddresses(buf) == (source, dest) <==> NulFree(source) && NulFree(dest)
    ensures NulFree(source) && NulFree(dest) ==>
              && ParseDeliverSm(buf) == Sm(source, dest, 0, ShortOf(message))
              && (ExtractTlvs(SUBMIT_SM, buf) == Parsed(PayloadTlvs(message)) <==> |message| < 65536)
  {
    var f := Filled(0, 0, source, 1, 1, dest, 0, 0, 1, 0);
    buf := AppendBody(f, message);
    BodyOctets(f, message);
    MessageOctets(message, |message| / 256 % 256, |message| % 256);
    AddressesReadBackIffNulFree(f, message);
    if NulFree(source) && NulFree(dest) {
      BuiltBodyReadsBack(SUBMIT_SM, f, message);
    }
  }

  lemma BuiltTlvs(cmd: CommandId, body: Bytes, vs: seq<Bytes>, message: Bytes)
    requires cmd == SUBMIT_SM || cmd == DELIVER_SM
    requires Walk(SHORT_MESSAGE, body) == Some((vs, TailOf(message)))
    ensures ExtractTlvs(cmd, body) == Parsed(PayloadTlvs(message)) <==> |message| < 65536
  {
    TailIsSuffix(SHORT_MESSAGE, body);
    var offset := MandatoryBodyLen(cmd, body);
    assert offset == |body| - |TailOf(message)|;
    if |message| > SHORT_MAX {
      OneEncodes(MESSAGE_PAYLOAD, message);
      RoundTrip(PayloadTlvs(message), TailOf(message));
      assert PayloadTlvs(message)[MESSAGE_PAYLOAD] == message;
    }
  }

  lemma TailIsSuffix(fs: seq<Field>, body: Bytes)
    requires Walk(fs, body).Some?
    ensures var rest := Walk(fs, body).value.1; |rest| <= |body| && body[|body| - |rest|..] == rest
  {
    WalkAccepts(fs, body);
  }

  lemma {:induction false} UpToNulStops(s: Bytes, rest: Bytes)
    ensures UpToNul(CStr(s) + rest) == UpToNul(s)
  {
    if s == [] || s[0] == 0 {
      assert (CStr(s) + rest)[0] == if s == [] then 0 else s[0];
    } else {
      assert (CStr(s) + rest)[1..] == CStr(s[1..]) + rest;
      UpToNulStops(s[1..], rest);
    }
  }

  /** An address with a NUL in it is cut there: addresses come back exactly when they have none. */
  lemma AddressesReadBackIffNulFree(f: Filled, message: Bytes)
    ensures ParseSubmitSmAddresses(BodyOf(f, message)) == (f.source, f.dest) <==> NulFree(f.source) && NulFree(f.dest)
  {
    var body := BodyOf(f, message);
    if NulFree(f.source) {
      SourceReadsBack(f, message);
      UpToNulStops(f.dest, FromEsmClass(f, message));
      if NulFree(f.dest) {
        AllString(f.dest);
      }
    } else {
      CutSource(f, message);
    }
  }

  lemma CutSource(f: Filled, message: Bytes)
    requires !NulFree(f.source)
    ensures ParseSubmitSmAddresses(BodyOf(f, message)).0 != f.source
  {
    var rest := [f.destTon, f.destNpi] + (CStr(f.dest) + FromEsmClass(f, message));
    TakeCStringOf([], [f.sourceTon, f.sourceNpi] + (CStr(f.source) + rest));
    assert ([f.sourceTon, f.sourceNpi] + (CStr(f.source) + rest))[2..] == CStr(f.source) + rest;
    UpToNulStops(f.source, rest);
  }

  lemma SourceReadsBack(f: Filled, message: Bytes)
    requires NulFree(f.source)
    ensures ParseSubmitSmAddresses(BodyOf(f, message)) ==
            (f.source, TakeCString(CStr(f.dest) + FromEsmClass(f, message)).0)
  {
    var d := CStr(f.dest) + FromEsmClass(f, message);
    var rest := [f.destTon, f.destNpi] + d;
    TakeCStringOf([], [f.sourceTon, f.sourceNpi] + (CStr(f.source) + rest));
    assert ([f.sourceTon, f.sourceNpi] + (CStr(f.source) + rest))[2..] == CStr(f.source) + rest;
    TakeCStringOf(f.source, rest);
    assert rest[2..] == d;
  }

  // ---- Rewriting the source address ------------------------------------------

  /** Whether `RewriteSubmitSMSource` touches a body: service_type and two octets must be there. */
  predicate Rewritable(body: Bytes) {
    |TakeCString(body).1| >= 2
  }

  /** `RewriteSubmitSMSource`. */
  function Rewrite(body: Bytes, newAddr: Bytes, newTon: Byte, newNpi: Byte): (r: Bytes) {
    if !Rewritable(body) then body
    else
      var service, d1 := TakeCString(body).0, TakeCString(body).1;
      CStr(service) + ([newTon, newNpi] + (CStr(newAddr) + TakeCString(d1[2..]).1))
  }

  lemma ServiceTypeKept(body: Bytes)
    requires Rewritable(body)
    ensures var (service, d1) := TakeCString(body); body == CStr(service) + d1 && NulFree(service)
  {
  }

  /** `RewriteSubmitSMSource`, over offsets into the body. */
  method RewriteSubmitSmSource(body: Bytes, newAddr: Bytes, newTon: Byte, newNpi: Byte) returns (r: Bytes)
    ensures r == Rewrite(body, newAddr, newTon, newNpi)
  {
    assert body[0..] == body;
    var _, serviceTypeEnd := ReadCString(body, 0);
    if serviceTypeEnd >= |body| || serviceTypeEnd + 2 > |body| {
      return body;
    }
    ServiceTypeKept(body);
    assert body[..serviceTypeEnd] == CStr(TakeCString(body).0);
    DropDrop(body, serviceTypeEnd, 2);
    var _, sourceAddrEnd := ReadCString(body, serviceTypeEnd + 2);
    r := body[..serviceTypeEnd];
    ghost var rest := body[sourceAddrEnd..];
    Appended(r, [newTon, newNpi], CStr(newAddr) + rest);
    r := r + [newTon, newNpi];
    Appended(r, CStr(newAddr), rest);
    r := r + CStr(newAddr);
    r := r + body[sourceAddrEnd..];
  }

  /** After the source address, every octet of the body is as before. */
  lemma RewriteKeepsTheRest(body: Bytes, newAddr: Bytes, newTon: Byte, newNpi: Byte)
    requires Rewritable(body) && NulFree(newAddr)
    ensures var r := Rewrite(body, newAddr, newTon, newNpi);
      var d1, e1 := TakeCString(body).1, TakeCString(r).1;
      && TakeCString(r).0 == TakeCString(body).0
      && |e1| >= 2 && e1[..2] == [newTon, newNpi]
      && TakeCString(e1[2..]) == (newAddr, TakeCString(d1[2..]).1)
  {
    ServiceTypeKept(body);
    var (service, d1) := TakeCString(body);
    var rest := TakeCString(d1[2..]).1;
    var e1 := [newTon, newNpi] + (CStr(newAddr) + rest);
    TakeCStringOf(service, e1);
    assert e1[2..] == CStr(newAddr) + rest;
    TakeCStringOf(newAddr, rest);
  }

  /** The rewritten body has the new source and the old destination. */
  lemma RewriteParses(body: Bytes, newAddr: Bytes, newTon: Byte, newNpi: Byte)
    requires Rewritable(body) && NulFree(newAddr)
    ensures ParseSubmitSmAddresses(Rewrite(body, newAddr, newTon, newNpi)) == (newAddr, ParseSubmitSmAddresses(body).1)
  {
    RewriteKeepsTheRest(body, newAddr, newTon, newNpi);
  }

  /** Whether the new source comes back is decided by its NULs alone. */
  lemma RewriteParsesIffNulFree(body: Bytes, newAddr: Bytes, newTon: Byte, newNpi: Byte)
    requires Rewritable(body)
    ensures ParseSubmitSmAddresses(Rewrite(body, newAddr, newTon, newNpi)) == (newAddr, ParseSubmitSmAddresses(body).1)
            <==> NulFree(newAddr)
  {
    if NulFree(newAddr) {
      RewriteParses(body, newAddr, newTon, newNpi);
    } else {
      ServiceTypeKept(body);
      var (service, d1) := TakeCString(body);
      var rest := TakeCString(d1[2..]).1;
      var e1 := [newTon, newNpi] + (CStr(newAddr) + rest);
      TakeCStringOf(service, e1);
      assert e1[2..] == CStr(newAddr) + rest;
      UpToNulStops(newAddr, rest);
    }
  }

  /** A second rewrite overrides the first. */
  lemma RewriteOverrides(body: Bytes, a: Bytes, aTon: Byte, aNpi: Byte, b: Bytes, bTon: Byte, bNpi: Byte)
    requires NulFree(a)
    ensures Rewrite(Rewrite(body, a, aTon, aNpi), b, bTon, bNpi) == Rewrite(body, b, bTon, bNpi)
  {
    if Rewritable(body) {
      RewriteKeepsTheRest(body, a, aTon, aNpi);
    }
  }

  /** All other mandatory fields, the message and the TLVs are untouched. */
  lemma RewriteKeepsFields(body: Bytes, newAddr: Bytes, newTon: Byte, newNpi: Byte, vs: seq<Bytes>, rest: Bytes)
    requires NulFree(newAddr) && Walk(SHORT_MESSAGE, body) == Some((vs, rest))
    ensures Rewritable(body) && |vs| == 10
    ensures Walk(SHORT_MESSAGE, Rewrite(body, newAddr, newTon, newNpi)) ==
            Some((vs[1 := [newTon, newNpi]][2 := newAddr], rest))
  {
    ShortMessageParts();
    StrictImpliesLenient(body, vs, rest);
    var fs := ADDRESS + FROM_ESM_CLASS;
    var (service, d1) := TakeCString(body);
    var d2 := TakeCString(d1[2..]).1;
    HeadFields(fs, body, vs, rest);
    WalkHeadFields(fs, service, newTon, newNpi, newAddr, d2, vs[3..], rest);
    ReplacedFields(service, [newTon, newNpi], newAddr, vs);
  }

  /** The service type and the source address come off first. */
  lemma HeadFields(fs: seq<Field>, body: Bytes, vs: seq<Bytes>, rest: Bytes)
    requires Walk([CString] + (ADDRESS + fs), body) == Some((vs, rest))
    ensures Rewritable(body) && |vs| >= 3 && TakeCString(body).0 == vs[0] && NulFree(vs[0])
    ensures Walk(fs, TakeCString(TakeCString(body).1[2..]).1) == Some((vs[3..], rest))
  {
    WalkHead(CString, ADDRESS + fs, body, vs, rest);
    LenientCString(body);
    AddressHead(fs, TakeCString(body).1, vs[1..], rest);
    DropDrop(vs, 1, 2);
  }

  lemma WalkHeadFields(fs: seq<Field>, service: Bytes, ton: Byte, npi: Byte, addr: Bytes, d: Bytes, vs: seq<Bytes>, rest: Bytes)
    requires NulFree(service) && NulFree(addr) && Walk(fs, d) == Some((vs, rest))
    ensures Walk([CString] + (ADDRESS + fs), CStr(service) + ([ton, npi] + (CStr(addr) + d))) ==
            Some(([service] + ([[ton, npi], addr] + vs), rest))
  {
    WalkAddress(ton, npi, addr, fs, d, vs, rest);
    WalkField(CString, ADDRESS + fs, service, [ton, npi] + (CStr(addr) + d), [[ton, npi], addr] + vs, rest);
  }

  lemma ReplacedFields(service: Bytes, ton: Bytes, addr: Bytes, vs: seq<Bytes>)
    requires |vs| >= 3 && vs[0] == service
    ensures [service] + ([ton, addr] + vs[3..]) == vs[1 := ton][2 := addr]
  {
  }

  /** The parameters in what follows the mandatory fields. */
  function TlvsIn(rest: Bytes): Extracted {
    if rest == [] then Parsed(map[])
    else
      var r := Decoded(rest, map[]);
      if r.None? then Malformed else Parsed(r.value)
  }

  /** A walk ends where its rest begins. */
  lemma RestStarts(fs: seq<Field>, body: Bytes, vs: seq<Bytes>, rest: Bytes)
    requires Walk(fs, body) == Some((vs, rest))
    ensures 0 <= WalkedLen(fs, body) <= |body| && body[WalkedLen(fs, body)..] == rest
  {
    WalkAccepts(fs, body);
    DropFirst(Serialize(fs, vs), rest);
  }

  lemma ExtractedFrom(cmd: CommandId, fs: seq<Field>, body: Bytes)
    requires LayoutOf(cmd) == Known(fs)
    ensures var r := Walk(fs, body); ExtractTlvs(cmd, body) == if r.None? then NoBoundary else TlvsIn(r.value.1)
  {
    var r := Walk(fs, body);
    if r.Some? {
      RestStarts(fs, body, r.value.0, r.value.1);
    }
  }

  lemma DropFirst(a: Bytes, b: Bytes)
    ensures |a + b| - |b| == |a| && (a + b)[|a|..] == b
  {
  }

  /** No mandatory field can be read from an empty body. */
  lemma NothingLeft(fs: seq<Field>)
    ensures Walk(ADDRESS + fs, []).None?
  {
    assert ADDRESS + fs == [Fixed(2)] + ([CString] + fs);
  }

  /** If what follows the source field can be walked, the body can. */
  lemma SourceTerminated(fs: seq<Field>, body: Bytes)
    requires Rewritable(body) && Walk(ADDRESS + fs, TakeCString(TakeCString(body).1[2..]).1).Some?
    ensures Walk([CString] + (ADDRESS + (ADDRESS + fs)), body).Some?
  {
    ServiceTypeKept(body);
    var (service, d1) := TakeCString(body);
    var (source, d2) := TakeCString(d1[2..]);
    NothingLeft(fs);
    AddressParts(d1, source, d2);
    var (vs, rest) := Walk(ADDRESS + fs, d2).value;
    WalkHeadFields(ADDRESS + fs, service, d1[0], d1[1], source, d2, vs, rest);
  }

  lemma AddressParts(d1: Bytes, source: Bytes, d2: Bytes)
    requires |d1| >= 2 && TakeCString(d1[2..]) == (source, d2) && d2 != []
    ensures NulFree(source) && d1 == [d1[0], d1[1]] + (CStr(source) + d2)
  {
    assert d1[2..] == CStr(source) + d2;
  }

  /** The walker accepts the rewritten body exactly when it accepts the body, up to the same octets. */
  lemma RewriteWalks(body: Bytes, newAddr: Bytes, newTon: Byte, newNpi: Byte)
    requires Rewritable(body) && NulFree(newAddr)
    ensures var w, w' := Walk(SHORT_MESSAGE, body), Walk(SHORT_MESSAGE, Rewrite(body, newAddr, newTon, newNpi));
            w.Some? == w'.Some? && (w.Some? ==> w.value.1 == w'.value.1)
  {
    var w, r := Walk(SHORT_MESSAGE, body), Rewrite(body, newAddr, newTon, newNpi);
    if w.Some? {
      RewriteKeepsFields(body, newAddr, newTon, newNpi, w.value.0, w.value.1);
    } else if Walk(SHORT_MESSAGE, r).Some? {
      ShortMessageParts();
      var (vs, rest) := Walk(SHORT_MESSAGE, r).value;
      HeadFields(ADDRESS + FROM_ESM_CLASS, r, vs, rest);
      RewriteKeepsTheRest(body, newAddr, newTon, newNpi);
      SourceTerminated(FROM_ESM_CLASS, body);
    }
  }

  /** The lenient parser reads everything but the source as before, however the body goes on. */
  lemma RewriteKeepsMessage(body: Bytes, newAddr: Bytes, newTon: Byte, newNpi: Byte)
    requires Rewritable(body) && NulFree(newAddr)
    ensures ParseDeliverSm(Rewrite(body, newAddr, newTon, newNpi)) == ParseDeliverSm(body).(source := newAddr)
  {
    var r := Rewrite(body, newAddr, newTon, newNpi);
    RewriteKeepsTheRest(body, newAddr, newTon, newNpi);
    var (source, d2) := TakeCString(TakeCString(body).1[2..]);
    ParsedFrom(body, source, d2);
    ParsedFrom(r, newAddr, d2);
    SourceOnly(source, newAddr, d2);
  }

  lemma ParsedFrom(body: Bytes, source: Bytes, d2: Bytes)
    requires Rewritable(body) && TakeCString(TakeCString(body).1[2..]) == (source, d2)
    ensures ParseDeliverSm(body) == ParseFromDest(source, d2)
  {
  }

  lemma SourceOnly(a: Bytes, b: Bytes, d2: Bytes)
    ensures ParseFromDest(b, d2) == ParseFromDest(a, d2).(source := b)
  {
  }

  /** The TLV extraction answers as before, for bodies without a boundary and malformed TLVs too. */
  lemma RewriteKeepsTlvs(cmd: CommandId, body: Bytes, newAddr: Bytes, newTon: Byte, newNpi: Byte)
    requires Rewritable(body) && NulFree(newAddr) && LayoutOf(cmd) == Known(SHORT_MESSAGE)
    ensures ExtractTlvs(cmd, Rewrite(body, newAddr, newTon, newNpi)) == ExtractTlvs(cmd, body)
  {
    RewriteWalks(body, newAddr, newTon, newNpi);
    ExtractedFrom(cmd, SHORT_MESSAGE, body);
    ExtractedFrom(cmd, SHORT_MESSAGE, Rewrite(body, newAddr, newTon, newNpi));
  }
}

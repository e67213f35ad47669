/**
 * The mandatory fields of SMPP PDUs (smpp/pdu_fields.go, sections 4.4.1 and 4.6.1 of SMPP v3.4).
 *
 * Each walker of the source steps over a fixed list of fields; `Layout` gives that list for every
 * command, and `Walk` is the walk, which also yields the values stepped over.
 */
module Fields {
  import opened Octets
  import opened Options
  import opened Seqs

  datatype Field =
    | CString              // octets up to and including a NUL
    | Fixed(size: nat)     // that many octets
    | Counted              // a length octet and that many octets

  datatype Layout = Unknown | Known(fields: seq<Field>) | OptionalCString

  type CommandId = x: int | 0 <= x < 0x1_0000_0000

  const SHORT_MESSAGE: seq<Field> :=
    [CString, Fixed(2), CString, Fixed(2), CString, Fixed(3), CString, CString, Fixed(4), Counted]

  /** The dispatch of `MandatoryBodyLen`. */
  function LayoutOf(cmd: CommandId): Layout {
    match cmd
    // submit_sm, deliver_sm
    case 0x00000004 => Known(SHORT_MESSAGE)
    case 0x00000005 => Known(SHORT_MESSAGE)
    // submit_sm_resp, deliver_sm_resp, bind responses, data_sm_resp, broadcast_sm_resp
    case 0x80000004 => OptionalCString
    case 0x80000005 => OptionalCString
    case 0x80000009 => OptionalCString
    case 0x80000002 => OptionalCString
    case 0x80000001 => OptionalCString
    case 0x80000103 => OptionalCString
    case 0x80000111 => OptionalCString
    // bind_transceiver, bind_transmitter, bind_receiver
    case 0x00000009 => Known([CString, CString, CString, Fixed(3), CString])
    case 0x00000002 => Known([CString, CString, CString, Fixed(3), CString])
    case 0x00000001 => Known([CString, CString, CString, Fixed(3), CString])
    // query_sm, query_sm_resp, cancel_sm, replace_sm
    case 0x00000003 => Known([CString, Fixed(2), CString])
    case 0x80000003 => Known([CString, CString, Fixed(2)])
    case 0x00000008 => Known([CString, CString, Fixed(2), CString, Fixed(2), CString])
    case 0x00000007 => Known([CString, Fixed(2), CString, CString, CString, Fixed(2), Counted])
    // data_sm, alert_notification
    case 0x00000103 => Known([CString, Fixed(2), CString, Fixed(2), CString, Fixed(3)])
    case 0x00000102 => Known([Fixed(2), CString, Fixed(2), CString])
    // broadcast_sm, query_broadcast_sm, query_broadcast_sm_resp, cancel_broadcast_sm
    case 0x00000111 => Known([CString, Fixed(2), CString, CString, Fixed(1), CString, CString, Fixed(3)])
    case 0x00000112 => Known([CString, Fixed(2), CString])
    case 0x80000112 => Known([CString, Fixed(1)])
    case 0x00000113 => Known([CString, CString, Fixed(2), CString])
    // cancel_broadcast_sm_resp, cancel_sm_resp, replace_sm_resp, enquire_link, unbind, generic_nack
    case 0x80000113 => Known([])
    case 0x80000008 => Known([])
    case 0x80000007 => Known([])
    case 0x00000015 => Known([])
    case 0x80000015 => Known([])
    case 0x00000006 => Known([])
    case 0x80000006 => Known([])
    case 0x80000000 => Known([])
    case _ => Unknown
  }

  // ---- Single fields ---------------------------------------------------------

  predicate NulFree(s: Bytes) {
    forall i :: 0 <= i < |s| ==> s[i] != 0
  }

  /** The octets before the first NUL. */
  function UpToNul(d: Bytes): (s: Bytes)
    ensures |s| <= |d| && s == d[..|s|] && NulFree(s)
    ensures |s| < |d| ==> d[|s|] == 0
  {
    if d == [] || d[0] == 0 then [] else [d[0]] + UpToNul(d[1..])
  }

  /** `writeCString`. */
  function CStr(s: Bytes): Bytes {
    s + [0]
  }

  lemma UpToNulOf(s: Bytes, rest: Bytes)
    requires NulFree(s)
    ensures UpToNul(s + [0] + rest) == s
  {
    var d := s + [0] + rest;
    var u := UpToNul(d);
    assert forall i :: 0 <= i < |s| ==> d[i] == s[i];
    assert d[|s|] == 0;
    assert |u| == |s|;
  }

  /** One field off the front: its octets, and what is left. */
  function TakeField(f: Field, d: Bytes): (r: Option<(Bytes, Bytes)>) {
    match f
    case CString =>
      var s := UpToNul(d);
      if |s| == |d| then None else Some((s, d[|s| + 1..]))
    case Fixed(n) => if |d| < n then None else Some((d[..n], d[n..]))
    case Counted =>
      if d == [] || |d| < 1 + d[0] as int then None
      else Some((d[1..1 + d[0] as int], d[1 + d[0] as int..]))
  }

  /** Octets that a field can hold. */
  predicate Fits(f: Field, v: Bytes) {
    match f
    case CString => NulFree(v)
    case Fixed(n) => |v| == n
    case Counted => |v| < 256
  }

  function FieldBytes(f: Field, v: Bytes): (d: Bytes)
    requires Fits(f, v)
  {
    match f
    case CString => CStr(v)
    case Fixed(_) => v
    case Counted => [|v|] + v
  }

  lemma TakePut(f: Field, v: Bytes, rest: Bytes)
    requires Fits(f, v)
    ensures TakeField(f, FieldBytes(f, v) + rest) == Some((v, rest))
  {
    var d := FieldBytes(f, v) + rest;
    match f
    case CString =>
      UpToNulOf(v, rest);
      assert d[|v| + 1..] == rest;
    case Fixed(n) =>
      assert d[..n] == v && d[n..] == rest;
    case Counted =>
      assert d[1..1 + |v|] == v && d[1 + |v|..] == rest;
  }

  lemma PutTake(f: Field, d: Bytes)
    requires TakeField(f, d).Some?
    ensures var (v, rest) := TakeField(f, d).value;
      Fits(f, v) && d == FieldBytes(f, v) + rest && |rest| <= |d|
  {
  }

  // ---- Lists of fields -------------------------------------------------------

  /** The strict walk: the values of all fields and what is left, or failure on a short body. */
  function Walk(fs: seq<Field>, d: Bytes): (r: Option<(seq<Bytes>, Bytes)>)
    decreases |fs|
  {
    if fs == [] then Some(([], d))
    else
      var first := TakeField(fs[0], d);
      if first.None? then None
      else
        var others := Walk(fs[1..], first.value.1);
        if others.None? then None else Some(([first.value.0] + others.value.0, others.value.1))
  }

  predicate AllFit(fs: seq<Field>, vs: seq<Bytes>) {
    |fs| == |vs| && forall i :: 0 <= i < |fs| ==> Fits(fs[i], vs[i])
  }

  /** A body with the given field values. */
  function Serialize(fs: seq<Field>, vs: seq<Bytes>): Bytes
    requires AllFit(fs, vs)
    decreases |fs|
  {
    if fs == [] then [] else FieldBytes(fs[0], vs[0]) + Serialize(fs[1..], vs[1..])
  }

  /** Walkers are self-delimiting: they read back the values and ignore whatever follows. */
  lemma {:induction false} WalkSerialized(fs: seq<Field>, vs: seq<Bytes>, rest: Bytes)
    requires AllFit(fs, vs)
    ensures Walk(fs, Serialize(fs, vs) + rest) == Some((vs, rest))
    decreases |fs|
  {
    if fs == [] {
      assert Serialize(fs, vs) + rest == rest;
    } else {
      SerializeCons(fs, vs, rest);
      WalkSerialized(fs[1..], vs[1..], rest);
      WalkPut(fs, vs[0], Serialize(fs[1..], vs[1..]) + rest, vs[1..], rest);
      assert vs == [vs[0]] + vs[1..];
    }
  }

  lemma SerializeCons(fs: seq<Field>, vs: seq<Bytes>, rest: Bytes)
    requires AllFit(fs, vs) && fs != []
    ensures Fits(fs[0], vs[0]) && AllFit(fs[1..], vs[1..])
    ensures Serialize(fs, vs) + rest == FieldBytes(fs[0], vs[0]) + (Serialize(fs[1..], vs[1..]) + rest)
  {
    Assoc(FieldBytes(fs[0], vs[0]), Serialize(fs[1..], vs[1..]), rest);
  }

  lemma WalkPut(fs: seq<Field>, v: Bytes, d1: Bytes, vs: seq<Bytes>, rest: Bytes)
    requires fs != [] && Fits(fs[0], v) && Walk(fs[1..], d1) == Some((vs, rest))
    ensures Walk(fs, FieldBytes(fs[0], v) + d1) == Some(([v] + vs, rest))
  {
    TakePut(fs[0], v, d1);
    WalkCons(fs, FieldBytes(fs[0], v) + d1, v, d1, vs, rest);
  }

  lemma WalkCons(fs: seq<Field>, d: Bytes, v: Bytes, d1: Bytes, vs: seq<Bytes>, rest: Bytes)
    requires fs != [] && TakeField(fs[0], d) == Some((v, d1)) && Walk(fs[1..], d1) == Some((vs, rest))
    ensures Walk(fs, d) == Some(([v] + vs, rest))
  {
  }

  /** Walkers accept nothing else: an accepted body starts with the serialized values. */
  lemma {:induction false} WalkAccepts(fs: seq<Field>, d: Bytes)
    requires Walk(fs, d).Some?
    ensures var (vs, rest) := Walk(fs, d).value;
      AllFit(fs, vs) && d == Serialize(fs, vs) + rest
    decreases |fs|
  {
    if fs != [] {
      PutTake(fs[0], d);
      var (v, d1) := TakeField(fs[0], d).value;
      WalkAccepts(fs[1..], d1);
      var (vs, rest) := Walk(fs[1..], d1).value;
      assert ([v] + vs)[1..] == vs;
      assert d == FieldBytes(fs[0], v) + (Serialize(fs[1..], vs) + rest);
    }
  }

  // ---- MandatoryBodyLen ------------------------------------------------------

  function WalkedLen(fs: seq<Field>, body: Bytes): int {
    var r := Walk(fs, body);
    if r.None? then -1 else |body| - |r.value.1|
  }

  /** `MandatoryBodyLen`. */
  function MandatoryBodyLen(cmd: CommandId, body: Bytes): int {
    match LayoutOf(cmd)
    case Unknown => -1
    case Known(fs) => WalkedLen(fs, body)
    case OptionalCString => if body == [] then 0 else WalkedLen([CString], body)
  }

  /** The boundary that a walker finds does not depend on what follows it. */
  lemma SuffixIgnored(fs: seq<Field>, body: Bytes, suffix: Bytes)
    requires WalkedLen(fs, body) >= 0
    ensures WalkedLen(fs, body + suffix) == WalkedLen(fs, body)
  {
    WalkAccepts(fs, body);
    var (vs, rest) := Walk(fs, body).value;
    WalkSerialized(fs, vs, rest + suffix);
    Assoc(Serialize(fs, vs), rest, suffix);
    WalkedLenIs(fs, body, vs, rest);
    WalkedLenIs(fs, body + suffix, vs, rest + suffix);
  }

  lemma WalkedLenIs(fs: seq<Field>, d: Bytes, vs: seq<Bytes>, rest: Bytes)
    requires Walk(fs, d) == Some((vs, rest))
    ensures WalkedLen(fs, d) == |d| - |rest|
  {
  }

  /** `skipCString`. */
  method SkipCString(body: Bytes, offset: nat) returns (r: int)
    ensures r == if offset > |body| || |UpToNul(body[offset..])| == |body| - offset then -1
                 else offset + |UpToNul(body[offset..])| + 1
  {
    if offset >= |body| {
      return -1;
    }
    for i := offset to |body|
      invariant NulFree(body[offset..i])
    {
      TakeNext(body[offset..], i - offset);
      assert body[offset..i] == body[offset..][..i - offset] && body[offset..i + 1] == body[offset..][..i + 1 - offset];
      if body[i] == 0 {
        UpToNulOf(body[offset..i], body[i + 1..]);
        assert body[offset..] == body[offset..i] + [0] + body[i + 1..];
        return i + 1;
      }
    }
    assert body[offset..|body|] == body[offset..];
    return -1;
  }

  /** The walk of the fields `fs` from an offset on, as an end offset. */
  function LenFrom(fs: seq<Field>, body: Bytes, offset: nat): int
    requires offset <= |body|
  {
    var r := Walk(fs, body[offset..]);
    if r.None? then -1 else |body| - |r.value.1|
  }

  lemma LenFromField(f: Field, fs: seq<Field>, body: Bytes, offset: nat)
    requires offset <= |body|
    ensures var r := TakeField(f, body[offset..]);
      LenFrom([f] + fs, body, offset) ==
        if r.None? then -1
        else
          assert |r.value.1| <= |body| - offset by { PutTake(f, body[offset..]); }
          LenFrom(fs, body, |body| - |r.value.1|)
  {
    var r := TakeField(f, body[offset..]);
    assert ([f] + fs)[1..] == fs;
    if r.Some? {
      PutTake(f, body[offset..]);
      RestIsTail(f, body[offset..]);
      assert body[offset..][|body| - offset - |r.value.1|..] == body[|body| - |r.value.1|..];
    }
  }

  lemma RestIsTail(f: Field, d: Bytes)
    requires TakeField(f, d).Some?
    ensures var rest := TakeField(f, d).value.1; |rest| <= |d| && rest == d[|d| - |rest|..]
  {
  }

  /** One C-string step of a walker. */
  method StepCString(fs: seq<Field>, body: Bytes, offset: nat) returns (r: int)
    requires offset <= |body|
    ensures r < 0 ==> LenFrom([CString] + fs, body, offset) == -1
    ensures r >= 0 ==> r <= |body| && LenFrom([CString] + fs, body, offset) == LenFrom(fs, body, r)
  {
    r := SkipCString(body, offset);
    LenFromField(CString, fs, body, offset);
  }

  /** One step of a walker over `n` octets. */
  method StepFixed(fs: seq<Field>, n: nat, body: Bytes, offset: nat) returns (r: int)
    requires offset <= |body|
    ensures r < 0 ==> LenFrom([Fixed(n)] + fs, body, offset) == -1
    ensures r >= 0 ==> r <= |body| && LenFrom([Fixed(n)] + fs, body, offset) == LenFrom(fs, body, r)
  {
    LenFromField(Fixed(n), fs, body, offset);
    if offset + n > |body| {
      return -1;
    }
    r := offset + n;
  }

  /** `mandatoryLenSubmitDeliverSM`. */
  method MandatoryLenSubmitDeliverSm(body: Bytes) returns (offset: int)
    ensures offset == WalkedLen(SHORT_MESSAGE, body)
  {
    var tail4 := [Fixed(3), CString, CString, Fixed(4), Counted];
    assert body[0..] == body;
    assert SHORT_MESSAGE == [CString] + ([Fixed(2)] + ([CString] + ([Fixed(2)] + ([CString] + tail4))));
    // service_type, source_addr_ton and npi, source_addr
    offset := StepCString([Fixed(2)] + ([CString] + ([Fixed(2)] + ([CString] + tail4))), body, 0);
    if offset < 0 { return -1; }
    offset := StepFixed([CString] + ([Fixed(2)] + ([CString] + tail4)), 2, body, offset);
    if offset < 0 { return -1; }
    offset := StepCString([Fixed(2)] + ([CString] + tail4), body, offset);
    if offset < 0 { return -1; }
    // dest_addr_ton and npi, destination_addr
    offset := StepFixed([CString] + tail4, 2, body, offset);
    if offset < 0 { return -1; }
    offset := StepCString(tail4, body, offset);
    if offset < 0 { return -1; }
    offset := MandatoryLenFromEsmClass(body, offset);
  }

  /** The second half of `mandatoryLenSubmitDeliverSM`, from esm_class on. */
  method MandatoryLenFromEsmClass(body: Bytes, start: nat) returns (offset: int)
    requires start <= |body|
    ensures offset == LenFrom([Fixed(3), CString, CString, Fixed(4), Counted], body, start)
  {
    var last := [Counted];
    assert [Fixed(3), CString, CString, Fixed(4), Counted] == [Fixed(3)] + ([CString] + ([CString] + ([Fixed(4)] + last)));
    // esm_class, protocol_id, priority_flag, schedule_delivery_time, validity_period
    offset := StepFixed([CString] + ([CString] + ([Fixed(4)] + last)), 3, body, start);
    if offset < 0 { return -1; }
    offset := StepCString([CString] + ([Fixed(4)] + last), body, offset);
    if offset < 0 { return -1; }
    offset := StepCString([Fixed(4)] + last, body, offset);
    if offset < 0 { return -1; }
    // registered_delivery, replace_if_present_flag, data_coding, sm_default_msg_id
    offset := StepFixed(last, 4, body, offset);
    if offset < 0 { return -1; }
    LenFromField(Counted, [], body, offset);
    assert last == [Counted] + [];
    // sm_length, short_message
    if offset >= |body| {
      return -1;
    }
    var smLen := body[offset] as int;
    offset := offset + 1;
    if offset + smLen > |body| {
      return -1;
    }
    offset := offset + smLen;
  }
}

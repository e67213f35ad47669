/** Optional parameters of a PDU (smpp/tlv.go, section 5.3.2 of SMPP v3.4). */
module Tlv {
  import opened Octets
  import opened Options

  type Tag = Word
  type TlvSet = map<Tag, Bytes>

  const HEADER_LEN := 4

  /** `binary.BigEndian.PutUint16`. */
  function Be16(v: Word): (d: Bytes)
    ensures |d| == 2 && Uint16(d[0], d[1]) == v
  {
    [v / 256, v % 256]
  }

  // ---- Encoding --------------------------------------------------------------

  /** One parameter on the wire; its length is truncated to 16 bits. */
  function Triple(tag: Tag, v: Bytes): (d: Bytes)
    ensures |d| == HEADER_LEN + |v|
  {
    Be16(tag) + Be16(|v| % 65536) + v
  }

  lemma LengthOctets(n: nat)
    ensures Be16(n % 65536) == [n / 256 % 256, n % 256]
  {
    var q, m := n / 65536, n % 65536;
    assert n / 256 == 256 * q + m / 256;
    assert n % 256 == m % 256;
  }

  /** Octet by octet: tag, then length, each most significant octet first, then the value. */
  lemma TripleOctets(tag: Tag, v: Bytes, t1: Byte, t0: Byte, high: Byte, low: Byte)
    requires tag == 256 * t1 as int + t0 as int && high == |v| / 256 % 256 && low == |v| % 256
    ensures Triple(tag, v) == [t1, t0, high, low] + v
  {
    LengthOctets(|v|);
    TagOctets(tag, t1, t0);
    FourOctets(t1, t0, high, low, v);
  }

  lemma TagOctets(tag: Tag, t1: Byte, t0: Byte)
    requires tag == 256 * t1 as int + t0 as int
    ensures Be16(tag) == [t1, t0]
  {
  }

  lemma FourOctets(a: Byte, b: Byte, c: Byte, d: Byte, v: Bytes)
    ensures [a, b] + [c, d] + v == [a, b, c, d] + v
  {
  }

  function Triples(t: TlvSet, tags: seq<Tag>): Bytes
    requires Listed(t, tags)
  {
    if tags == [] then [] else Triple(tags[0], t[tags[0]]) + Triples(t, tags[1..])
  }

  predicate Ascending(tags: seq<Tag>) {
    forall i, j :: 0 <= i < j < |tags| ==> tags[i] < tags[j]
  }

  function Elements(tags: seq<Tag>): set<Tag> {
    set i | 0 <= i < |tags| :: tags[i]
  }

  /** `d` is the set in ascending order of tags. */
  ghost predicate Encodes(t: TlvSet, d: Bytes) {
    exists tags :: Ascending(tags) && Elements(tags) == t.Keys && Listed(t, tags) && d == Triples(t, tags)
  }

  predicate Listed(t: TlvSet, tags: seq<Tag>) {
    forall i :: 0 <= i < |tags| ==> tags[i] in t
  }

  /** Inserts a tag into sorted tags: one turn of the sort that `Encode` relies on. */
  method Insert(tags: seq<Tag>, tag: Tag) returns (r: seq<Tag>)
    requires Ascending(tags) && tag !in tags
    ensures Ascending(r) && Elements(r) == Elements(tags) + {tag}
  {
    var i := 0;
    while i < |tags| && tags[i] < tag
      invariant 0 <= i <= |tags| && forall j :: 0 <= j < i ==> tags[j] < tag
    {
      i := i + 1;
    }
    r := tags[..i] + [tag] + tags[i..];
    InsertedElements(tags, tag, i);
  }

  lemma InsertedElements(tags: seq<Tag>, tag: Tag, i: nat)
    requires i <= |tags|
    ensures Elements(tags[..i] + [tag] + tags[i..]) == Elements(tags) + {tag}
  {
    var r := tags[..i] + [tag] + tags[i..];
    assert r[i] == tag;
    assert forall j :: 0 <= j < i ==> r[j] == tags[j];
    assert forall j :: i <= j < |tags| ==> r[j + 1] == tags[j];
    assert forall j :: 0 <= j < |r| ==> r[j] == (if j < i then tags[j] else if j == i then tag else tags[j - 1]);
  }

  /** The tags of a set in ascending order. */
  method SortTags(t: TlvSet) returns (tags: seq<Tag>)
    ensures Ascending(tags) && Elements(tags) == t.Keys
  {
    tags := [];
    var left := t.Keys;
    while left != {}
      invariant left <= t.Keys && Ascending(tags) && Elements(tags) == t.Keys - left
      decreases |left|
    {
      var tag :| tag in left;
      assert tag in tags ==> tag in Elements(tags);
      tags := Insert(tags, tag);
      left := left - {tag};
    }
  }

  lemma TriplesNext(t: TlvSet, tags: seq<Tag>, i: nat)
    requires Listed(t, tags) && i < |tags|
    ensures Triples(t, tags[i..]) == Triple(tags[i], t[tags[i]]) + Triples(t, tags[i + 1..])
  {
    assert tags[i..][1..] == tags[i + 1..];
  }

  /** `copy` into a buffer at an offset. */
  method Put(buf: array<Byte>, offset: nat, d: Bytes)
    requires offset + |d| <= buf.Length
    modifies buf
    ensures buf[..offset + |d|] == old(buf[..offset]) + d
  {
    forall i | 0 <= i < |d| {
      buf[offset + i] := d[i];
    }
  }

  /** The first loop of `Encode`: the size of the buffer. */
  method Size(t: TlvSet, tags: seq<Tag>) returns (size: nat)
    requires Listed(t, tags)
    ensures size == |Triples(t, tags)|
  {
    size := 0;
    assert tags[0..] == tags;
    for i := 0 to |tags|
      invariant size + |Triples(t, tags[i..])| == |Triples(t, tags)|
    {
      TriplesNext(t, tags, i);
      size := size + HEADER_LEN + |t[tags[i]]|;
    }
  }

  /** `Encode`. */
  method Encode(t: TlvSet) returns (r: Bytes)
    ensures Encodes(t, r)
  {
    var tags := SortTags(t);
    assert forall i :: 0 <= i < |tags| ==> tags[i] in Elements(tags);
    var size := Size(t, tags);
    var buf := new Byte[size](_ => 0);
    FillTriples(t, tags, buf);
    r := buf[..];
  }

  /** The second loop of `Encode`: tag, length and value of each parameter, in order. */
  method FillTriples(t: TlvSet, tags: seq<Tag>, buf: array<Byte>)
    requires Listed(t, tags) && buf.Length == |Triples(t, tags)|
    modifies buf
    ensures buf[..] == Triples(t, tags)
  {
    var offset := 0;
    assert tags[0..] == tags;
    for i := 0 to |tags|
      invariant 0 <= offset <= buf.Length
      invariant buf[..offset] + Triples(t, tags[i..]) == Triples(t, tags)
    {
      TriplesNext(t, tags, i);
      var d := Triple(tags[i], t[tags[i]]);
      ghost var done, rest := buf[..offset], Triples(t, tags[i + 1..]);
      assert done + (d + rest) == (done + d) + rest;
      Put(buf, offset, d);
      offset := offset + HEADER_LEN + |t[tags[i]]|;
    }
    assert buf[..offset] == buf[..];
  }

  lemma {:induction false} AscendingUnique(a: seq<Tag>, b: seq<Tag>)
    requires Ascending(a) && Ascending(b) && Elements(a) == Elements(b)
    ensures a == b
  {
    assert |b| > 0 ==> b[0] in Elements(b);
    if a != [] {
      assert a[0] in Elements(b);
      assert b[0] in Elements(a);
      assert a[0] == b[0];
      ElementsRest(a);
      ElementsRest(b);
      AscendingUnique(a[1..], b[1..]);
    }
  }

  lemma ElementsRest(a: seq<Tag>)
    requires a != [] && Ascending(a)
    ensures Elements(a[1..]) == Elements(a) - {a[0]}
  {
    assert forall i :: 0 < i < |a| ==> a[i] == a[1..][i - 1];
    assert forall i :: 0 <= i < |a| - 1 ==> a[1..][i] == a[i + 1];
  }

  /** The encoding does not depend on the order in which the map yields its tags. */
  lemma Deterministic(t: TlvSet, d: Bytes, d': Bytes)
    requires Encodes(t, d) && Encodes(t, d')
    ensures d == d'
  {
    var a :| Ascending(a) && Elements(a) == t.Keys && Listed(t, a) && d == Triples(t, a);
    var b :| Ascending(b) && Elements(b) == t.Keys && Listed(t, b) && d' == Triples(t, b);
    AscendingUnique(a, b);
  }

  // ---- Decoding --------------------------------------------------------------

  /** What `DecodeTLVs` makes of `data` on top of the parameters read so far. */
  function Decoded(data: Bytes, soFar: TlvSet): (r: Option<TlvSet>)
    decreases |data|
  {
    if data == [] then Some(soFar)
    else if |data| < HEADER_LEN then None
    else
      var tag, n := Uint16(data[0], data[1]), Uint16(data[2], data[3]);
      if HEADER_LEN + n > |data| then None
      else Decoded(data[HEADER_LEN + n..], soFar[tag := data[HEADER_LEN..HEADER_LEN + n]])
  }

  /** `DecodeTLVs`. */
  method DecodeTlvs(data: Bytes) returns (r: Option<TlvSet>)
    ensures r == Decoded(data, map[])
  {
    var t: TlvSet := map[];
    var offset := 0;
    while offset < |data|
      invariant 0 <= offset <= |data|
      invariant Decoded(data, map[]) == Decoded(data[offset..], t)
    {
      if offset + HEADER_LEN > |data| {
        return None;
      }
      var tag := Uint16(data[offset], data[offset + 1]);
      var length := Uint16(data[offset + 2], data[offset + 3]);
      DecodedNext(data, offset, t);
      offset := offset + HEADER_LEN;
      if offset + length > |data| {
        return None;
      }
      t := t[tag := data[offset..offset + length]];
      offset := offset + length;
    }
    r := Some(t);
  }

  lemma DecodedNext(data: Bytes, offset: nat, t: TlvSet)
    requires offset + HEADER_LEN <= |data|
    ensures var n := Uint16(data[offset + 2], data[offset + 3]);
      var v := offset + HEADER_LEN;
      Decoded(data[offset..], t) ==
        if v + n > |data| then None
        else Decoded(data[v + n..], t[Uint16(data[offset], data[offset + 1]) := data[v..v + n]])
  {
    var d, n, v := data[offset..], Uint16(data[offset + 2], data[offset + 3]), offset + HEADER_LEN;
    if v + n <= |data| {
      assert d[HEADER_LEN + n..] == data[v + n..];
      assert d[HEADER_LEN..HEADER_LEN + n] == data[v..v + n];
    }
  }

  // ---- Round trip ------------------------------------------------------------

  predicate Sizes16(t: TlvSet) {
    forall tag :: tag in t ==> |t[tag]| < 65536
  }

  function Extend(soFar: TlvSet, t: TlvSet, tags: seq<Tag>): TlvSet
    requires Listed(t, tags)
    decreases |tags|
  {
    if tags == [] then soFar else Extend(soFar[tags[0] := t[tags[0]]], t, tags[1..])
  }

  ghost predicate Shaped(t: Bytes, tag: Tag, v: Bytes) {
    |t| == HEADER_LEN + |v| && Uint16(t[0], t[1]) == tag && Uint16(t[2], t[3]) == |v| && t[HEADER_LEN..] == v
  }

  lemma TripleShaped(tag: Tag, v: Bytes)
    requires |v| < 65536
    ensures Shaped(Triple(tag, v), tag, v)
  {
    var n := |v| % 65536;
    assert n == |v|;
    var a, b := Be16(tag), Be16(n);
    var t := a + b + v;
    assert t[0] == a[0] && t[1] == a[1] && t[2] == b[0] && t[3] == b[1];
    assert t[HEADER_LEN..] == v;
  }

  lemma ShapedDecodes(t: Bytes, tag: Tag, v: Bytes, rest: Bytes, soFar: TlvSet)
    requires Shaped(t, tag, v)
    ensures Decoded(t + rest, soFar) == Decoded(rest, soFar[tag := v])
  {
    var d := t + rest;
    assert d[0] == t[0] && d[1] == t[1] && d[2] == t[2] && d[3] == t[3];
    assert d[HEADER_LEN..HEADER_LEN + |v|] == v;
    assert d[HEADER_LEN + |v|..] == rest;
  }

  lemma TripleDecodes(tag: Tag, v: Bytes, rest: Bytes, soFar: TlvSet)
    requires |v| < 65536
    ensures Decoded(Triple(tag, v) + rest, soFar) == Decoded(rest, soFar[tag := v])
  {
    TripleShaped(tag, v);
    ShapedDecodes(Triple(tag, v), tag, v, rest, soFar);
  }

  lemma {:induction false} TriplesDecode(t: TlvSet, tags: seq<Tag>, soFar: TlvSet)
    requires Sizes16(t) && Listed(t, tags)
    ensures Decoded(Triples(t, tags), soFar) == Some(Extend(soFar, t, tags))
  {
    if tags != [] {
      TripleDecodes(tags[0], t[tags[0]], Triples(t, tags[1..]), soFar);
      TriplesDecode(t, tags[1..], soFar[tags[0] := t[tags[0]]]);
    }
  }

  lemma {:induction false} ExtendAll(soFar: TlvSet, t: TlvSet, tags: seq<Tag>)
    requires Listed(t, tags)
    requires forall tag :: tag in soFar ==> tag in t && soFar[tag] == t[tag]
    requires soFar.Keys + Elements(tags) == t.Keys
    ensures Extend(soFar, t, tags) == t
    decreases |tags|
  {
    if tags != [] {
      assert Elements(tags) == {tags[0]} + Elements(tags[1..]) by {
        assert forall i :: 0 < i < |tags| ==> tags[i] == tags[1..][i - 1];
        assert forall i :: 0 <= i < |tags| - 1 ==> tags[1..][i] == tags[i + 1];
      }
      ExtendAll(soFar[tags[0] := t[tags[0]]], t, tags[1..]);
    } else {
      assert Elements(tags) == {};
    }
  }

  /** Decoded values never exceed what a 16-bit length can say. */
  lemma {:induction false} DecodedSizes(data: Bytes, soFar: TlvSet)
    requires Sizes16(soFar)
    ensures Decoded(data, soFar).Some? ==> Sizes16(Decoded(data, soFar).value)
    decreases |data|
  {
    if |data| >= HEADER_LEN {
      var tag, n := Uint16(data[0], data[1]), Uint16(data[2], data[3]);
      if HEADER_LEN + n <= |data| {
        DecodedSizes(data[HEADER_LEN + n..], soFar[tag := data[HEADER_LEN..HEADER_LEN + n]]);
      }
    }
  }

  /** What is encoded decodes to the same set exactly when every value is under 65536 octets. */
  lemma RoundTrip(t: TlvSet, d: Bytes)
    requires Encodes(t, d)
    ensures Decoded(d, map[]) == Some(t) <==> Sizes16(t)
  {
    if Sizes16(t) {
      var tags :| Ascending(tags) && Elements(tags) == t.Keys && Listed(t, tags) && d == Triples(t, tags);
      TriplesDecode(t, tags, map[]);
      ExtendAll(map[], t, tags);
    } else {
      DecodedSizes(d, map[]);
    }
  }
}

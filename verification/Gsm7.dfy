/** Packing GSM 7-bit text into octets (smpp/coding.go, sections 6.1.2.1 and 6.1.2.3 of 3GPP TS 23.038). */
module Gsm7 {
  import opened Octets
  import opened Options
  import opened Seqs
  import opened GsmAlphabet

  type Text = seq<Rune>
  type Septet = x: int | 0 <= x < 128

  // ---- Characters and septets ------------------------------------------------

  /** `isGSM7`. */
  predicate IsGsm7(a: Alphabet, r: Rune) {
    r in a.basic || r in a.extended
  }

  predicate Encodable(a: Alphabet, t: Text) {
    forall i :: 0 <= i < |t| ==> IsGsm7(a, t[i])
  }

  /** The septets of one character: its code, or the escape and its extension code. */
  function SeptetsOf(a: Alphabet, r: Rune): (s: seq<Septet>)
    requires a.Valid() && IsGsm7(a, r)
  {
    if r in a.basic then [a.basic[r]] else [ESC, a.extended[r]]
  }

  function SeptetsOfText(a: Alphabet, t: Text): (s: seq<Septet>)
    requires a.Valid() && Encodable(a, t)
  {
    if t == [] then [] else SeptetsOfText(a, t[..|t| - 1]) + SeptetsOf(a, t[|t| - 1])
  }

  /** `gsm7Len`: septets needed for a character, or -1. */
  function Gsm7Len(a: Alphabet, r: Rune): int {
    if r in a.basic then 1 else if r in a.extended then 2 else -1
  }

  /** Septets needed for a text of encodable characters. */
  function CharCount(a: Alphabet, t: Text): nat
    requires Encodable(a, t)
  {
    if t == [] then 0 else CharCount(a, t[..|t| - 1]) + Gsm7Len(a, t[|t| - 1])
  }

  lemma {:induction false} CharCountIsSeptetCount(a: Alphabet, t: Text)
    requires a.Valid() && Encodable(a, t)
    ensures CharCount(a, t) == |SeptetsOfText(a, t)|
  {
    if t != [] {
      CharCountIsSeptetCount(a, t[..|t| - 1]);
    }
  }

  /** The text that a septet stream denotes; `escape` says whether the last septet was an escape. */
  function TextOfSeptets(a: Alphabet, s: seq<Septet>, escape: bool): (t: Text)
    requires a.Valid()
  {
    if s == [] then []
    else if escape then
      [if s[0] in a.extension then a.extension[s[0]] else 0x20] + TextOfSeptets(a, s[1..], false)
    else if s[0] == ESC then TextOfSeptets(a, s[1..], true)
    else [a.default[s[0]]] + TextOfSeptets(a, s[1..], false)
  }

  lemma OneCharacter(a: Alphabet, r: Rune, tail: seq<Septet>)
    requires a.Valid() && IsGsm7(a, r)
    ensures TextOfSeptets(a, SeptetsOf(a, r) + tail, false) == [r] + TextOfSeptets(a, tail, false)
  {
    var s := SeptetsOf(a, r);
    if |s| == 1 {
      assert (s + tail)[1..] == tail;
    } else {
      assert (s + tail)[1..] == [s[1]] + tail;
      assert (s + tail)[1..][1..] == tail;
    }
  }

  /** Reading back the septets of a text gives the text, whatever follows it. */
  lemma {:induction false} SeptetsRoundTrip(a: Alphabet, t: Text, tail: seq<Septet>)
    requires a.Valid() && Encodable(a, t)
    ensures TextOfSeptets(a, SeptetsOfText(a, t) + tail, false) == t + TextOfSeptets(a, tail, false)
  {
    if t == [] {
      assert SeptetsOfText(a, t) + tail == tail;
    } else {
      var init, last := t[..|t| - 1], t[|t| - 1];
      var s := SeptetsOf(a, last);
      SeptetsRoundTrip(a, init, s + tail);
      Assoc(SeptetsOfText(a, init), s, tail);
      OneCharacter(a, last, tail);
      assert t == init + [last];
      Assoc(init, [last], TextOfSeptets(a, tail, false));
    }
  }

  // ---- Septets and octets ----------------------------------------------------

  /** Bit `k` of the septet stream: the septets follow one another, least significant bit first. */
  predicate StreamBit(s: seq<Septet>, k: nat) {
    k / 7 < |s| && Bit(s[k / 7], k % 7)
  }

  /** Bit `k` of an octet string; past its end there are only zeros. */
  predicate BitAt(d: Bytes, k: nat) {
    k / 8 < |d| && Bit(d[k / 8], k % 8)
  }

  function PackedLen(n: nat): nat {
    (n * 7 + 7) / 8
  }

  /** The septets that end up in the octets: a carriage return fills 7 spare bits. */
  function Padded(s: seq<Septet>): (p: seq<Septet>) {
    if |s| % 8 == 7 then s + [CR] else s
  }

  /** `d` carries exactly the bits of the padded septet stream. */
  ghost predicate Packs(s: seq<Septet>, d: Bytes) {
    && |d| == PackedLen(|s|)
    && forall k: nat :: k < 8 * |d| ==> BitAt(d, k) == StreamBit(Padded(s), k)
  }

  /** The only octets that carry the padded stream: the specification of the packing loops. */
  function Pack(s: seq<Septet>): (d: Bytes)
    ensures |d| == PackedLen(|s|)
  {
    seq(PackedLen(|s|), b requires 0 <= b < PackedLen(|s|) =>
      OctetOf((j: nat) => StreamBit(Padded(s), 8 * b + j)))
  }

  lemma PackUnique(s: seq<Septet>, d: Bytes)
    ensures Packs(s, d) <==> d == Pack(s)
  {
    var e := Pack(s);
    forall k: nat | k < 8 * |e| ensures BitAt(e, k) == StreamBit(Padded(s), k) {
      var b := k / 8;
      OctetOfAt((j: nat) => StreamBit(Padded(s), 8 * b + j), k % 8);
    }
    if Packs(s, d) {
      forall b: nat | b < |d| ensures d[b] == e[b] {
        forall j: nat | j < 8 ensures Bit(d[b], j) == Bit(e[b], j) {
          assert (8 * b + j) / 8 == b && (8 * b + j) % 8 == j;
          assert BitAt(d, 8 * b + j) == BitAt(e, 8 * b + j);
        }
        OctetsEqual(d[b], e[b]);
      }
    }
  }

  /** Septet `i` of an octet string. */
  function SeptetAt(d: Bytes, i: nat): (s: Septet) {
    var x := OctetOf((j: nat) => j < 7 && BitAt(d, 7 * i + j));
    Bit7Clear(d, i);
    x
  }

  lemma Bit7Clear(d: Bytes, i: nat)
    ensures OctetOf((j: nat) => j < 7 && BitAt(d, 7 * i + j)) < 128
  {
    var x := OctetOf((j: nat) => j < 7 && BitAt(d, 7 * i + j));
    OctetOfAt((j: nat) => j < 7 && BitAt(d, 7 * i + j), 7);
    HighBit(x);
  }

  lemma HighBit(x: Byte)
    ensures Bit(x, 7) <==> x >= 128
  {
    assert Bit(x, 7) == Bit(x / 2 / 2 / 2 / 2 / 2 / 2 / 2, 0) by {
      assert Bit(x, 7) == Bit(x / 2 / 2 / 2, 4);
    }
  }

  function Unpack(d: Bytes, n: nat): (s: seq<Septet>)
    ensures |s| == n
  {
    seq(n, i requires 0 <= i < n => SeptetAt(d, i))
  }

  lemma SeptetHighBits(s: Septet, j: nat)
    requires 7 <= j < 9
    ensures !Bit(s, j)
  {
    HighBit(s);
    if j == 8 {
      assert Bit(s, 8) == Bit(s / 2, 7);
      HighBit(s / 2);
    }
  }

  /** `packed[b] |= y`. */
  lemma OrOctet(d: Bytes, b: nat, y: Byte, k: nat)
    requires b < |d|
    ensures BitAt(d[b := Or(d[b], y)], k) == (BitAt(d, k) || (k / 8 == b && Bit(y, k % 8)))
  {
    OrAt(d[b], y, k % 8);
  }

  /** One turn of the packing loop. */
  function OrSeptet(d: Bytes, i: nat, s: Septet): (r: Bytes)
    requires 7 * i < 8 * |d|
    ensures |r| == |d|
  {
    var b, p := 7 * i / 8, 7 * i % 8;
    var d1 := d[b := Or(d[b], Shl(s, p))];
    if p > 1 && b + 1 < |d| then d1[b + 1 := Or(d1[b + 1], Shr(s, 8 - p))] else d1
  }

  lemma OrSeptetBits(d: Bytes, i: nat, s: Septet, k: nat)
    requires 7 * i + 7 <= 8 * |d|
    ensures BitAt(OrSeptet(d, i, s), k) == (BitAt(d, k) || (7 * i <= k < 7 * i + 7 && Bit(s, k - 7 * i)))
  {
    var b, p, j := 7 * i / 8, 7 * i % 8, k % 8;
    var d1 := d[b := Or(d[b], Shl(s, p))];
    OrOctet(d, b, Shl(s, p), k);
    ShlAt(s, p, j);
    if k / 8 == b {
      assert k - 7 * i == j - p;
      if j - p == 7 {
        SeptetHighBits(s, 7);
      }
    }
    if p > 1 {
      OrOctet(d1, b + 1, Shr(s, 8 - p), k);
      ShrAt(s, 8 - p, j);
      if k / 8 == b + 1 {
        assert k - 7 * i == j + (8 - p);
        if j + (8 - p) == 7 {
          SeptetHighBits(s, 7);
        }
      }
    }
  }

  /** The packing loop has put the first `i` septets in place. */
  ghost predicate PackedUpTo(s: seq<Septet>, i: nat, d: Bytes) {
    && i <= |s|
    && |d| == PackedLen(|s|)
    && forall k: nat :: k < 8 * |d| ==> BitAt(d, k) == (k < 7 * i && StreamBit(s, k))
  }

  lemma PackOne(s: seq<Septet>, i: nat, d: Bytes)
    requires i < |s| && PackedUpTo(s, i, d)
    ensures PackedUpTo(s, i + 1, OrSeptet(d, i, s[i]))
  {
    var d' := OrSeptet(d, i, s[i]);
    forall k: nat | k < 8 * |d'| ensures BitAt(d', k) == (k < 7 * (i + 1) && StreamBit(s, k)) {
      OrSeptetBits(d, i, s[i], k);
      if 7 * i <= k < 7 * i + 7 {
        assert k / 7 == i && k % 7 == k - 7 * i;
      }
    }
  }

  /** One turn of the padding loop: bit `j` of the carriage return. */
  function OrPadBit(d: Bytes, start: nat, j: nat): (r: Bytes)
    requires start + j < 8 * |d|
    ensures |r| == |d|
  {
    var b, p := (start + j) / 8, (start + j) % 8;
    d[b := Or(d[b], Shl(if Bit(CR, j) then 1 else 0, p))]
  }

  lemma OrPadBitBits(d: Bytes, start: nat, j: nat, k: nat)
    requires start + j < 8 * |d|
    ensures BitAt(OrPadBit(d, start, j), k) == (BitAt(d, k) || (k == start + j && Bit(CR, j)))
  {
    var b, p := (start + j) / 8, (start + j) % 8;
    var y := if Bit(CR, j) then 1 else 0;
    OrOctet(d, b, Shl(y, p), k);
    ShlAt(y, p, k % 8);
    if k / 8 == b && k % 8 >= p {
      OneBit(k % 8 - p);
      BitOfZero(k % 8 - p);
    }
  }

  lemma OneBit(j: nat)
    ensures Bit(1, j) <==> j == 0
  {
    if j > 0 {
      BitOfZero(j - 1);
    }
  }

  predicate PaddedBit(s: seq<Septet>, j: nat, k: nat) {
    if k < 7 * |s| then StreamBit(s, k) else k < 7 * |s| + j && Bit(CR, k - 7 * |s|)
  }

  /** The padding loop has written the first `j` bits of the carriage return. */
  ghost predicate PaddedUpTo(s: seq<Septet>, j: nat, d: Bytes) {
    && |d| == PackedLen(|s|)
    && forall k: nat :: k < 8 * |d| ==> BitAt(d, k) == PaddedBit(s, j, k)
  }

  lemma PadOne(s: seq<Septet>, j: nat, d: Bytes)
    requires |s| % 8 == 7 && j < 7 && PaddedUpTo(s, j, d)
    ensures 7 * |s| + j < 8 * |d|
    ensures PaddedUpTo(s, j + 1, OrPadBit(d, 7 * |s|, j))
  {
    PadRoom(|s|, j);
    forall k: nat | k < 8 * |d| ensures BitAt(OrPadBit(d, 7 * |s|, j), k) == PaddedBit(s, j + 1, k) {
      assert BitAt(d, k) == PaddedBit(s, j, k);
      PadBit(s, j, d, k);
    }
  }

  lemma PadRoom(n: nat, j: nat)
    requires n % 8 == 7 && j < 7
    ensures 7 * n + j < 8 * PackedLen(n)
  {
  }

  lemma PadBit(s: seq<Septet>, j: nat, d: Bytes, k: nat)
    requires j < 7 && 7 * |s| + j < 8 * |d| && BitAt(d, k) == PaddedBit(s, j, k)
    ensures BitAt(OrPadBit(d, 7 * |s|, j), k) == PaddedBit(s, j + 1, k)
  {
    OrPadBitBits(d, 7 * |s|, j, k);
  }

  lemma PaddingDone(s: seq<Septet>, d: Bytes)
    requires |s| % 8 == 7 && PaddedUpTo(s, 7, d)
    ensures Packs(s, d)
  {
    forall k: nat | k < 8 * |d| ensures BitAt(d, k) == StreamBit(Padded(s), k) {
      if k >= 7 * |s| {
        assert k / 7 == |s| && k % 7 == k - 7 * |s|;
      }
    }
  }

  /** `EncodeGSM7`: the packed octets and the septet count, or failure on a character outside the alphabet. */
  method EncodeGsm7(a: Alphabet, text: Text) returns (r: Option<(Bytes, nat)>)
    requires a.Valid()
    ensures r.Some? <==> Encodable(a, text)
    ensures r.Some? ==> r.value == (Pack(SeptetsOfText(a, text)), CharCount(a, text))
  {
    var septets: seq<Septet> := [];
    for i := 0 to |text|
      invariant Encodable(a, text[..i])
      invariant septets == SeptetsOfText(a, text[..i])
    {
      var c := text[i];
      assert text[..i + 1][..i] == text[..i];
      if c in a.basic {
        septets := septets + [a.basic[c]];
      } else if c in a.extended {
        septets := septets + [ESC, a.extended[c]];
      } else {
        return None;
      }
    }
    assert text[..|text|] == text;
    var packed := PackSeptets(septets);
    CharCountIsSeptetCount(a, text);
    r := Some((packed, |septets|));
  }

  /** The second half of `EncodeGSM7`: packing into the octet buffer, and padding it. */
  method PackSeptets(septets: seq<Septet>) returns (d: Bytes)
    ensures d == Pack(septets)
  {
    var packedLen := PackedLen(|septets|);
    var packed := new Byte[packedLen](_ => 0);
    InitiallyPacked(septets, packed[..]);
    FillSeptets(packed, septets);
    if packedLen * 8 - |septets| * 7 == 7 && packedLen > 0 {
      FillBits(|septets|);
      PadWithCR(packed, septets);
    } else {
      FillBits(|septets|);
      NothingToPad(septets, packed[..]);
    }
    d := packed[..];
    PackUnique(septets, d);
  }

  /** Seven fill bits remain exactly when 7 of the last 8 septets are used. */
  lemma FillBits(n: nat)
    ensures PackedLen(n) * 8 - n * 7 == 7 && PackedLen(n) > 0 <==> n % 8 == 7
  {
  }

  lemma NothingToPad(s: seq<Septet>, d: Bytes)
    requires |s| % 8 != 7 && PackedUpTo(s, |s|, d)
    ensures Packs(s, d)
  {
  }

  method FillSeptets(packed: array<Byte>, septets: seq<Septet>)
    requires PackedUpTo(septets, 0, packed[..])
    modifies packed
    ensures PackedUpTo(septets, |septets|, packed[..])
  {
    for i := 0 to |septets|
      invariant PackedUpTo(septets, i, packed[..])
    {
      ghost var before := packed[..];
      var s, b, p := septets[i], 7 * i / 8, 7 * i % 8;
      packed[b] := Or(packed[b], Shl(s, p));
      if p > 1 && b + 1 < packed.Length {
        packed[b + 1] := Or(packed[b + 1], Shr(s, 8 - p));
      }
      assert packed[..] == OrSeptet(before, i, s);
      PackOne(septets, i, before);
    }
  }

  method PadWithCR(packed: array<Byte>, septets: seq<Septet>)
    requires |septets| % 8 == 7 && PackedUpTo(septets, |septets|, packed[..])
    modifies packed
    ensures Packs(septets, packed[..])
  {
    var start := |septets| * 7;
    for j := 0 to 7
      invariant PaddedUpTo(septets, j, packed[..])
    {
      ghost var before := packed[..];
      PadOne(septets, j, before);
      var b, p := (start + j) / 8, (start + j) % 8;
      packed[b] := Or(packed[b], Shl(if Bit(CR, j) then 1 else 0, p));
      assert packed[..] == OrPadBit(before, start, j);
    }
    PaddingDone(septets, packed[..]);
  }

  lemma InitiallyPacked(s: seq<Septet>, d: Bytes)
    requires |d| == PackedLen(|s|) && forall b :: 0 <= b < |d| ==> d[b] == 0
    ensures PackedUpTo(s, 0, d)
  {
    forall k: nat | k < 8 * |d| ensures !BitAt(d, k) {
      BitOfZero(k % 8);
    }
  }

  // ---- Reading octets back ---------------------------------------------------

  /** What `DecodeGSM7` returns: it fails when some septet starts past the data. */
  function DecodedGsm7(a: Alphabet, d: Bytes, n: nat): (r: Option<Text>)
    requires a.Valid()
  {
    if n > 0 && 7 * (n - 1) / 8 >= |d| then None else Some(TextOfSeptets(a, Unpack(d, n), false))
  }

  /** One septet of the unpacking loop. */
  function ReadSeptet(d: Bytes, i: nat): (s: Byte)
    requires 7 * i / 8 < |d|
  {
    var b, p := 7 * i / 8, 7 * i % 8;
    var low := Low7(Shr(d[b], p));
    if p > 1 && b + 1 < |d| then Or(low, Low7(Shl(d[b + 1], 8 - p))) else low
  }

  lemma ReadSeptetBit(d: Bytes, i: nat, j: nat)
    requires 7 * i / 8 < |d| && j < 8
    ensures Bit(ReadSeptet(d, i), j) == (j < 7 && BitAt(d, 7 * i + j))
  {
    var b, p := 7 * i / 8, 7 * i % 8;
    BitOffset(7 * i, j);
    LowPart(d[b], p, j);
    if p > 1 && b + 1 < |d| {
      OrAt(Low7(Shr(d[b], p)), Low7(Shl(d[b + 1], 8 - p)), j);
      HighPart(d[b + 1], p, j);
    }
  }

  lemma BitOffset(n: nat, j: nat)
    requires j < 8
    ensures (n + j) / 8 == n / 8 + (if n % 8 + j < 8 then 0 else 1)
    ensures (n + j) % 8 == if n % 8 + j < 8 then n % 8 + j else n % 8 + j - 8
  {
  }

  /** The bits that the first octet gives to a septet starting at bit `p` of it. */
  lemma LowPart(x: Byte, p: nat, j: nat)
    requires p < 8 && j < 8
    ensures Bit(Low7(Shr(x, p)), j) == (j < 7 && p + j < 8 && Bit(x, p + j))
  {
    Low7At(Shr(x, p), j);
    ShrAt(x, p, j);
  }

  /** The bits that the second octet gives. */
  lemma HighPart(x: Byte, p: nat, j: nat)
    requires 1 < p < 8 && j < 8
    ensures Bit(Low7(Shl(x, 8 - p)), j) == (j < 7 && p + j >= 8 && Bit(x, p + j - 8))
  {
    Low7At(Shl(x, 8 - p), j);
    ShlAt(x, 8 - p, j);
  }

  lemma ReadSeptetIs(d: Bytes, i: nat)
    requires 7 * i / 8 < |d|
    ensures ReadSeptet(d, i) == SeptetAt(d, i)
  {
    forall j: nat | j < 8 ensures Bit(ReadSeptet(d, i), j) == Bit(SeptetAt(d, i), j) {
      ReadSeptetBit(d, i, j);
      OctetOfAt((j: nat) => j < 7 && BitAt(d, 7 * i + j), j);
    }
    OctetsEqual(ReadSeptet(d, i), SeptetAt(d, i));
  }

  /** `DecodeGSM7`. */
  method DecodeGsm7(a: Alphabet, data: Bytes, numSeptets: nat) returns (r: Option<Text>)
    requires a.Valid()
    ensures r == DecodedGsm7(a, data, numSeptets)
  {
    var septets: seq<Septet> := [];
    for i := 0 to numSeptets
      invariant septets == Unpack(data, i)
      invariant i > 0 ==> 7 * (i - 1) / 8 < |data|
    {
      if 7 * i / 8 >= |data| {
        return None;
      }
      var s := ExtractSeptet(data, i);
      UnpackNext(data, i);
      septets := septets + [s];
    }
    var text := SeptetsToText(a, septets);
    r := Some(text);
  }

  /** How the escape flag changes over one septet, and the character it yields, if any. */
  /** The bits of one septet, from one octet or two. */
  method ExtractSeptet(data: Bytes, i: nat) returns (s: Septet)
    requires 7 * i / 8 < |data|
    ensures s == SeptetAt(data, i)
  {
    var b, p := 7 * i / 8, 7 * i % 8;
    var x: Byte := Low7(Shr(data[b], p));
    if p > 1 && b + 1 < |data| {
      x := Or(x, Low7(Shl(data[b + 1], 8 - p)));
    }
    ReadSeptetIs(data, i);
    s := x;
  }

  lemma UnpackNext(data: Bytes, i: nat)
    ensures Unpack(data, i + 1) == Unpack(data, i) + [SeptetAt(data, i)]
  {
  }

  lemma OneSeptet(a: Alphabet, s: seq<Septet>, i: nat, escape: bool)
    requires a.Valid() && i < |s|
    ensures TextOfSeptets(a, s[i..], escape) ==
            if escape then
              [if s[i] in a.extension then a.extension[s[i]] else 0x20] + TextOfSeptets(a, s[i + 1..], false)
            else if s[i] == ESC then TextOfSeptets(a, s[i + 1..], true)
            else [a.default[s[i]]] + TextOfSeptets(a, s[i + 1..], false)
  {
    assert s[i..][1..] == s[i + 1..];
  }

  lemma Appended(t: Text, r: Rune, u: Text)
    ensures t + ([r] + u) == (t + [r]) + u
  {
  }

  /** The second loop of `DecodeGSM7`: septets to characters, with an escape flag. */
  method SeptetsToText(a: Alphabet, septets: seq<Septet>) returns (result: Text)
    requires a.Valid()
    ensures result == TextOfSeptets(a, septets, false)
  {
    result := [];
    var escape := false;
    assert septets[0..] == septets;
    for i := 0 to |septets|
      invariant result + TextOfSeptets(a, septets[i..], escape) == TextOfSeptets(a, septets, false)
    {
      var s := septets[i];
      OneSeptet(a, septets, i, escape);
      ghost var rest := TextOfSeptets(a, septets[i + 1..], false);
      if escape {
        var c := if s in a.extension then a.extension[s] else 0x20;
        Appended(result, c, rest);
        result := result + [c];
        escape := false;
      } else if s == ESC {
        escape := true;
      } else {
        Appended(result, a.default[s], rest);
        result := result + [a.default[s]];
      }
    }
  }

  // ---- Round trips -----------------------------------------------------------

  lemma StreamIndex(p: seq<Septet>, i: nat, j: nat)
    requires i < |p| && j < 7
    ensures StreamBit(p, 7 * i + j) == Bit(p[i], j)
  {
    assert (7 * i + j) / 7 == i && (7 * i + j) % 7 == j;
  }

  lemma PackedBit(s: seq<Septet>, k: nat)
    requires k < 7 * |Padded(s)|
    ensures BitAt(Pack(s), k) == StreamBit(Padded(s), k)
  {
    PackUnique(s, Pack(s));
  }

  lemma UnpackPackBit(s: seq<Septet>, i: nat, j: nat)
    requires i < |Padded(s)| && j < 8
    ensures Bit(SeptetAt(Pack(s), i), j) == Bit(Padded(s)[i], j)
  {
    var d, p := Pack(s), Padded(s);
    OctetOfAt((j: nat) => j < 7 && BitAt(d, 7 * i + j), j);
    if j < 7 {
      StreamIndex(p, i, j);
      PackedBit(s, 7 * i + j);
    } else {
      SeptetHighBits(p[i], 7);
    }
  }

  lemma UnpackPack(s: seq<Septet>, n: nat)
    requires n <= |Padded(s)|
    ensures Unpack(Pack(s), n) == Padded(s)[..n]
  {
    forall i: nat | i < n ensures SeptetAt(Pack(s), i) == Padded(s)[i] {
      forall j: nat | j < 8 ensures Bit(SeptetAt(Pack(s), i), j) == Bit(Padded(s)[i], j) {
        UnpackPackBit(s, i, j);
      }
      OctetsEqual(SeptetAt(Pack(s), i), Padded(s)[i]);
    }
  }

  lemma PackedLengths(s: seq<Septet>, n: nat)
    ensures GuessedCount(Pack(s)) == |Padded(s)|
    ensures 0 < n <= |Padded(s)| ==> 7 * (n - 1) / 8 < PackedLen(|s|)
  {
  }

  lemma PackDecodes(a: Alphabet, t: Text, s: seq<Septet>, n: nat, tail: seq<Septet>)
    requires a.Valid() && Encodable(a, t) && s == SeptetsOfText(a, t)
    requires n <= |Padded(s)| && Padded(s)[..n] == s + tail
    ensures DecodedGsm7(a, Pack(s), n) == Some(t + TextOfSeptets(a, tail, false))
  {
    PackedLengths(s, n);
    UnpackPack(s, n);
    assert DecodedGsm7(a, Pack(s), n) == Some(TextOfSeptets(a, s + tail, false));
    SeptetsRoundTrip(a, t, tail);
  }

  /** Decoding with the septet count that encoding reported gives the text back. */
  lemma CountedRoundTrip(a: Alphabet, t: Text)
    requires a.Valid() && Encodable(a, t)
    ensures DecodedGsm7(a, Pack(SeptetsOfText(a, t)), CharCount(a, t)) == Some(t)
  {
    var s := SeptetsOfText(a, t);
    CharCountIsSeptetCount(a, t);
    assert Padded(s)[..|s|] == s + [];
    PackDecodes(a, t, s, |s|, []);
    assert t + [] == t;
  }

  /** `Decode` guesses the septet count from the octets: `len(data) * 8 / 7`. */
  function GuessedCount(d: Bytes): nat {
    |d| * 8 / 7
  }

  /** Decoding by length alone adds a carriage return exactly when the count is 7 modulo 8. */
  lemma GuessedRoundTrip(a: Alphabet, t: Text)
    requires a.Valid() && Encodable(a, t)
    ensures var d := Pack(SeptetsOfText(a, t));
      DecodedGsm7(a, d, GuessedCount(d)) ==
        Some(if CharCount(a, t) % 8 == 7 then t + [a.default[CR]] else t)
  {
    var s := SeptetsOfText(a, t);
    CharCountIsSeptetCount(a, t);
    var n := |Padded(s)|;
    PackedLengths(s, n);
    var tail: seq<Septet> := if |s| % 8 == 7 then [CR] else [];
    assert Padded(s)[..n] == s + tail;
    PackDecodes(a, t, s, n, tail);
    TailText(a, |s| % 8 == 7);
    assert t + [] == t;
  }

  lemma TailText(a: Alphabet, padded: bool)
    requires a.Valid()
    ensures TextOfSeptets(a, if padded then [CR] else [], false) == if padded then [a.default[CR]] else []
  {
  }
}

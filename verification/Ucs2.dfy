/** UCS-2 / UTF-16BE coding (smpp/coding.go). */
module Ucs2 {
  import opened Octets
  import opened Options
  import opened Seqs
  import opened GsmAlphabet

  type Text = seq<Rune>
  type Unit = Word

  const REPLACEMENT: Rune := 0xFFFD

  predicate IsHigh(u: Unit) {
    0xD800 <= u < 0xDC00
  }

  predicate IsLow(u: Unit) {
    0xDC00 <= u < 0xE000
  }

  /** The UTF-16 code units of one character. */
  function UnitsOf(r: Rune): (u: seq<Unit>)
    ensures |u| == if r < 0x10000 then 1 else 2
  {
    if r < 0x10000 then [r]
    else [0xD800 + (r - 0x10000) / 1024, 0xDC00 + (r - 0x10000) % 1024]
  }

  function UnitsOfText(t: Text): seq<Unit> {
    if t == [] then [] else UnitsOfText(t[..|t| - 1]) + UnitsOf(t[|t| - 1])
  }

  /** `utf16.Decode`: surrogates that are not half of a pair become the replacement character. */
  function TextOfUnits(u: seq<Unit>): Text {
    if u == [] then []
    else if !IsHigh(u[0]) && !IsLow(u[0]) then [u[0]] + TextOfUnits(u[1..])
    else if IsHigh(u[0]) && |u| > 1 && IsLow(u[1]) then
      [0x10000 + (u[0] - 0xD800) * 1024 + (u[1] - 0xDC00)] + TextOfUnits(u[2..])
    else [REPLACEMENT] + TextOfUnits(u[1..])
  }

  lemma OneCharacter(r: Rune, tail: seq<Unit>)
    ensures TextOfUnits(UnitsOf(r) + tail) == [r] + TextOfUnits(tail)
  {
    var u := UnitsOf(r) + tail;
    if r < 0x10000 {
      assert u[1..] == tail;
    } else {
      assert u[2..] == tail;
    }
  }

  /** Reading back the code units of a text gives the text, whatever follows it. */
  lemma {:induction false} UnitsRoundTrip(t: Text, tail: seq<Unit>)
    ensures TextOfUnits(UnitsOfText(t) + tail) == t + TextOfUnits(tail)
  {
    if t == [] {
      assert UnitsOfText(t) + tail == tail;
    } else {
      var init, last := t[..|t| - 1], t[|t| - 1];
      UnitsRoundTrip(init, UnitsOf(last) + tail);
      Assoc(UnitsOfText(init), UnitsOf(last), tail);
      OneCharacter(last, tail);
      Assoc(init, [last], TextOfUnits(tail));
      assert t == init + [last];
    }
  }

  /** Code units as octets, most significant first. */
  function BigEndian(u: seq<Unit>): (d: Bytes)
    ensures |d| == 2 * |u|
  {
    seq(2 * |u|, i requires 0 <= i < 2 * |u| => if i % 2 == 0 then u[i / 2] / 256 else u[i / 2] % 256)
  }

  function UnitsOfOctets(d: Bytes): (u: seq<Unit>)
    requires |d| % 2 == 0
    ensures |u| == |d| / 2
  {
    seq(|d| / 2, i requires 0 <= i < |d| / 2 => Uint16(d[2 * i], d[2 * i + 1]))
  }

  lemma BigEndianAt(u: seq<Unit>, i: nat)
    requires i < |u|
    ensures BigEndian(u)[2 * i] == u[i] / 256 && BigEndian(u)[2 * i + 1] == u[i] % 256
  {
    assert (2 * i) % 2 == 0 && (2 * i) / 2 == i;
    assert (2 * i + 1) % 2 == 1 && (2 * i + 1) / 2 == i;
  }

  lemma BigEndianRoundTrip(u: seq<Unit>)
    ensures UnitsOfOctets(BigEndian(u)) == u
  {
    forall i | 0 <= i < |u| ensures UnitsOfOctets(BigEndian(u))[i] == u[i] {
      BigEndianAt(u, i);
    }
  }

  /**
   * The octets of one character: two, most significant first, or beyond U+FFFF the four of a high and
   * a low surrogate that share its offset from U+10000 in halves of ten bits.
   */
  lemma CharacterOctets(r: Rune)
    ensures r < 0x10000 ==> BigEndian(UnitsOf(r)) == [r / 256, r % 256]
    ensures r >= 0x10000 ==>
      var v := r - 0x10000;
      BigEndian(UnitsOf(r)) == [0xD8 + v / 0x40000, v / 1024 % 256, 0xDC + v % 1024 / 256, v % 256]
  {
    var u := UnitsOf(r);
    BigEndianAt(u, 0);
    if r >= 0x10000 {
      BigEndianAt(u, 1);
      Surrogates(r - 0x10000);
    }
  }

  lemma Surrogates(v: nat)
    requires v < 0x100000
    ensures (0xD800 + v / 1024) / 256 == 0xD8 + v / 0x40000 && (0xD800 + v / 1024) % 256 == v / 1024 % 256
    ensures (0xDC00 + v % 1024) / 256 == 0xDC + v % 1024 / 256 && (0xDC00 + v % 1024) % 256 == v % 256
  {
    var h := v / 1024;
    assert h / 256 == v / 0x40000;
    assert v % 1024 % 256 == v % 256;
  }

  /** What `DecodeUCS2` returns. */
  function DecodedUcs2(d: Bytes): (r: Option<Text>) {
    if |d| % 2 != 0 then None else Some(TextOfUnits(UnitsOfOctets(d)))
  }

  /** `EncodeUCS2`. */
  method EncodeUcs2(text: Text) returns (d: Bytes)
    ensures d == BigEndian(UnitsOfText(text))
  {
    var u16 := UnitsOfText(text);
    var buf := new Byte[2 * |u16|](_ => 0);
    for i := 0 to |u16|
      invariant buf[..2 * i] == BigEndian(u16)[..2 * i]
    {
      buf[2 * i], buf[2 * i + 1] := u16[i] / 256, u16[i] % 256;
      assert buf[..2 * i + 2] == buf[..2 * i] + [u16[i] / 256, u16[i] % 256];
      assert BigEndian(u16)[..2 * i + 2] == BigEndian(u16)[..2 * i] + [u16[i] / 256, u16[i] % 256];
    }
    d := buf[..];
  }

  /** `DecodeUCS2`. */
  method DecodeUcs2(data: Bytes) returns (r: Option<Text>)
    ensures r == DecodedUcs2(data)
  {
    if |data| % 2 != 0 {
      return None;
    }
    var u16: seq<Unit> := [];
    for i := 0 to |data| / 2
      invariant u16 == UnitsOfOctets(data)[..i]
    {
      u16 := u16 + [Uint16(data[2 * i], data[2 * i + 1])];
    }
    assert u16 == UnitsOfOctets(data);
    r := Some(TextOfUnits(u16));
  }

  /** Every text, surrogate pairs included, survives UCS-2 coding. */
  lemma RoundTrip(t: Text)
    ensures DecodedUcs2(BigEndian(UnitsOfText(t))) == Some(t)
  {
    BigEndianRoundTrip(UnitsOfText(t));
    UnitsRoundTrip(t, []);
    assert UnitsOfText(t) + [] == UnitsOfText(t);
    assert t + [] == t;
  }

  /** One code unit per character exactly in the Basic Multilingual Plane. */
  lemma {:induction false} UnitCount(t: Text)
    ensures |t| <= |UnitsOfText(t)| <= 2 * |t|
    ensures |UnitsOfText(t)| == |t| <==> forall i :: 0 <= i < |t| ==> t[i] < 0x10000
  {
    if t != [] {
      var init, last := t[..|t| - 1], t[|t| - 1];
      UnitCount(init);
      assert t == init + [last];
      assert forall i :: 0 <= i < |init| ==> t[i] == init[i];
    }
  }
}

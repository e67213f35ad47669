/** Choosing a coding and the generic encode/decode dispatch (smpp/coding.go). */
module Coding {
  import opened Octets
  import opened Options
  import opened GsmAlphabet
  import opened Gsm7
  import Ucs2

  const DEFAULT: Byte := 0x00
  const UCS2: Byte := 0x08

  /** What `Encode` returns for the two text codings. */
  function Encoded(a: Alphabet, t: Text, coding: Byte): (r: Option<Bytes>)
    requires a.Valid() && (coding == DEFAULT || coding == UCS2)
  {
    if coding == UCS2 then Some(Ucs2.BigEndian(Ucs2.UnitsOfText(t)))
    else if Encodable(a, t) then Some(Pack(SeptetsOfText(a, t)))
    else None
  }

  /** What `Decode` returns for the two text codings; 7-bit data carries no septet count. */
  function Decoded(a: Alphabet, d: Bytes, coding: Byte): (r: Option<Text>)
    requires a.Valid() && (coding == DEFAULT || coding == UCS2)
  {
    if coding == UCS2 then Ucs2.DecodedUcs2(d) else DecodedGsm7(a, d, GuessedCount(d))
  }

  /** What decoding adds to a text: a carriage return when 7 septets of the last 8 are used. */
  function Extra(a: Alphabet, t: Text, coding: Byte): (x: Text)
    requires a.Valid() && (coding == DEFAULT ==> Encodable(a, t))
  {
    if coding == DEFAULT && CharCount(a, t) % 8 == 7 then [a.default[CR]] else []
  }

  lemma RoundTrip(a: Alphabet, t: Text, coding: Byte)
    requires a.Valid() && (coding == DEFAULT || coding == UCS2)
    requires Encoded(a, t, coding).Some?
    ensures Decoded(a, Encoded(a, t, coding).value, coding) == Some(t + Extra(a, t, coding))
  {
    assert t + [] == t;
    if coding == UCS2 {
      Ucs2.RoundTrip(t);
    } else {
      GuessedRoundTrip(a, t);
    }
  }

  /** `DetectCoding`: 7-bit exactly when 7-bit encoding would succeed. */
  method DetectCoding(a: Alphabet, text: Text) returns (coding: Byte)
    requires a.Valid()
    ensures coding == DEFAULT || coding == UCS2
    ensures coding == DEFAULT <==> Encoded(a, text, DEFAULT).Some?
    ensures Encoded(a, text, coding).Some?
  {
    var i := 0;
    while i < |text|
      invariant 0 <= i <= |text| && forall j :: 0 <= j < i ==> IsGsm7(a, text[j])
    {
      if !IsGsm7(a, text[i]) {
        return UCS2;
      }
      i := i + 1;
    }
    return DEFAULT;
  }

  /** With the carriage return at its usual code, it is what decoding adds, and nothing else ever is. */
  lemma CarriageReturnAdded(a: Alphabet, t: Text)
    requires a.Valid() && a.default[CR] == 0x0D && Encodable(a, t)
    ensures Decoded(a, Pack(SeptetsOfText(a, t)), DEFAULT) == Some(if CharCount(a, t) % 8 == 7 then t + [0x0D] else t)
  {
    GuessedRoundTrip(a, t);
  }

  /** Seven letters come back as eight characters. */
  lemma SevenLettersGainOne()
    ensures Gsm().Valid() && Encodable(Gsm(), [0x41, 0x41, 0x41, 0x41, 0x41, 0x41, 0x41])
    ensures var t := [0x41, 0x41, 0x41, 0x41, 0x41, 0x41, 0x41];
            Decoded(Gsm(), Pack(SeptetsOfText(Gsm(), t)), DEFAULT) == Some(t + [0x0D])
  {
    GsmValid();
    assert BasicCode(0x41).Some?;
    SevenBasic(Gsm(), 0x41);
  }

  lemma SevenBasic(a: Alphabet, r: Rune)
    requires a.Valid() && a.default[CR] == 0x0D && r in a.basic
    ensures var t := [r, r, r, r, r, r, r];
            Encodable(a, t) && Decoded(a, Pack(SeptetsOfText(a, t)), DEFAULT) == Some(t + [0x0D])
  {
    var t := [r, r, r, r, r, r, r];
    Times(a, r, 7);
    assert t == seq(7, _ => r);
    CarriageReturnAdded(a, t);
  }

  lemma {:induction false} Times(a: Alphabet, r: Rune, n: nat)
    requires r in a.basic
    ensures Encodable(a, seq(n, _ => r)) && CharCount(a, seq(n, _ => r)) == n
  {
    if n > 0 {
      Times(a, r, n - 1);
      assert seq(n, _ => r)[..n - 1] == seq(n - 1, _ => r);
    }
  }
}

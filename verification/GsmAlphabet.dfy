/**
 * The GSM 7-bit default alphabet and its extension table (smpp/coding.go,
 * sections 6.2.1 and 6.2.1.1 of 3GPP TS 23.038).
 */
module GsmAlphabet {
  import opened Octets
  import opened Options

  /** A Unicode scalar value. Text is a sequence of them. */
  type Rune = r: int | 0 <= r < 0x110000 && !(0xD800 <= r < 0xE000)

  const ESC: Byte := 0x1B
  const CR: Byte := 0x0D

  /**
   * The four lookup tables of the package. The coding and segmentation theorems hold for any
   * tables that `Valid` accepts; `Gsm` is the one the package ships.
   */
  datatype Alphabet = Alphabet(
    default: seq<Rune>,          // gsm7Default: septet -> character
    extension: map<Byte, Rune>,  // gsm7Extension: septet after the escape -> character
    basic: map<Rune, Byte>,      // unicodeToGSM7
    extended: map<Rune, Byte>)   // unicodeToGSM7Ext
  {
    ghost predicate Valid() {
      && |default| == 128
      && (forall r :: r in basic ==> basic[r] < 128 && basic[r] != ESC && default[basic[r]] == r)
      && (forall r :: r in extended ==> extended[r] in extension && extension[extended[r]] == r)
      && (forall r :: r in extended ==> extended[r] < 128 && r !in basic)
    }
  }

  /** `gsm7Default`: the character of each septet. */
  function Default(c: Byte): (r: Rune)
    requires c < 128
  {
    match c
    case 0x00 => 0x40
    case 0x01 => 0xA3
    case 0x02 => 0x24
    case 0x03 => 0xA5
    case 0x04 => 0xE8
    case 0x05 => 0xE9
    case 0x06 => 0xF9
    case 0x07 => 0xEC
    case 0x08 => 0xF2
    case 0x09 => 0xC7
    case 0x0A => 0x0A
    case 0x0B => 0xD8
    case 0x0C => 0xF8
    case 0x0D => 0x0D
    case 0x0E => 0xC5
    case 0x0F => 0xE5
    case 0x10 => 0x394
    case 0x11 => 0x5F
    case 0x12 => 0x3A6
    case 0x13 => 0x393
    case 0x14 => 0x39B
    case 0x15 => 0x3A9
    case 0x16 => 0x3A0
    case 0x17 => 0x3A8
    case 0x18 => 0x3A3
    case 0x19 => 0x398
    case 0x1A => 0x39E
    case 0x1B => 0x1B
    case 0x1C => 0xC6
    case 0x1D => 0xE6
    case 0x1E => 0xDF
    case 0x1F => 0xC9
    case 0x24 => 0xA4
    case 0x40 => 0xA1
    case 0x5B => 0xC4
    case 0x5C => 0xD6
    case 0x5D => 0xD1
    case 0x5E => 0xDC
    case 0x5F => 0xA7
    case 0x60 => 0xBF
    case 0x7B => 0xE4
    case 0x7C => 0xF6
    case 0x7D => 0xF1
    case 0x7E => 0xFC
    case 0x7F => 0xE0
    case _ => c
  }

  /** `unicodeToGSM7`: the septet of each character of the default alphabet; the escape has none. */
  function BasicCode(r: Rune): (c: Option<Byte>) {
    match r
    case 0x40 => Some(0x00)
    case 0xA3 => Some(0x01)
    case 0x24 => Some(0x02)
    case 0xA5 => Some(0x03)
    case 0xE8 => Some(0x04)
    case 0xE9 => Some(0x05)
    case 0xF9 => Some(0x06)
    case 0xEC => Some(0x07)
    case 0xF2 => Some(0x08)
    case 0xC7 => Some(0x09)
    case 0x0A => Some(0x0A)
    case 0xD8 => Some(0x0B)
    case 0xF8 => Some(0x0C)
    case 0x0D => Some(0x0D)
    case 0xC5 => Some(0x0E)
    case 0xE5 => Some(0x0F)
    case 0x394 => Some(0x10)
    case 0x5F => Some(0x11)
    case 0x3A6 => Some(0x12)
    case 0x393 => Some(0x13)
    case 0x39B => Some(0x14)
    case 0x3A9 => Some(0x15)
    case 0x3A0 => Some(0x16)
    case 0x3A8 => Some(0x17)
    case 0x3A3 => Some(0x18)
    case 0x398 => Some(0x19)
    case 0x39E => Some(0x1A)
    case 0xC6 => Some(0x1C)
    case 0xE6 => Some(0x1D)
    case 0xDF => Some(0x1E)
    case 0xC9 => Some(0x1F)
    case 0xA4 => Some(0x24)
    case 0xA1 => Some(0x40)
    case 0xC4 => Some(0x5B)
    case 0xD6 => Some(0x5C)
    case 0xD1 => Some(0x5D)
    case 0xDC => Some(0x5E)
    case 0xA7 => Some(0x5F)
    case 0xBF => Some(0x60)
    case 0xE4 => Some(0x7B)
    case 0xF6 => Some(0x7C)
    case 0xF1 => Some(0x7D)
    case 0xFC => Some(0x7E)
    case 0xE0 => Some(0x7F)
    case _ => if 0x20 <= r <= 0x5A || 0x61 <= r <= 0x7A then Some(r) else None
  }

  /** `gsm7Extension`: the character of a septet that follows the escape, if it is assigned. */
  function Extension(c: Byte): (r: Option<Rune>) {
    match c
    case 0x0A => Some(0x0C)
    case 0x14 => Some(0x5E)
    case 0x28 => Some(0x7B)
    case 0x29 => Some(0x7D)
    case 0x2F => Some(0x5C)
    case 0x3C => Some(0x5B)
    case 0x3D => Some(0x7E)
    case 0x3E => Some(0x5D)
    case 0x40 => Some(0x7C)
    case 0x65 => Some(0x20AC)
    case _ => None
  }

  /** `unicodeToGSM7Ext`. */
  function ExtensionCode(r: Rune): (c: Option<Byte>) {
    match r
    case 0x0C => Some(0x0A)
    case 0x5E => Some(0x14)
    case 0x7B => Some(0x28)
    case 0x7D => Some(0x29)
    case 0x5C => Some(0x2F)
    case 0x5B => Some(0x3C)
    case 0x7E => Some(0x3D)
    case 0x5D => Some(0x3E)
    case 0x7C => Some(0x40)
    case 0x20AC => Some(0x65)
    case _ => None
  }

  /** The two tables of the default alphabet are each other's inverse, the escape apart. */
  lemma BasicTablesInverse(r: Rune, c: Byte)
    ensures BasicCode(r) == Some(c) <==> c < 128 && c != ESC && Default(c) == r
  {
  }

  /** Letters, digits, the space and line ends have their ASCII codes as septets. */
  lemma AsciiKept(c: Byte)
    requires 0x41 <= c <= 0x5A || 0x61 <= c <= 0x7A || 0x30 <= c <= 0x39 || c == 0x20 || c == 0x0A || c == 0x0D
    ensures BasicCode(c) == Some(c) && Default(c) == c
  {
    BasicTablesInverse(c, c);
  }

  lemma ExtensionTablesInverse(r: Rune, c: Byte)
    ensures ExtensionCode(r) == Some(c) <==> Extension(c) == Some(r)
    ensures ExtensionCode(r) == Some(c) ==> c < 128 && BasicCode(r).None?
  {
  }

  /** The tables as `init` leaves them. */
  ghost function Gsm(): (a: Alphabet)
    ensures forall r: Rune :: r in a.basic <==> BasicCode(r).Some?
    ensures forall r: Rune :: r in a.extended <==> ExtensionCode(r).Some?
  {
    Alphabet(
      seq(128, c requires 0 <= c < 128 => Default(c)),
      map c: Byte | 0 <= c < 128 && Extension(c).Some? :: Extension(c).value,
      map r: Rune | 0 <= r < 0x3000 && BasicCode(r).Some? :: BasicCode(r).value,
      map r: Rune | 0 <= r < 0x3000 && ExtensionCode(r).Some? :: ExtensionCode(r).value)
  }

  lemma GsmValid()
    ensures Gsm().Valid() && Gsm().default[CR] == 0x0D
  {
    var a := Gsm();
    forall r: Rune | r in a.basic
      ensures a.basic[r] < 128 && a.basic[r] != ESC && a.default[a.basic[r]] == r
    {
      BasicTablesInverse(r, a.basic[r]);
    }
    forall r: Rune | r in a.extended
      ensures a.extended[r] in a.extension && a.extension[a.extended[r]] == r
      ensures a.extended[r] < 128 && r !in a.basic
    {
      ExtensionTablesInverse(r, a.extended[r]);
    }
  }
}

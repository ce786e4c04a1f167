/**
 StringConverter::StringToWide: every char of a narrow string becomes one
 wchar_t, in order. Under the Windows toolchain char is a signed 8-bit type
 and wchar_t an unsigned 16-bit one, so the conversion is the value modulo
 2^16: 0..127 keep their value and negative chars (bytes 0x80..0xFF) land on
 0xFF80..0xFFFF.
 */
module StringConverter {

  /** A char: signed 8-bit. */
  type Char8 = x: int | -128 <= x < 128

  /** A wchar_t: unsigned 16-bit. */
  type WChar = x: int | 0 <= x < 0x1_0000

  /** The integral conversion char -> wchar_t. */
  function Widen(c: Char8): (w: WChar)
    ensures 0 <= c ==> w == c
    ensures c < 0 ==> w == c + 0x1_0000
  {
    c % 0x1_0000
  }

  /** The low byte of a wchar_t, read back as a signed char: the inverse of Widen. */
  function Narrow(w: WChar): Char8
  {
    var b := w % 256;
    if b < 128 then b else b - 256
  }

  /** Narrowing every wide character. */
  function NarrowString(ws: seq<WChar>): seq<Char8>
  {
    seq(|ws|, i requires 0 <= i < |ws| => Narrow(ws[i]))
  }

  /** Narrowing undoes widening, so distinct chars widen to distinct wide chars. */
  lemma WidenRoundTrip(c: Char8, d: Char8)
    ensures Narrow(Widen(c)) == c
    ensures Widen(c) == Widen(d) ==> c == d
  {
  }

  /**
   The string is taken by value and read once, front to back; the result has
   one wide character per char, each the widened char at the same position,
   and narrowing it gives the input back.
   */
  method StringToWide(str: seq<Char8>) returns (wide: seq<WChar>)
    ensures |wide| == |str|
    ensures forall i :: 0 <= i < |str| ==> wide[i] == Widen(str[i])
    ensures forall i :: 0 <= i < |str| && 0 <= str[i] ==> wide[i] == str[i]
    ensures NarrowString(wide) == str
  {
    wide := [];
    var i := 0;
    while i < |str|
      invariant 0 <= i <= |str|
      invariant |wide| == i
      invariant forall j :: 0 <= j < i ==> wide[j] == Widen(str[j])
    {
      wide := wide + [Widen(str[i])];
      i := i + 1;
    }
    forall j | 0 <= j < |str|
      ensures Narrow(wide[j]) == str[j]
    {
      WidenRoundTrip(str[j], str[j]);
    }
  }
}

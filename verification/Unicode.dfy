/** The lengths of characters in UTF-8 (RFC 3629) and UTF-16 (RFC 2781), against the encodings themselves. */
module Unicode {
  import opened Wrappers
  import opened LineIndex

  function Utf16(c: char): (units: seq<nat>) {
    var n := c as int;
    if n < 0x10000 then [n] else [0xD800 + (n - 0x10000) / 0x400, 0xDC00 + (n - 0x10000) % 0x400]
  }

  function FromUtf16(units: seq<nat>): nat {
    if |units| == 1 then units[0]
    else if |units| == 2 && units[0] >= 0xD800 && units[1] >= 0xDC00 then (units[0] - 0xD800) * 0x400 + (units[1] - 0xDC00) + 0x10000
    else 0
  }

  function Utf8(c: char): (bytes: seq<nat>) {
    var n := c as int;
    if n < 0x80 then [n]
    else if n < 0x800 then [0xC0 + n / 0x40, 0x80 + n % 0x40]
    else if n < 0x10000 then [0xE0 + n / 0x1000, 0x80 + n / 0x40 % 0x40, 0x80 + n % 0x40]
    else [0xF0 + n / 0x40000, 0x80 + n / 0x1000 % 0x40, 0x80 + n / 0x40 % 0x40, 0x80 + n % 0x40]
  }

  function FromUtf8(b: seq<int>): int {
    match |b|
    case 1 => b[0]
    case 2 => (b[0] - 0xC0) * 0x40 + (b[1] - 0x80)
    case 3 => ((b[0] - 0xE0) * 0x40 + (b[1] - 0x80)) * 0x40 + (b[2] - 0x80)
    case 4 => (((b[0] - 0xF0) * 0x40 + (b[1] - 0x80)) * 0x40 + (b[2] - 0x80)) * 0x40 + (b[3] - 0x80)
    case _ => 0
  }

  /** A character has as many units as its encoding, whose units fit in 16 bits and decode to it; two of them are a surrogate
      pair, and are only used where one does not do. */
  lemma {:induction false} Utf16LenIs(c: char)
    ensures |Utf16(c)| == Utf16Len(c) && (forall u :: u in Utf16(c) ==> u < 0x10000) && FromUtf16(Utf16(c)) == c as int
    ensures Utf16Len(c) == 2 ==> 0xD800 <= Utf16(c)[0] < 0xDC00 <= Utf16(c)[1] < 0xE000 && c as int >= 0x10000
  {
    var m := c as int - 0x10000;
    assert m == m / 0x400 * 0x400 + m % 0x400;
  }

  /** And as many bytes: the first says how many there are, each of the others carries six bits, and together they decode to
      the character; no shorter form has room for it. */
  lemma {:induction false} Utf8LenIs(c: char)
    ensures |Utf8(c)| == Utf8Len(c) && FromUtf8(Utf8(c)) == c as int
    ensures forall i :: 0 < i < |Utf8(c)| ==> 0x80 <= Utf8(c)[i] < 0xC0
    ensures match Utf8Len(c)
      case 1 => Utf8(c)[0] < 0x80
      case 2 => 0xC0 <= Utf8(c)[0] < 0xE0 && c as int >= 0x80
      case 3 => 0xE0 <= Utf8(c)[0] < 0xF0 && c as int >= 0x800
      case _ => 0xF0 <= Utf8(c)[0] < 0xF8 && c as int >= 0x10000
  {
    var n := c as int;
    assert n == n / 0x40 * 0x40 + n % 0x40;
    assert n / 0x40 == n / 0x1000 * 0x40 + n / 0x40 % 0x40;
    assert n / 0x1000 == n / 0x40000 * 0x40 + n / 0x1000 % 0x40;
  }

  function AllUtf16(s: string): seq<nat> {
    if s == "" then [] else AllUtf16(s[..|s| - 1]) + Utf16(s[|s| - 1])
  }

  function AllUtf8(s: string): seq<nat> {
    if s == "" then [] else AllUtf8(s[..|s| - 1]) + Utf8(s[|s| - 1])
  }

  /** Texts are measured in the bytes and units of their encodings. */
  lemma {:induction false} TextsAreMeasured(s: string)
    ensures |AllUtf16(s)| == Units(s) && |AllUtf8(s)| == Bytes(s)
  {
    if s != "" {
      TextsAreMeasured(s[..|s| - 1]);
      Utf16LenIs(s[|s| - 1]);
      Utf8LenIs(s[|s| - 1]);
    }
  }
}

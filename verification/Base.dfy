/** Vocabulary shared by every module: machine words, options and results, and
    the text rule that the protocol applies to every string field. */
module Base {
  const U64_MAX: int := 0xFFFF_FFFF_FFFF_FFFF

  type u64 = x: int | 0 <= x <= 0xFFFF_FFFF_FFFF_FFFF

  type byte = x: int | 0 <= x < 256

  type u16 = x: int | 0 <= x <= 0xFFFF

  type i32 = x: int | -0x8000_0000 <= x <= 0x7FFF_FFFF

  /** Sixteen bytes, read as the number their big-endian order denotes. */
  type Id128 = x: int | 0 <= x <= 0xFFFF_FFFF_FFFF_FFFF_FFFF_FFFF_FFFF_FFFF

  datatype Option<+T> = None | Some(value: T)

  datatype Result<+T, +E> = Ok(value: T) | Err(error: E)

  function SaturatingAdd(a: u64, b: u64): (r: u64)
    ensures r <= a + b && (a + b <= U64_MAX ==> r == a + b)
  {
    if a + b > U64_MAX then U64_MAX else a + b
  }

  /** The Unicode White_Space property, which decides what trimming removes. */
  predicate IsWhiteSpace(c: char) {
    var n := c as int;
    || 0x9 <= n <= 0xD || n == 0x20 || n == 0x85 || n == 0xA0 || n == 0x1680
    || 0x2000 <= n <= 0x200A || n == 0x2028 || n == 0x2029 || n == 0x202F
    || n == 0x205F || n == 0x3000
  }

  function Utf8Length(s: string): nat {
    if s == [] then 0 else
      var n := s[0] as int;
      (if n < 0x80 then 1 else if n < 0x800 then 2 else if n < 0x1_0000 then 3 else 4)
      + Utf8Length(s[1..])
  }

  /** Trimming leaves something and the UTF-8 form fits. */
  predicate ValidText(s: string, max: nat) {
    (exists i :: 0 <= i < |s| && !IsWhiteSpace(s[i])) && Utf8Length(s) <= max
  }

  lemma {:induction false} Utf8LengthBound(s: string)
    ensures |s| <= Utf8Length(s) <= 4 * |s|
  {
    if s != [] { Utf8LengthBound(s[1..]); }
  }

  lemma {:induction false} AsciiLength(s: string)
    requires forall i :: 0 <= i < |s| ==> s[i] as int < 0x80
    ensures Utf8Length(s) == |s|
  {
    if s != [] { AsciiLength(s[1..]); }
  }

  /** A plain lower-case text such as the protocol's own reason strings. */
  lemma PlainTextIsValid(s: string, max: nat)
    requires s != [] && 'a' <= s[0] <= 'z' && 4 * |s| <= max
    ensures ValidText(s, max)
  {
    Utf8LengthBound(s);
  }
}

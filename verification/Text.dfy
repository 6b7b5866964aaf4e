/**
 Results, and the few facts about text that the protocols depend on.
 */
module Text {

  datatype Option<+T> = None | Some(value: T)

  datatype Result<+T, +E> = Success(value: T) | Failure(error: E)

  /** Unicode White_Space, the class that `str::trim` removes. */
  predicate IsWhitespace(c: char) {
    var code := c as int;
    || 9 <= code <= 13
    || 0x2000 <= code <= 0x200A
    || code in {0x20, 0x85, 0xA0, 0x1680, 0x2028, 0x2029, 0x202F, 0x205F, 0x3000}
  }

  /** `text.trim().is_empty()`. */
  predicate IsBlank(text: string) {
    forall c :: c in text ==> IsWhitespace(c)
  }

  /** Bytes one character takes in UTF-8. */
  function Utf8Width(c: char): (bytes: nat)
    ensures 1 <= bytes <= 4
  {
    var code := c as int;
    if code < 0x80 then 1 else if code < 0x800 then 2 else if code < 0x10000 then 3 else 4
  }

  /** `text.len()`: strings are measured in UTF-8 bytes. */
  function Utf8Len(text: string): (bytes: nat)
    ensures bytes >= |text|
  {
    if text == "" then 0 else Utf8Width(text[0]) + Utf8Len(text[1..])
  }
}

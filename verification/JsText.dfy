/** Text as JavaScript holds it: a sequence of UTF-16 code units, in which a surrogate may stand alone. */
module JsText {
  type CodeUnit = u: int | 0 <= u < 0x1_0000
  type Text = seq<CodeUnit>

  predicate IsHighSurrogate(u: CodeUnit) {
    0xD800 <= u < 0xDC00
  }

  predicate IsLowSurrogate(u: CodeUnit) {
    0xDC00 <= u < 0xE000
  }

  predicate IsSurrogate(u: CodeUnit) {
    0xD800 <= u < 0xE000
  }

  predicate IsAscii(t: Text) {
    forall i :: 0 <= i < |t| ==> t[i] < 0x80
  }
}

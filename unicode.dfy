/** The small part of Go's `unicode` package that the kana package relies on.
    Strings are modelled as the sequence of code points a Go `range` loop
    yields; the script tables are Unicode data the model does not restate. */
module Unicode {

  /** A Go rune as produced by ranging over a string: a code point in
      U+0000 .. U+10FFFF. */
  type CodePoint = r: int | 0 <= r <= 0x10FFFF

  /** Membership in the three script tables the package queries with
      `unicode.In`: `unicode.Hiragana`, `unicode.Katakana` and `unicode.Han`.
      Each field is an arbitrary predicate, so everything proved about the
      classification functions holds whatever the tables contain. */
  datatype ScriptTables = ScriptTables(
    hiragana: CodePoint -> bool,
    katakana: CodePoint -> bool,
    han: CodePoint -> bool)
}

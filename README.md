# kana-tools: script swap and script classification

This project models the part of the Go package `kana` (file `conversion.go`)
that is defined in that file itself:

- the per-rune script swap `HiraganaToKatakana` / `KatakanaToHiragana`
  (a range test and a fixed offset of 0x60), and the same swap mapped over a
  whole string with `strings.Map`, as the hiragana and katakana pipelines do;
- the classification scans `IsHiragana`, `IsKatakana`, `IsKanji` (every rune of
  the string, separators deleted, is in the script, and something is left),
  `ContainsHiragana`, `ContainsKatakana`, `ContainsKanji` (some rune is in the
  script) and `ExtractKanji` (the Han runes, in order, each as a one-rune
  string).

A Go string is modelled as the sequence of runes a `for _, r := range s` loop
yields: `seq<CodePoint>`, where `CodePoint` is an `int` in 0 .. 0x10FFFF. The
Unicode script tables `unicode.Hiragana`, `unicode.Katakana` and `unicode.Han`
are foreign data: the classification methods take them as a parameter
(`Unicode.ScriptTables`, three arbitrary predicates), so every result holds for
whatever those tables contain.

The package's sanitising replacers `sanitizeIsChecks` and
`sanitizeIsChecksKanji` are not part of this model's sources. Their doc
comments and the tests show what they delete. They are modelled as deleting
every rune of a fixed set:

- for the kana checks, U+0020, U+3000 and ー (U+30FC). The doc comments speak
  of "spaces and dashes", but ー is the only dash the tests show, so this is
  the smallest set consistent with them; whether other dashes (ASCII `-`, for
  one) are deleted too is unknown. `AllOfScript` and `OfScriptIff` take the
  set as a parameter, so their results carry over to a larger set;
- for the kanji check, U+0020 and U+3000.

Files:

- `unicode.dfy` — module `Unicode`: the rune type and the script tables.
- `scans.dfy` — module `Scans`: recursive specifications of the three scans
  (`All`, `Any`, `Filter`) and of `strings.Map` (`MapEach`), with lemmas that
  characterise them over positions, multisets and concatenation.
- `kana.dfy` — module `Kana`: the swap functions and the classification
  methods. `AllOfScript` and `AnyOfScript` are the scan loops, with the early
  `return` of conversion.go:148-154 and conversion.go:193-199; the `Is*` and
  `Contains*` methods call them. `ExtractKanji` is the appending loop of
  conversion.go:228-234. Each loop is proved equal to its recursive
  specification.

The Go code moves only U+3041..U+3096 and U+309D..U+309E to katakana, not the
whole hiragana block (U+3097..U+309C and ゟ U+309F stay as they are). So the
round-trip is stated for exactly the ranges the code swaps. As a result,
katakana-to-hiragana after hiragana-to-katakana restores a rune exactly when
that rune is not itself in the swapped katakana range.

## Model

| member | source | states |
|---|---|---|
| Kana.HiraganaToKatakana | conversion.go:124-129 | changes a rune exactly when it is in ぁ..ゖ or ゝ..ゞ, and then moves it 0x60 up into the katakana range; the result is never in that hiragana range |
| Kana.KatakanaToHiragana | conversion.go:133-138 | changes a rune exactly when it is in ァ..ヶ or ヽ..ヾ, and then moves it 0x60 down into the hiragana range; the result is never in that katakana range |
| Kana.HiraganaRoundTrip | conversion.go:124-138 | katakana-to-hiragana after hiragana-to-katakana gives the rune back exactly when the rune is not in the swapped katakana range (so for every hiragana rune of the range) |
| Kana.KatakanaRoundTrip | conversion.go:124-138 | the mirror: hiragana-to-katakana after katakana-to-hiragana gives the rune back exactly when it is not in the swapped hiragana range |
| Kana.HiraganaRangeOntoKatakanaRange | conversion.go:124-138 | a rune is in the swapped katakana range exactly when it is the image of a rune of the swapped hiragana range, and no two runes of that range have the same image |
| Scans.MapEach | conversion.go:92 | mapping a rune function over a string keeps its length and applies the function at every position |
| Kana.StringHiraganaRoundTrip | conversion_test.go:802-808 | mapping katakana-to-hiragana over a string mapped to katakana gives it back exactly when it holds no rune of the swapped katakana range |
| Kana.StringKatakanaRoundTrip | conversion_test.go:802-808 | the mirror over strings: exactly when the string holds no rune of the swapped hiragana range |
| Kana.SwapToKatakanaComplete | conversion.go:92 | after the swap pass no rune of the hiragana range is left, the length is unchanged, and a second pass changes nothing |
| Kana.SwapToHiraganaComplete | conversion.go:74 | after the swap pass no rune of the katakana range is left, the length is unchanged, and a second pass changes nothing |
| Scans.Filter | conversion.go:228-234 | the kept sequence is no longer than the input and every kept element satisfies the predicate |
| Scans.AllIff | conversion.go:148-154 | the recursive "every rune is in the class" holds exactly when the class holds at every position |
| Scans.AnyIff | conversion.go:193-199 | the recursive "some rune is in the class" holds exactly when the class holds at some position |
| Scans.FilterAppend | conversion.go:229-233 | filtering a concatenation is the concatenation of the filtered parts, so kept runes stay in order of appearance |
| Scans.FilterMultiset | conversion.go:224-226 | every occurrence of a kept rune survives, repeats included, and no other rune does |
| Scans.FilterMembers | conversion.go:143 | a rune is in the filtered string exactly when it is in the input and satisfies the predicate |
| Scans.FilterLength | conversion.go:228-234 | the filtered length equals the number of positions whose rune satisfies the predicate |
| Scans.FilterEmptyIff | conversion.go:143-146 | the filtered string is empty exactly when no rune satisfies the predicate |
| Scans.FilterAllIff | conversion.go:143-154 | every kept rune is in a class exactly when every input rune that passes the filter is |
| Kana.Sanitize | conversion.go:143 | the sanitised string holds exactly the runes of the input that are not separators |
| Kana.OfScriptIff | conversion.go:142-155 | "in the script" holds exactly when some rune is not a separator and every non-separator rune is in the script |
| Kana.AllOfScript | conversion.go:142-155 | the sanitise-then-scan loop with early false returns the recursive specification: non-empty after sanitising and every rune left in the script |
| Kana.AnyOfScript | conversion.go:192-200 | the scan loop with early true returns "some rune is in the script" |
| Kana.IsKatakana | conversion.go:142-155 | true exactly when some rune is not a space or ー and every such rune is katakana |
| Kana.IsHiragana | conversion.go:159-172 | true exactly when some rune is not a space or ー and every such rune is hiragana |
| Kana.IsKanji | conversion.go:176-189 | true exactly when some rune is not a space and every such rune is Han |
| Kana.ContainsKatakana | conversion.go:192-200 | true exactly when some rune is katakana (false on the empty string) |
| Kana.ContainsHiragana | conversion.go:203-211 | true exactly when some rune is hiragana |
| Kana.ContainsKanji | conversion.go:214-222 | true exactly when some rune is Han |
| Kana.ExtractKanji | conversion.go:227-235 | one one-rune string per Han rune, in order, repeats kept; the length equals the number of Han positions; empty exactly when there is no Han rune |
| Kana.BlankIsNoScript | conversion_test.go:62-63 | a string of spaces only, the empty string included, is neither hiragana, katakana nor kanji |
| Kana.OfScriptImpliesAny | conversion.go:143-154 | a string wholly in a script (after deleting separators) contains a rune of that script |
| Kana.IsImpliesContains | conversion.go:142-222 | for each of the three scripts, IsX(s) implies ContainsX(s) |

## Left out

- `ToRomaji`, `ToRomajiCased`, `ToHiragana`, `ToKatakana`, `ToKana` (conversion.go:16-120): every stage is a rule table (`moraicNRomaji`, `kanaToRomaji`, `phoneticRomaji`, `unphoneticRomaji`, `preHiragana`, `romajiToHiragana`, `postHiragana`, `preKatakana`, `romajiToKatakana`, `postKatakana`, `postKanaSpecial`, `postRomajiSpecial`) or `parseRomajiDoubles`, none of which are part of this model. Their match policy belongs to Go's `strings.Replacer`. Only the script-swap pass these pipelines run (`strings.Map` at conversion.go:74 and conversion.go:92) is modelled.
- The `phonetic` flag of `ToRomaji`: it only selects between two rule tables that are not part of this model.
- `sync.Pool` buffer reuse and `unsafeString` (conversion.go:23-36): memory plumbing with no effect on results.
- The contents of `unicode.Hiragana`, `unicode.Katakana`, `unicode.Han`: foreign data, taken as arbitrary predicates. So facts that depend on the tables, such as "a hiragana string with one kanji is not hiragana", are not derived.
- `sanitizeIsChecks` and `sanitizeIsChecksKanji` are not part of this model. Their separator sets come from their doc comments and the tests; dashes other than ー are not deleted by the model.
- Kana.HiraganaToKatakana and Kana.KatakanaToHiragana are modelled only on valid code points (0 .. 0x10FFFF). Go accepts any int32 `rune` and returns a negative or too-large value unchanged; every call in the package passes a rune decoded from a string, so no call site is affected.
- UTF-8 decoding: a Go string is taken to be its rune sequence. Invalid bytes, which Go decodes to U+FFFD, and surrogate code points are not distinguished.
- Scans.MapEach: Go's `strings.Map` drops a rune whose mapping is negative. That rule is not modelled, because both swap functions always return a code point.
- `strings.ToLower` and `strings.ToUpper`: used only by the pipelines left out above.

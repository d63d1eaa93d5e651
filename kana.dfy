/** The kana package's script swap and script classification (conversion.go). */
module Kana {
  import opened Unicode
  import opened Scans

  // ---------------------------------------------------------------------
  // Per-rune script swap

  /** Distance between a hiragana code point and its katakana counterpart. */
  const KanaOffset: int := 0x60

  /** The code points HiraganaToKatakana moves: ぁ (U+3041) .. ゖ (U+3096)
      and ゝ (U+309D) .. ゞ (U+309E). */
  predicate InHiraganaRange(r: int)
  {
    (0x3041 <= r <= 0x3096) || (0x309D <= r <= 0x309E)
  }

  /** The code points KatakanaToHiragana moves: ァ (U+30A1) .. ヶ (U+30F6)
      and ヽ (U+30FD) .. ヾ (U+30FE). */
  predicate InKatakanaRange(r: int)
  {
    (0x30A1 <= r <= 0x30F6) || (0x30FD <= r <= 0x30FE)
  }

  /** A rune of ぁ..ゖ or ゝ..ゞ becomes the katakana rune for the same mora;
      every other rune, ゟ (U+309F) and U+3097..U+309C included, is returned
      as it is. */
  function HiraganaToKatakana(r: CodePoint): (k: CodePoint)
    ensures k != r <==> InHiraganaRange(r)
    ensures InHiraganaRange(r) ==> InKatakanaRange(k) && k - r == KanaOffset
    ensures !InHiraganaRange(k)
  {
    if InHiraganaRange(r) then r + KanaOffset else r
  }

  /** A rune of ァ..ヶ or ヽ..ヾ becomes the hiragana rune for the same mora;
      every other rune, ヷ..ヺ (U+30F7..U+30FA) and ヿ (U+30FF) included, is
      returned as it is. */
  function KatakanaToHiragana(r: CodePoint): (h: CodePoint)
    ensures h != r <==> InKatakanaRange(r)
    ensures InKatakanaRange(r) ==> InHiraganaRange(h) && r - h == KanaOffset
    ensures !InKatakanaRange(h)
  {
    if InKatakanaRange(r) then r - KanaOffset else r
  }

  /** Swapping to katakana and back restores a rune exactly when the rune was
      not already a katakana rune of the swapped range (such a rune is left
      alone on the way there but moved on the way back). */
  lemma HiraganaRoundTrip(r: CodePoint)
    ensures KatakanaToHiragana(HiraganaToKatakana(r)) == r <==> !InKatakanaRange(r)
  {
  }

  lemma KatakanaRoundTrip(r: CodePoint)
    ensures HiraganaToKatakana(KatakanaToHiragana(r)) == r <==> !InHiraganaRange(r)
  {
  }

  /** The 0x60 shift maps the hiragana range onto the katakana range: every
      katakana rune of the range is the image of exactly one hiragana rune. */
  lemma HiraganaRangeOntoKatakanaRange(k: CodePoint)
    ensures InKatakanaRange(k) <==>
      exists r: CodePoint :: InHiraganaRange(r) && HiraganaToKatakana(r) == k
    ensures forall r1: CodePoint, r2: CodePoint ::
      InHiraganaRange(r1) && InHiraganaRange(r2) && HiraganaToKatakana(r1) == HiraganaToKatakana(r2) ==> r1 == r2
  {
    if InKatakanaRange(k) {
      var r := KatakanaToHiragana(k);
      assert InHiraganaRange(r) && HiraganaToKatakana(r) == k;
    }
  }

  // ---------------------------------------------------------------------
  // The swap over whole strings (strings.Map in ToHiragana and ToKatakana)

  /** Mapping katakana-to-hiragana over a string swapped to katakana gives the
      string back exactly when it holds no katakana rune of the swapped range. */
  lemma {:induction false} StringHiraganaRoundTrip(s: seq<CodePoint>)
    ensures MapEach(KatakanaToHiragana, MapEach(HiraganaToKatakana, s)) == s
        <==> forall i :: 0 <= i < |s| ==> !InKatakanaRange(s[i])
  {
    var t := MapEach(KatakanaToHiragana, MapEach(HiraganaToKatakana, s));
    forall i | 0 <= i < |s|
      ensures t[i] == s[i] <==> !InKatakanaRange(s[i])
    {
      HiraganaRoundTrip(s[i]);
    }
    if t != s {
      assert exists i :: 0 <= i < |s| && t[i] != s[i];
    }
  }

  lemma {:induction false} StringKatakanaRoundTrip(s: seq<CodePoint>)
    ensures MapEach(HiraganaToKatakana, MapEach(KatakanaToHiragana, s)) == s
        <==> forall i :: 0 <= i < |s| ==> !InHiraganaRange(s[i])
  {
    var t := MapEach(HiraganaToKatakana, MapEach(KatakanaToHiragana, s));
    forall i | 0 <= i < |s|
      ensures t[i] == s[i] <==> !InHiraganaRange(s[i])
    {
      KatakanaRoundTrip(s[i]);
    }
    if t != s {
      assert exists i :: 0 <= i < |s| && t[i] != s[i];
    }
  }

  /** After the swap pass of ToKatakana no hiragana rune of the range is left,
      the length is kept, and a second pass changes nothing. */
  lemma SwapToKatakanaComplete(s: seq<CodePoint>)
    ensures |MapEach(HiraganaToKatakana, s)| == |s|
    ensures forall i :: 0 <= i < |s| ==> !InHiraganaRange(MapEach(HiraganaToKatakana, s)[i])
    ensures MapEach(HiraganaToKatakana, MapEach(HiraganaToKatakana, s)) == MapEach(HiraganaToKatakana, s)
  {
  }

  /** After the swap pass of ToHiragana no katakana rune of the range is left,
      the length is kept, and a second pass changes nothing. */
  lemma SwapToHiraganaComplete(s: seq<CodePoint>)
    ensures |MapEach(KatakanaToHiragana, s)| == |s|
    ensures forall i :: 0 <= i < |s| ==> !InKatakanaRange(MapEach(KatakanaToHiragana, s)[i])
    ensures MapEach(KatakanaToHiragana, MapEach(KatakanaToHiragana, s)) == MapEach(KatakanaToHiragana, s)
  {
  }

  // ---------------------------------------------------------------------
  // Script classification

  /** Runes IsHiragana and IsKatakana disregard: the ASCII space, the
      ideographic space U+3000 and the prolonged sound mark ー (U+30FC). */
  const KanaSeparators: set<CodePoint> := {0x0020, 0x3000, 0x30FC}

  /** Runes IsKanji disregards: the ASCII space and the ideographic space. */
  const KanjiSeparators: set<CodePoint> := {0x0020, 0x3000}

  /** Keeps the runes that are not separators. */
  function NotIn(separators: set<CodePoint>): CodePoint -> bool
  {
    r => r !in separators
  }

  /** The string with every separator rune deleted (the package's
      sanitising replacers). */
  function Sanitize(s: seq<CodePoint>, separators: set<CodePoint>): (t: seq<CodePoint>)
    ensures forall x :: x in t <==> x in s && x !in separators
  {
    FilterMembers(NotIn(separators), s);
    Filter(NotIn(separators), s)
  }

  /** What IsHiragana, IsKatakana and IsKanji compute: something is left
      after deleting the separators, and every rune left is in the script. */
  predicate OfScript(s: seq<CodePoint>, separators: set<CodePoint>, inScript: CodePoint -> bool)
  {
    var t := Sanitize(s, separators);
    t != [] && All(inScript, t)
  }

  /** The same, stated over the positions of the original string. */
  lemma OfScriptIff(s: seq<CodePoint>, separators: set<CodePoint>, inScript: CodePoint -> bool)
    ensures OfScript(s, separators, inScript) <==>
      (exists i :: 0 <= i < |s| && s[i] !in separators) &&
      (forall i :: 0 <= i < |s| && s[i] !in separators ==> inScript(s[i]))
  {
    FilterEmptyIff(NotIn(separators), s);
    FilterAllIff(NotIn(separators), inScript, s);
  }

  /** The loop shared by IsHiragana, IsKatakana and IsKanji: sanitise, give
      up on an empty result, then stop at the first rune outside the script. */
  method AllOfScript(s: seq<CodePoint>, separators: set<CodePoint>, inScript: CodePoint -> bool)
    returns (b: bool)
    ensures b == OfScript(s, separators, inScript)
  {
    var t := Sanitize(s, separators);
    if t == [] {
      return false;
    }
    for i := 0 to |t|
      invariant All(inScript, t) == All(inScript, t[i..])
    {
      assert t[i..][1..] == t[i + 1..];
      if !inScript(t[i]) {
        return false;
      }
    }
    return true;
  }

  /** The loop shared by the Contains functions: stop at the first rune in
      the script. */
  method AnyOfScript(s: seq<CodePoint>, inScript: CodePoint -> bool) returns (b: bool)
    ensures b == Any(inScript, s)
  {
    for i := 0 to |s|
      invariant Any(inScript, s) == Any(inScript, s[i..])
    {
      assert s[i..][1..] == s[i + 1..];
      if inScript(s[i]) {
        return true;
      }
    }
    return false;
  }

  method IsKatakana(s: seq<CodePoint>, tables: ScriptTables) returns (b: bool)
    ensures b == OfScript(s, KanaSeparators, tables.katakana)
    ensures b <==>
      (exists i :: 0 <= i < |s| && s[i] !in KanaSeparators) &&
      (forall i :: 0 <= i < |s| && s[i] !in KanaSeparators ==> tables.katakana(s[i]))
  {
    b := AllOfScript(s, KanaSeparators, tables.katakana);
    OfScriptIff(s, KanaSeparators, tables.katakana);
  }

  method IsHiragana(s: seq<CodePoint>, tables: ScriptTables) returns (b: bool)
    ensures b == OfScript(s, KanaSeparators, tables.hiragana)
    ensures b <==>
      (exists i :: 0 <= i < |s| && s[i] !in KanaSeparators) &&
      (forall i :: 0 <= i < |s| && s[i] !in KanaSeparators ==> tables.hiragana(s[i]))
  {
    b := AllOfScript(s, KanaSeparators, tables.hiragana);
    OfScriptIff(s, KanaSeparators, tables.hiragana);
  }

  method IsKanji(s: seq<CodePoint>, tables: ScriptTables) returns (b: bool)
    ensures b == OfScript(s, KanjiSeparators, tables.han)
    ensures b <==>
      (exists i :: 0 <= i < |s| && s[i] !in KanjiSeparators) &&
      (forall i :: 0 <= i < |s| && s[i] !in KanjiSeparators ==> tables.han(s[i]))
  {
    b := AllOfScript(s, KanjiSeparators, tables.han);
    OfScriptIff(s, KanjiSeparators, tables.han);
  }

  method ContainsKatakana(s: seq<CodePoint>, tables: ScriptTables) returns (b: bool)
    ensures b == Any(tables.katakana, s)
    ensures b <==> exists i :: 0 <= i < |s| && tables.katakana(s[i])
  {
    b := AnyOfScript(s, tables.katakana);
    AnyIff(tables.katakana, s);
  }

  method ContainsHiragana(s: seq<CodePoint>, tables: ScriptTables) returns (b: bool)
    ensures b == Any(tables.hiragana, s)
    ensures b <==> exists i :: 0 <= i < |s| && tables.hiragana(s[i])
  {
    b := AnyOfScript(s, tables.hiragana);
    AnyIff(tables.hiragana, s);
  }

  method ContainsKanji(s: seq<CodePoint>, tables: ScriptTables) returns (b: bool)
    ensures b == Any(tables.han, s)
    ensures b <==> exists i :: 0 <= i < |s| && tables.han(s[i])
  {
    b := AnyOfScript(s, tables.han);
    AnyIff(tables.han, s);
  }

  /** Every Han rune of `s` as a one-rune string, in order of appearance,
      repeats included; the empty sequence when there is none. */
  method ExtractKanji(s: seq<CodePoint>, tables: ScriptTables) returns (k: seq<seq<CodePoint>>)
    ensures |k| == |Filter(tables.han, s)| == |IndicesWhere(tables.han, s)|
    ensures forall j :: 0 <= j < |k| ==> k[j] == [Filter(tables.han, s)[j]]
    ensures k == [] <==> forall i :: 0 <= i < |s| ==> !tables.han(s[i])
  {
    k := [];
    for i := 0 to |s|
      invariant |k| == |Filter(tables.han, s[..i])|
      invariant forall j :: 0 <= j < |k| ==> k[j] == [Filter(tables.han, s[..i])[j]]
    {
      assert s[..i + 1] == s[..i] + [s[i]];
      FilterAppend(tables.han, s[..i], [s[i]]);
      if tables.han(s[i]) {
        k := k + [[s[i]]];
      }
    }
    assert s[..|s|] == s;
    FilterLength(tables.han, s);
    FilterEmptyIff(tables.han, s);
  }

  // ---------------------------------------------------------------------
  // Relations between the classification functions

  /** A string made only of spaces (the empty string included) is in no
      script for IsHiragana, IsKatakana or IsKanji. */
  lemma BlankIsNoScript(s: seq<CodePoint>, tables: ScriptTables)
    requires forall i :: 0 <= i < |s| ==> s[i] in KanjiSeparators
    ensures !OfScript(s, KanaSeparators, tables.hiragana)
    ensures !OfScript(s, KanaSeparators, tables.katakana)
    ensures !OfScript(s, KanjiSeparators, tables.han)
  {
    OfScriptIff(s, KanaSeparators, tables.hiragana);
    OfScriptIff(s, KanaSeparators, tables.katakana);
    OfScriptIff(s, KanjiSeparators, tables.han);
  }

  /** Sanitising only deletes runes, so a string wholly in a script also
      contains a rune of that script. */
  lemma {:induction false} OfScriptImpliesAny(s: seq<CodePoint>, separators: set<CodePoint>, inScript: CodePoint -> bool)
    requires OfScript(s, separators, inScript)
    ensures Any(inScript, s)
  {
    var t := Sanitize(s, separators);
    assert t[0] in t;
    assert All(inScript, t);
    assert inScript(t[0]);
    var i :| 0 <= i < |s| && s[i] == t[0];
    AnyIff(inScript, s);
  }

  /** IsX(s) implies ContainsX(s) for the three scripts. */
  lemma IsImpliesContains(s: seq<CodePoint>, tables: ScriptTables)
    ensures OfScript(s, KanaSeparators, tables.hiragana) ==> Any(tables.hiragana, s)
    ensures OfScript(s, KanaSeparators, tables.katakana) ==> Any(tables.katakana, s)
    ensures OfScript(s, KanjiSeparators, tables.han) ==> Any(tables.han, s)
  {
    if OfScript(s, KanaSeparators, tables.hiragana) {
      OfScriptImpliesAny(s, KanaSeparators, tables.hiragana);
    }
    if OfScript(s, KanaSeparators, tables.katakana) {
      OfScriptImpliesAny(s, KanaSeparators, tables.katakana);
    }
    if OfScript(s, KanjiSeparators, tables.han) {
      OfScriptImpliesAny(s, KanjiSeparators, tables.han);
    }
  }
}

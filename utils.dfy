/**
 * The helpers of the application's utility module: the product-title cleaner, the rating
 * normaliser, the scrapers' 100-point rescale, and the forgiving number parsers that read
 * values out of decoded JSON.
 */
module Utils {
  import opened Wrappers
  import opened Text
  import opened Patterns
  import opened Schemas

  // ---------------------------------------------------------------------------
  // Product titles

  /** The alternatives of the weight pattern `\d+\s*(g|kg|ml|l|리터|그램|킬로그램)\b`. */
  const WeightUnits: seq<string> := ["g", "kg", "ml", "l", "리터", "그램", "킬로그램"]

  /** The alternatives of the count pattern `\d+\s*(개|봉|입|팩|박스|x)\b`. */
  const CountUnits: seq<string> := ["개", "봉", "입", "팩", "박스", "x"]

  /** The five `re.sub` deletions of `clean_product_name`, before its whitespace clean-up. */
  function DropTokens(name: string): string {
    var noWeight := Delete(Quantity(WeightUnits), name);
    var noCount := Delete(Quantity(CountUnits), noWeight);
    var noTimes := Delete(Times, noCount);
    var noParens := Delete(Group('(', ')'), noTimes);
    Delete(Group('[', ']'), noParens)
  }

  /**
   * `clean_product_name`: drop weights, counts, `x<n>` multipliers, parenthesised and
   * bracketed groups, in that order, then collapse whitespace and strip.
   */
  function CleanProductName(name: string): string {
    Squeeze(DropTokens(name))
  }

  lemma DropTokensShrinks(name: string)
    ensures |DropTokens(name)| <= |name|
    ensures forall c | c in DropTokens(name) :: c in name
  {
    var noWeight := Delete(Quantity(WeightUnits), name);
    var noCount := Delete(Quantity(CountUnits), noWeight);
    var noTimes := Delete(Times, noCount);
    var noParens := Delete(Group('(', ')'), noTimes);
    DeleteShrinks(Quantity(WeightUnits), name);
    DeleteShrinks(Quantity(CountUnits), noWeight);
    DeleteShrinks(Times, noCount);
    DeleteShrinks(Group('(', ')'), noTimes);
    DeleteShrinks(Group('[', ']'), noParens);
  }

  lemma DropTokensGroups(name: string)
    ensures NoCloseAfterOpen(DropTokens(name), '(', ')')
    ensures NoCloseAfterOpen(DropTokens(name), '[', ']')
  {
    var noWeight := Delete(Quantity(WeightUnits), name);
    var noCount := Delete(Quantity(CountUnits), noWeight);
    var noTimes := Delete(Times, noCount);
    var noParens := Delete(Group('(', ')'), noTimes);
    DeleteGroupClean(noTimes, '(', ')');
    DeleteKeepsNoCloseAfterOpen(Group('[', ']'), noParens, '(', ')');
    DeleteGroupClean(noParens, '[', ']');
  }

  lemma CleanProductNameShape(name: string)
    ensures Tidy(CleanProductName(name))
    ensures |CleanProductName(name)| <= |name|
    ensures CharsFrom(CleanProductName(name), name)
  {
    var t := DropTokens(name);
    DropTokensShrinks(name);
    SqueezeFacts(t);
    forall c | c in Squeeze(t) ensures c in name || c == ' ' {
      assert c in t || c == ' ';
    }
  }

  lemma CleanProductNameGroups(name: string)
    ensures NoCloseAfterOpen(CleanProductName(name), '(', ')')
    ensures NoCloseAfterOpen(CleanProductName(name), '[', ']')
  {
    DropTokensGroups(name);
    SqueezeKeepsNoCloseAfterOpen(DropTokens(name), '(', ')');
    SqueezeKeepsNoCloseAfterOpen(DropTokens(name), '[', ']');
  }

  /**
   * What the cleaner promises: tidy whitespace, never longer, no character that was not in
   * the title (but a space), and no `(` or `[` left with a closing partner after it.
   */
  lemma CleanProductNameFacts(name: string)
    ensures Tidy(CleanProductName(name))
    ensures |CleanProductName(name)| <= |name|
    ensures CharsFrom(CleanProductName(name), name)
    ensures NoCloseAfterOpen(CleanProductName(name), '(', ')')
    ensures NoCloseAfterOpen(CleanProductName(name), '[', ']')
  {
    CleanProductNameShape(name);
    CleanProductNameGroups(name);
  }

  // ---------------------------------------------------------------------------
  // Which tokens the cleaner removes

  /** A lower-case ASCII letter or a Hangul syllable. */
  predicate UnitLetter(c: char) {
    ('a' <= c <= 'z') || ('\U{AC00}' <= c <= '\U{D7A3}')
  }

  lemma UnitLetterFacts(c: char)
    requires UnitLetter(c)
    ensures IsWordChar(c) && LowerChar(c) == c && !IsDigit(c) && !IsSpace(c)
  {
  }

  /** A non-empty run of such letters is a unit as the patterns spell it, with no digit in it. */
  lemma UnitWordOfLetters(u: string)
    requires u != [] && forall k | 0 <= k < |u| :: UnitLetter(u[k])
    ensures UnitWord(u) && NoDigits(u)
  {
    forall k | 0 <= k < |u| ensures IsWordChar(u[k]) && LowerChar(u[k]) == u[k] && !IsDigit(u[k]) {
      UnitLetterFacts(u[k]);
    }
    UnitLetterFacts(u[0]);
  }

  /** Every alternative of the weight pattern is a lower-case word starting with a letter. */
  lemma WeightUnitWords()
    ensures forall i | 0 <= i < |WeightUnits| :: UnitWord(WeightUnits[i])
  {
    forall i | 0 <= i < |WeightUnits| ensures UnitWord(WeightUnits[i]) {
      UnitWordOfLetters(WeightUnits[i]);
    }
  }

  /** Every alternative of the count pattern is such a word too, without digits. */
  lemma CountUnitWords()
    ensures forall i | 0 <= i < |CountUnits| :: UnitWord(CountUnits[i]) && NoDigits(CountUnits[i])
  {
    forall i | 0 <= i < |CountUnits| ensures UnitWord(CountUnits[i]) && NoDigits(CountUnits[i]) {
      UnitWordOfLetters(CountUnits[i]);
    }
  }

  /** No weight alternative starts the way a count alternative does. */
  lemma CountUnitsAvoidWeights(u: string)
    requires u in CountUnits
    ensures u != [] && forall i | 0 <= i < |WeightUnits| :: WeightUnits[i][0] != u[0]
  {
  }

  /** A digit-free title passes the weight, count and `x<n>` deletions untouched. */
  lemma DropTokensDigitFree(t: string)
    requires NoDigits(t)
    ensures DropTokens(t) == Delete(Group('[', ']'), Delete(Group('(', ')'), t))
  {
    DeleteDigitFree(Quantity(WeightUnits), t);
    DeleteDigitFree(Quantity(CountUnits), t);
    DeleteDigitFree(Times, t);
  }

  /** A digit-free title with one space after it. */
  lemma NoDigitsSpace(t: string)
    requires NoDigits(t)
    ensures NoDigits(t + [' '])
  {
    assert forall k | 0 <= k < |t| :: (t + [' '])[k] == t[k];
  }

  /**
   * When the first three deletions leave `t` and a space of `s`, the cleaner gives for `s`
   * what it gives for `t`: the group deletions and the clean-up do not see the space.
   */
  lemma CleanAfterTail(t: string, s: string)
    requires NoDigits(t)
    requires Delete(Times, Delete(Quantity(CountUnits), Delete(Quantity(WeightUnits), s))) == t + [' ']
    ensures CleanProductName(s) == CleanProductName(t)
  {
    DropTokensDigitFree(t);
    var parens := Delete(Group('(', ')'), t);
    GroupAppendSpace('(', ')', t);
    GroupAppendSpace('[', ']', parens);
    SqueezeAppendSpace(DropTokens(t));
  }

  /** `clean_product_name` removes a weight such as "120g" at the end of a digit-free title. */
  lemma CleanDropsWeight(t: string, n: nat, u: string)
    requires NoDigits(t) && u in WeightUnits
    ensures CleanProductName(t + " " + NatText(n) + u) == CleanProductName(t)
  {
    var d := NatText(n);
    var s := t + [' '] + d + u;
    WeightUnitWords();
    QuantityDropsTail(WeightUnits, t, d, u);
    NoDigitsSpace(t);
    DeleteDigitFree(Quantity(CountUnits), t + [' ']);
    DeleteDigitFree(Times, t + [' ']);
    CleanAfterTail(t, s);
  }

  /** It removes a count such as "5개" at the end of a digit-free title. */
  lemma CleanDropsCount(t: string, n: nat, u: string)
    requires NoDigits(t) && u in CountUnits
    ensures CleanProductName(t + " " + NatText(n) + u) == CleanProductName(t)
  {
    var d := NatText(n);
    var s := t + [' '] + d + u;
    CountUnitWords();
    CountUnitsAvoidWeights(u);
    QuantityKeepsOtherUnit(WeightUnits, t, d, u);
    QuantityDropsTail(CountUnits, t, d, u);
    NoDigitsSpace(t);
    DeleteDigitFree(Times, t + [' ']);
    CleanAfterTail(t, s);
  }

  /** It removes a multiplier such as "x5" at the end of a digit-free title. */
  lemma CleanDropsTimes(t: string, n: nat)
    requires NoDigits(t)
    ensures CleanProductName(t + " x" + NatText(n)) == CleanProductName(t)
  {
    var d := NatText(n);
    var s := t + [' ', 'x'] + d;
    QuantityKeepsTimes(WeightUnits, t, d);
    QuantityKeepsTimes(CountUnits, t, d);
    TimesDropsTail(t, d);
    CleanAfterTail(t, s);
  }

  /** A single word without digits, whitespace or an opening bracket is already clean. */
  lemma CleanPlainWord(t: string)
    requires t != [] && NoDigits(t) && '(' !in t && '[' !in t
    requires forall k | 0 <= k < |t| :: !IsSpace(t[k])
    ensures CleanProductName(t) == t
  {
    DropTokensDigitFree(t);
    GroupAbsent('(', ')', t);
    GroupAbsent('[', ']', t);
    CollapseWord(t, |t|);
    assert t[..|t|] == t && t[|t|..] == [];
    StripBare(t);
  }

  /** The cleaner's own example: "신라면 120g" becomes "신라면". */
  lemma CleanRamenWeight()
    ensures CleanProductName("신라면 120g") == "신라면"
  {
    RamenLayout();
    CleanDropsWeight("신라면", 120, "g");
    CleanPlainWord("신라면");
  }

  lemma RamenLayout()
    ensures "신라면 120g" == "신라면" + " " + NatText(120) + "g"
    ensures NoDigits("신라면") && '(' !in "신라면" && '[' !in "신라면"
    ensures forall k | 0 <= k < |"신라면"| :: !IsSpace("신라면"[k])
  {
    assert NatText(1) == "1";
    assert NatText(12) == "12";
    assert NatText(120) == "120";
  }

  // ---------------------------------------------------------------------------
  // Ratings

  /** `min(max(x, 0.0), 5.0)` */
  function ClampRating(x: real): (r: Rating)
    ensures 0.0 <= x <= 5.0 ==> r == x
    ensures x < 0.0 ==> r == 0.0
    ensures x > 5.0 ==> r == 5.0
  {
    if x < 0.0 then 0.0 else if x > 5.0 then 5.0 else x
  }

  /**
   * `normalize_rating(rating, max_rating)`: rescale from a `max_rating` scale to the 5-point
   * scale (unless `max_rating` is already 5), then clamp into [0, 5]. The caller must not pass
   * a zero scale: the division would raise.
   */
  function NormalizeRating(rating: Option<real>, maxRating: real): (r: Option<Rating>)
    requires maxRating != 0.0
  {
    match rating
    case None => None
    case Some(x) =>
      var scaled := if maxRating != 5.0 then x / maxRating * 5.0 else x;
      Some(ClampRating(scaled))
  }

  /**
   * Absent stays absent; a rating already on the 5-point scale comes back unchanged; any
   * other rating is proportional to its share of the scale, then clamped.
   */
  lemma NormalizeRatingMeaning(rating: Option<real>, maxRating: real)
    requires maxRating != 0.0
    ensures NormalizeRating(rating, maxRating).None? <==> rating.None?
    ensures rating.Some? && maxRating == 5.0 && 0.0 <= rating.value <= 5.0 ==>
      NormalizeRating(rating, maxRating) == Some(rating.value)
    ensures rating.Some? && maxRating > 0.0 && 0.0 <= rating.value <= maxRating ==>
      NormalizeRating(rating, maxRating).value * maxRating == rating.value * 5.0
    ensures rating.Some? && maxRating > 0.0 && rating.value > maxRating ==>
      NormalizeRating(rating, maxRating) == Some(5.0)
    ensures rating.Some? && maxRating > 0.0 && rating.value < 0.0 ==>
      NormalizeRating(rating, maxRating) == Some(0.0)
  {
    if rating.Some? && maxRating > 0.0 {
      var x := rating.value;
      if maxRating != 5.0 {
        var scaled := x / maxRating * 5.0;
        assert scaled * maxRating == x * 5.0;
        if 0.0 <= x <= maxRating {
          assert 0.0 <= scaled <= 5.0 by {
            assert x / maxRating <= 1.0;
          }
        }
        if x > maxRating {
          assert x / maxRating > 1.0;
        }
        if x < 0.0 {
          assert x / maxRating < 0.0;
        }
      }
    }
  }

  /**
   * The scrapers' inline rescale: a value above 5 is read as a 100-point score and divided
   * by 20, then the value is clamped into [0, 5].
   */
  function RescaleScrapedRating(val: real): (r: Rating)
    ensures 0.0 <= val <= 5.0 ==> r == val
    ensures 5.0 < val <= 100.0 ==> r * 20.0 == val
    ensures val > 100.0 ==> r == 5.0
    ensures val < 0.0 ==> r == 0.0
  {
    var v := if val > 5.0 then val / 20.0 else val;
    ClampRating(v)
  }

  // ---------------------------------------------------------------------------
  // Numbers out of JSON

  /** A decoded JSON value, as the parsers receive it. */
  datatype JsonValue =
    | JNull
    | JBool(b: bool)
    | JInt(i: int)
    | JFloat(f: real)
    | JStr(s: string)
    | JList(items: seq<JsonValue>)
    | JObject(fields: map<string, JsonValue>)

  /** `s.replace(',', '')` */
  function RemoveCommas(s: string): (r: string)
    ensures ',' !in r
  {
    if s == [] then [] else (if s[0] == ',' then [] else [s[0]]) + RemoveCommas(s[1..])
  }

  lemma {:induction false} RemoveCommasAppend(a: string, b: string)
    ensures RemoveCommas(a + b) == RemoveCommas(a) + RemoveCommas(b)
    decreases |a|
  {
    if a == [] {
      assert a + b == b;
    } else {
      RemoveCommasAppend(a[1..], b);
      StringConsConcat(a, b);
      var head := if a[0] == ',' then [] else [a[0]];
      ConcatAssoc(head, RemoveCommas(a[1..]), RemoveCommas(b));
    }
  }

  lemma StringConsConcat(a: string, b: string)
    requires a != []
    ensures (a + b)[0] == a[0] && (a + b)[1..] == a[1..] + b
  {
  }

  function DigitValue(c: char): nat
    requires IsDigit(c)
  {
    c as int - '0' as int
  }

  /** The number a run of decimal digits denotes. */
  function DigitsValue(s: string): nat
    requires AllDigits(s)
  {
    if s == [] then 0 else 10 * DigitsValue(s[..|s| - 1]) + DigitValue(s[|s| - 1])
  }

  function Pow10(n: nat): (r: nat)
    ensures r >= 1
  {
    if n == 0 then 1 else 10 * Pow10(n - 1)
  }

  /** `digits`, `digits.`, `digits.digits` or `.digits`, with no sign. */
  function ParseUnsigned(t: string): (r: Option<real>)
    ensures r.Some? ==> r.value >= 0.0
  {
    var n := DigitsEnd(t, 0);
    var whole := t[..n];
    if n == |t| then
      if n == 0 then None else Some(DigitsValue(whole) as real)
    else if t[n] == '.' && AllDigits(t[n + 1..]) && (n > 0 || n + 1 < |t|) then
      var frac := t[n + 1..];
      Some(DigitsValue(whole) as real + DigitsValue(frac) as real / Pow10(|frac|) as real)
    else None
  }

  /**
   * `float(t)` for an already stripped string, over the decimal forms: an optional sign and
   * an unsigned decimal.
   */
  function ParseFloat(t: string): Option<real> {
    if t != [] && (t[0] == '+' || t[0] == '-') then
      match ParseUnsigned(t[1..])
      case Some(x) => Some(if t[0] == '-' then -x else x)
      case None => None
    else ParseUnsigned(t)
  }

  /** `int(x)` for a float: truncation toward zero. */
  function Truncate(x: real): (i: int)
    ensures 0.0 <= x ==> 0 <= i && i as real <= x < i as real + 1.0
    ensures x <= 0.0 ==> i <= 0 && i as real - 1.0 < x <= i as real
  {
    if x >= 0.0 then x.Floor else -((-x).Floor)
  }

  /**
   * `safe_float(value)`: `None` for `None`; a string loses its commas and surrounding
   * whitespace before `float()`; numbers and booleans convert; anything that `float()`
   * refuses gives `None`.
   */
  function SafeFloat(value: JsonValue): Option<real> {
    match value
    case JNull => None
    case JStr(s) => ParseFloat(Strip(RemoveCommas(s)))
    case JInt(i) => Some(i as real)
    case JFloat(f) => Some(f)
    case JBool(b) => Some(if b then 1.0 else 0.0)
    case JList(_) => None
    case JObject(_) => None
  }

  /** `safe_int(value)`: `int(float(...))` after the same clean-up. */
  function SafeInt(value: JsonValue): Option<int> {
    match SafeFloat(value)
    case Some(x) => Some(Truncate(x))
    case None => None
  }

  /** `safe_int` succeeds exactly when `safe_float` does, and then drops the fraction toward zero. */
  lemma SafeIntTruncatesSafeFloat(value: JsonValue)
    ensures SafeInt(value).Some? <==> SafeFloat(value).Some?
    ensures SafeInt(value).Some? ==>
      var i, x := SafeInt(value).value as real, SafeFloat(value).value;
      (x >= 0.0 ==> 0.0 <= i <= x < i + 1.0) && (x <= 0.0 ==> i - 1.0 < x <= i <= 0.0)
  {
  }

  lemma RemoveCommasSkipsComma(a: string, b: string)
    ensures RemoveCommas(a + "," + b) == RemoveCommas(a + b)
  {
    var cb := "," + b;
    assert a + "," + b == a + cb;
    assert cb[0] == ',' && cb[1..] == b;
    assert RemoveCommas(cb) == RemoveCommas(b);
    RemoveCommasAppend(a, cb);
    RemoveCommasAppend(a, b);
  }

  /** A comma anywhere in a numeric string is ignored, as a thousands separator would be. */
  lemma CommaIgnored(a: string, b: string)
    ensures SafeFloat(JStr(a + "," + b)) == SafeFloat(JStr(a + b))
    ensures SafeInt(JStr(a + "," + b)) == SafeInt(JStr(a + b))
  {
    RemoveCommasSkipsComma(a, b);
  }

  /** The decimal digits of `n`, most significant first. */
  function NatText(n: nat): (t: string)
    ensures t != [] && AllDigits(t)
  {
    var d := ['0' + (n % 10) as char];
    if n < 10 then d else NatText(n / 10) + d
  }

  lemma {:induction false} NatTextValue(n: nat)
    ensures DigitsValue(NatText(n)) == n
  {
    var t := NatText(n);
    if n >= 10 {
      NatTextValue(n / 10);
      assert t[..|t| - 1] == NatText(n / 10);
    }
  }

  lemma NoCommasIn(t: string)
    requires ',' !in t
    ensures RemoveCommas(t) == t
  {
    if t != [] {
      assert t[0] in t;
      NoCommasIn(t[1..]);
    }
  }

  /** A text with no comma and no whitespace at either end is already clean. */
  lemma CleanAlready(t: string)
    requires ',' !in t && t != [] && !IsSpace(t[0]) && !IsSpace(t[|t| - 1])
    ensures Strip(RemoveCommas(t)) == t
  {
    NoCommasIn(t);
    StripUnpadded(t);
  }

  /** The leading digit run of `t` is exactly its first `n` characters. */
  lemma DigitsPrefixEnd(t: string, n: nat)
    requires n <= |t| && forall k | 0 <= k < n :: IsDigit(t[k])
    requires n < |t| ==> !IsDigit(t[n])
    ensures DigitsEnd(t, 0) == n
  {
  }

  lemma DigitsHaveNoComma(t: string)
    requires AllDigits(t)
    ensures ',' !in t
  {
    forall k | 0 <= k < |t| ensures t[k] != ',' {
      assert IsDigit(t[k]);
    }
  }

  /** Reading back the decimal text of any natural number gives that number. */
  lemma SafeIntReadsDecimal(n: nat)
    ensures SafeFloat(JStr(NatText(n))) == Some(n as real)
    ensures SafeInt(JStr(NatText(n))) == Some(n)
  {
    var t := NatText(n);
    DigitsHaveNoComma(t);
    assert IsDigit(t[0]) && IsDigit(t[|t| - 1]);
    CleanAlready(t);
    DigitsPrefixEnd(t, |t|);
    assert t[..|t|] == t;
    NatTextValue(n);
    assert ParseFloat(t) == ParseUnsigned(t);
  }

  /** The values the parsers refuse: nothing, containers, and the empty text. */
  lemma SafeIntRefusals()
    ensures SafeInt(JNull) == None
    ensures SafeInt(JList([])) == None
    ensures SafeInt(JObject(map[])) == None
    ensures SafeInt(JStr("")) == None
  {
    assert RemoveCommas("") == "";
    assert Strip("") == "";
  }

  /** A text whose first character cannot start a number reads as no number. */
  lemma SafeIntRefusesText(t: string)
    requires t != [] && !IsDigit(t[0]) && !IsSpace(t[0])
    requires t[0] != ',' && t[0] != '.' && t[0] != '+' && t[0] != '-'
    ensures SafeFloat(JStr(t)) == None
    ensures SafeInt(JStr(t)) == None
  {
    var c := RemoveCommas(t);
    assert c == [t[0]] + RemoveCommas(t[1..]);
    assert DropSpaces(c) == c;
    var r := DropTrailingSpaces(c);
    DropTrailingDropsSpaces(c);
    assert r != [];
    assert r[0] == t[0];
    DigitsPrefixEnd(r, 0);
    assert ParseFloat(r) == ParseUnsigned(r) == None;
  }

  /** Two texts that clean up to the same string read as the same number. */
  lemma SameCleanText(x: string, y: string)
    requires Strip(RemoveCommas(x)) == Strip(RemoveCommas(y))
    ensures SafeFloat(JStr(x)) == SafeFloat(JStr(y))
    ensures SafeInt(JStr(x)) == SafeInt(JStr(y))
  {
  }

  lemma StripUnpadded(t: string)
    requires t != [] && !IsSpace(t[0]) && !IsSpace(t[|t| - 1])
    ensures Strip(t) == t
  {
    assert DropSpaces(t) == t;
    assert DropTrailingSpaces(t) == t;
  }
}

/**
 * `normalize_product_name`: the canonical form of a product title that the matcher compares.
 * The title is lowercased, each brand token of a fixed list is deleted as a whole word, the
 * title cleaner runs, and the result is lowercased and whitespace-tidied once more.
 */
module Normalize {
  import opened Text
  import opened Patterns
  import opened Utils

  /** The brand patterns `\b농심\b`, `\b오뚜기\b`, ..., deleted in this order. */
  const BrandTokens: seq<string> :=
    ["농심", "오뚜기", "삼양", "팔도", "nongshim", "ottogi", "samyang", "paldo"]

  /** The lowercased title with every brand token deleted in turn. */
  function StripBrands(lowered: string): string {
    DeleteWords(BrandTokens, lowered)
  }

  /** What `normalize_product_name(name)` returns. */
  function NormalizedName(name: string): string {
    Squeeze(Lower(CleanProductName(StripBrands(Lower(name)))))
  }

  /** `normalize_product_name`, with its loop over the brand patterns. */
  method NormalizeProductName(name: string) returns (r: string)
    ensures r == NormalizedName(name)
  {
    var lowered := Lower(name);
    r := lowered;
    var i := 0;
    while i < |BrandTokens|
      invariant 0 <= i <= |BrandTokens|
      invariant DeleteWords(BrandTokens[i..], r) == StripBrands(lowered)
    {
      assert BrandTokens[i..][1..] == BrandTokens[i + 1..];
      r := Delete(Word(BrandTokens[i]), r);
      i := i + 1;
    }
    r := CleanProductName(r);
    r := Lower(r);
    r := Squeeze(r);
  }

  lemma BrandTokensAreWords()
    ensures forall w | w in BrandTokens :: AllWordChars(w) && w != []
  {
  }

  /** After the brand loop, no brand token is left as a whole word. */
  lemma StripBrandsRemovesBrands(lowered: string)
    ensures forall v | v in BrandTokens :: NoWholeWord(StripBrands(lowered), v, false)
  {
    BrandTokensAreWords();
    DeleteWordsRemovesAll(BrandTokens, lowered);
  }

  lemma TidyLowered(t: string)
    requires AllLower(t)
    ensures AllLower(Squeeze(t)) && Tidy(Squeeze(t)) && |Squeeze(t)| <= |t|
  {
    SqueezeFacts(t);
    var r := Squeeze(t);
    forall i | 0 <= i < |r| ensures IsLower(r[i]) {
      assert r[i] in r;
      if r[i] != ' ' {
        var j :| 0 <= j < |t| && t[j] == r[i];
      }
    }
  }

  /**
   * The normalised name is lowercase, has no two whitespace characters in a row and none
   * at either end, and is never longer than the title.
   */
  lemma NormalizedNameFacts(name: string)
    ensures AllLower(NormalizedName(name))
    ensures Tidy(NormalizedName(name))
    ensures |NormalizedName(name)| <= |name|
  {
    var stripped := StripBrands(Lower(name));
    DeleteWordsShrinks(BrandTokens, Lower(name));
    CleanProductNameFacts(stripped);
    var lowered := Lower(CleanProductName(stripped));
    LowerIsLower(CleanProductName(stripped));
    TidyLowered(lowered);
  }
}

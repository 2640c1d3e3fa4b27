# Product comparison core in Dafny

This project models the deterministic core of a ramen-price comparison service. The service
scrapes product offers for two products and picks the best-matching offer for each. It then
compares the two picks and attaches a short rule-based summary to each product.

The model covers these parts:

- **Records** (`schemas.dfy`): the pydantic records. Field bounds are subset types: a rating
  lies in [0,5], a review count is a `nat` and a percentage lies in [0,100]. Defaults are plain
  constructor functions. A value built from unchecked input goes through a validation function
  that returns an error on an out-of-range field.
- **Text** (`text.dfy`, `patterns.dfy`): the Python string methods and regular expressions the
  code uses. This covers `lower`, `strip`, `split` and `in`. It also covers `re.sub` for the
  weight, count, multiplier, bracket and whole-word patterns, scanned left to right as `re.sub`
  scans.
- **Helpers** (`utils.dfy`): the title cleaner, the rating normaliser and the scrapers' 100-point
  rescale. It also has `safe_int` and `safe_float`, working over a `JsonValue` datatype for
  decoded JSON.
- **Matching** (`normalize.dfy`, `matching.dfy`):
  - the title normaliser;
  - the additive match score with its reasons;
  - the stable sort by score;
  - best-offer selection with its warnings.
- **Aggregation** (`aggregate.dfy`): choosing between the DynamoDB cache and scraping, with the
  fetch results passed in. It also assembles the product summary and computes the A − B
  comparison.
- **Cache and rate limiter** (`cache.dfy`):
  - `InMemoryCache` is a class. Its fields are the entry map and the key insertion order, and it
    has expiry on read and eviction of the earliest-expiring entry.
  - `RateLimiter` is a class over a map of last-refresh times.
  - The canonical cache-key record is built before hashing.
- **Fallback summary** (`summarize.dfy`): the rule table for the fallback product summary (its
  20 product rows, the price, rating and review rules, the list limits), and the enrichment of a
  summary with an answer.
- **SerpApi mapping** (`serpapi.dfy`): the mapping from a SerpApi Naver Shopping response to
  offers.

Clock readings (`time.time()`, the fetch timestamp) are parameters. So are the fuzzy-ratio
functions, the scraper and cache results, and the language-model answer.

The code is followed where the repository's tests disagree with it:

- `backend/app/sources/naver_serpapi.py:71` deletes the three-character literal `Ïõê`, not the
  won sign `원`. A price such as "4,500원" therefore reads as no price, while
  tests/test_sources_mock.py:144 expects 4500. `SerpApi.WonSignKeepsPriceUnread` and
  `SerpApi.MisreadSignDropped` state both readings of the price text, and
  `SerpApi.WonPricedOfferUnpriced` and `SerpApi.MisreadPricedOfferPriced` state them for the
  offer's `price_krw`.
- `\w` covers Hangul, so `\d+\s*(개|...)\b` does not match the "5개" inside "5개입". The
  cleaner keeps that text, while tests/test_normalize.py:67-71 expects it removed.
- `CompareRequest.sources` defaults to `["danawa"]` (backend/app/schemas.py:13-16), not to the
  two sources tests/test_schemas.py:69 expects.

## Model

| member | source | states |
|---|---|---|
| Text.Lower | backend/app/normalize.py:30 | the lowered string has the same length, and each character is the lowered character at the same position |
| Text.LowerIsLower | backend/app/normalize.py:44 | lowering yields a string in which every character is already lowercase |
| Text.DropSpaces | backend/app/utils.py:35 | removing leading whitespace leaves a suffix of the input that is empty or starts with a non-space (that only whitespace goes is `Text.DropSpacesDropsSpaces`) |
| Text.DropSpacesDropsSpaces | backend/app/utils.py:35 | every character `lstrip()` removes from the front is whitespace, so with `DropSpaces` the result is exactly the input after its leading whitespace run |
| Text.DropTrailingSpaces | backend/app/utils.py:35 | removing trailing whitespace leaves a prefix of the input that is empty or ends with a non-space (that only whitespace goes is `Text.DropTrailingDropsSpaces`) |
| Text.DropTrailingDropsSpaces | backend/app/utils.py:35 | every character `rstrip()` removes from the back is whitespace, so with `DropTrailingSpaces` the result is exactly the input before its trailing whitespace run |
| Text.StripFacts | backend/app/utils.py:35 | `strip()` never lengthens a string and adds no character; on a single-spaced string it leaves no whitespace at either end |
| Text.CollapseSpacesFacts | backend/app/utils.py:35 | `re.sub(r'\s+', ' ', s)` leaves no two whitespace characters in a row, never lengthens, takes its characters from the input, and keeps whether the text starts with whitespace |
| Text.SqueezeFacts | backend/app/utils.py:35 | collapse-then-strip output has no whitespace run and no whitespace at either end, is never longer, and only adds plain spaces |
| Text.Split | backend/app/normalize.py:82-83 | `str.split()` yields only non-empty words with no whitespace in them |
| Text.SplitJoin | backend/app/normalize.py:82-83 | the words of `str.split()`, joined by single spaces, are exactly the text with every whitespace run made one space and the ends stripped, so the words are the text's maximal non-whitespace runs in order |
| Text.WordLength | backend/app/normalize.py:82-83 | the first word runs exactly up to the first whitespace character |
| Text.SqueezeAppendSpace | backend/app/utils.py:35 | collapsing whitespace and stripping gives the same text with or without one more trailing space |
| Patterns.DigitsEnd | backend/app/utils.py:24 | `\d+` from a position takes the longest run of digits: every character up to the end is a digit and the next is not |
| Patterns.SpacesEnd | backend/app/utils.py:24 | `\s*` takes the longest run of whitespace |
| Patterns.Find | backend/app/utils.py:31 | `[^)]*\)` stops at the first closing character after the start, or there is none |
| Patterns.MatchAt | backend/app/utils.py:24-32 | a match at a position is non-empty and ends inside the string |
| Patterns.DeleteShrinks | backend/app/utils.py:24-32 | each `re.sub(..., '', ...)` deletion never lengthens the text and adds no character |
| Patterns.DeleteGroupClean | backend/app/utils.py:31-32 | after deleting `\([^)]*\)` (or the bracket form) no opening character is followed anywhere later by its closing character |
| Patterns.DeleteKeepsNoCloseAfterOpen | backend/app/utils.py:31-32 | a later deletion cannot bring back an opening-then-closing pair, so the bracket deletion keeps the parenthesis result |
| Patterns.SqueezeKeepsNoCloseAfterOpen | backend/app/utils.py:35 | the whitespace clean-up cannot bring back an opening-then-closing pair |
| Patterns.WordMatchIsWholeWord | backend/app/normalize.py:34-38 | a `\b<word>\b` match at a position happens exactly when the word stands there as a whole word |
| Patterns.NoWordMatchInsideWord | backend/app/normalize.py:34-38 | `\b<word>\b` never matches directly after a word character |
| Patterns.DeleteWordRemovesIt | backend/app/normalize.py:37-38 | after `re.sub(r'\b<word>\b', '', s)` the word no longer stands anywhere as a whole word |
| Patterns.DeleteWordKeepsOthersAbsent | backend/app/normalize.py:37-38 | deleting one whole word never creates a whole-word occurrence of another word |
| Patterns.DeleteWordsRemovesAll | backend/app/normalize.py:37-38 | after the loop over all brand patterns, none of them stands anywhere as a whole word |
| Patterns.DeleteWordsShrinks | backend/app/normalize.py:37-38 | the brand loop never lengthens the title and adds no character |
| Patterns.KeptRange | backend/app/utils.py:24-32 | where the pattern matches at no position of a stretch, `re.sub` copies that stretch unchanged |
| Patterns.DeleteDigitFree | backend/app/utils.py:24-28 | in a text without digits neither a quantity nor `x\s*\d+` matches, so the deletion returns the text |
| Patterns.UnitEndWhole | backend/app/utils.py:24-27 | an alternative that runs to the end of the text is matched whatever its position in the alternation: an earlier, shorter one would end between two word characters, where `\b` fails |
| Patterns.UnitEndNone | backend/app/utils.py:24-27 | when no alternative starts with the character there, the unit group does not match |
| Patterns.QuantityDropsTail | backend/app/utils.py:24-27 | `re.sub` of a quantity pattern on a digit-free text, a space, digits and one of its units leaves the text and the space |
| Patterns.QuantityKeepsOtherUnit | backend/app/utils.py:24-27 | the same text with a unit none of the pattern's alternatives starts like is left whole |
| Patterns.TimesDropsTail | backend/app/utils.py:28 | `re.sub(r'x\s*\d+', '', …)` on a digit-free text, a space, `x` and digits leaves the text and the space |
| Patterns.QuantityKeepsTimes | backend/app/utils.py:24-27 | a quantity pattern finds nothing in such a text: no unit follows the digits |
| Patterns.GroupAppendSpace | backend/app/utils.py:31-32 | a trailing space passes through the group deletion untouched |
| Patterns.GroupAbsent | backend/app/utils.py:31-32 | a text without the opening character is left as it is by the group deletion |
| Schemas.ValidateOffer | backend/app/schemas.py:20-29 | an offer is built if and only if the rating (when given) lies in [0,5] and the review count (when given) is non-negative; the built offer carries exactly the given field values |
| Schemas.RatingSixRejected | backend/app/schemas.py:26 | a rating of 6.0 is refused with the rating error |
| Schemas.ValidateSentiment | backend/app/schemas.py:32-36 | a sentiment is built if and only if all three percentages lie in [0,100], and it carries them unchanged |
| Schemas.ValidateSource | backend/app/schemas.py:13-16 | a source name is admitted if and only if it is "danawa" |
| Schemas.DefaultsPassChecks | backend/app/schemas.py:9-36 | the defaults meet the field constraints: `NewOffer` (every optional field `None`) is exactly what `ValidateOffer` builds with the optional fields absent; `DefaultSentiment` passes the [0,100] checks; `DefaultRequest` has at least one source and each is the one `ValidateSource` admits |
| Schemas.NewResponseDefaults | backend/app/schemas.py:59-66 | `NewResponse` keeps the given id, summaries and comparison, with no warnings and not cached |
| Utils.DropTokensShrinks | backend/app/utils.py:24-32 | the five deletions never lengthen the title and add no character |
| Utils.CleanProductNameShape | backend/app/utils.py:18-37 | the cleaned title has no whitespace run and no whitespace at either end, is never longer than the input, and adds only spaces |
| Utils.CleanProductNameGroups | backend/app/utils.py:31-35 | in the cleaned title no `(` is followed anywhere later by `)` and no `[` by `]` |
| Utils.CleanProductNameFacts | backend/app/utils.py:18-37 | `CleanProductName`: the cleaner's shape guarantees together: tidy whitespace, no longer than the input, no character but spaces that was not in the input, no surviving parenthesis or bracket group (which tokens go is stated by the four lemmas below) |
| Utils.CleanDropsWeight | backend/app/utils.py:24 | a weight (digits then one of g, kg, ml, l, 리터, 그램, 킬로그램) after a space at the end of a digit-free title is removed: the cleaned title equals the cleaned title without it |
| Utils.CleanDropsCount | backend/app/utils.py:27 | the same for a count (digits then one of 개, 봉, 입, 팩, 박스, x); the weight pattern leaves it alone and the count pattern removes it |
| Utils.CleanDropsTimes | backend/app/utils.py:28 | the same for a multiplier `x<digits>` at the end of a digit-free title |
| Utils.CleanPlainWord | backend/app/utils.py:18-37 | a single word without digits, whitespace, `(` or `[` comes out unchanged |
| Utils.CleanRamenWeight | backend/app/utils.py:23-24 | "신라면 120g" is cleaned to "신라면", the example of the weight pattern's comment and of tests/test_normalize.py:61-65 |
| Utils.WeightUnitWords | backend/app/utils.py:24 | every weight alternative is a non-empty lower-case word that starts with neither a digit nor whitespace |
| Utils.CountUnitWords | backend/app/utils.py:27 | every count alternative is such a word, with no digit in it |
| Utils.ClampRating | backend/app/utils.py:48 | a value in [0,5] is kept; below 0 gives 0, above 5 gives 5 |
| Utils.NormalizeRatingMeaning | backend/app/utils.py:40-48 | `NormalizeRating`: `None` stays `None` and only `None` gives `None`; on the 5-point scale an in-range rating is unchanged; on another positive scale an in-range rating is proportional (`r × max == rating × 5`), above the scale gives 5 and below 0 gives 0 |
| Utils.RescaleScrapedRating | backend/app/sources/danawa.py:118-120 | a value in [0,5] is kept; a value in (5,100] is read as a 100-point score (`r × 20 == value`); above 100 gives 5; below 0 gives 0 |
| Utils.RemoveCommas | backend/app/utils.py:58 | no comma is left |
| Utils.RemoveCommasAppend | backend/app/utils.py:58 | comma removal distributes over concatenation |
| Utils.Truncate | backend/app/utils.py:59 | `int()` on a float rounds toward zero: the result is the nearest integer not farther from zero |
| Utils.SafeIntTruncatesSafeFloat | backend/app/utils.py:51-73 | `SafeInt` and `SafeFloat`: `safe_int` succeeds exactly when `safe_float` does, and then returns its value rounded toward zero |
| Utils.CommaIgnored | backend/app/utils.py:58 | a comma inside the text never changes what `safe_int` or `safe_float` read |
| Utils.NatTextValue | backend/app/utils.py:59 | the decimal numeral of a number denotes that number |
| Utils.SafeIntReadsDecimal | backend/app/utils.py:51-73 | `SafeInt` and `SafeFloat`: every decimal numeral is read back as its number by both parsers |
| Utils.SafeIntRefusals | backend/app/utils.py:53-61 | `None`, a list, an object and the empty string read as no number |
| Utils.SafeIntRefusesText | backend/app/utils.py:59-61 | under the decimal-numeral reading of `float()`, a text whose first character cannot begin a numeral (not a digit, sign, dot, comma or whitespace) reads as no number for both parsers |
| Normalize.NormalizeProductName | backend/app/normalize.py:24-47 | the method with the brand loop computes the normalised name: lowercase, delete every brand word in list order, clean, lowercase again, tidy whitespace |
| Normalize.StripBrandsRemovesBrands | backend/app/normalize.py:33-38 | after the brand loop no brand token of the list stands anywhere as a whole word |
| Normalize.NormalizedNameFacts | backend/app/normalize.py:24-47 | `NormalizedName`: the normalised name is lowercase, has no whitespace run and no whitespace at either end, and is never longer than the title |
| Matching.SimilarityStep | backend/app/normalize.py:72-87 | with the fuzzy library the signal is `max(ratio, partial_ratio)` in [0,100] worth half its value; without it an empty query word set adds nothing and no reason, otherwise the overlap share lies in [0,1] and is worth 50 times itself |
| Matching.OverlapIsShare | backend/app/normalize.py:85 | the word-overlap share lies in [0,1] and is 1 exactly when every query word is in the title |
| Matching.OverlapTallyFacts | backend/app/normalize.py:80-87 | the fallback adds nothing for an empty query word set; otherwise it adds exactly the overlap reason, worth 50 times the share of query words found in the title, between 0 and 50 points |
| Matching.SimilarityTallyFacts | backend/app/normalize.py:72-87 | the similarity step adds between 0 and 50 points and only the similarity reason |
| Matching.SignalsFacts | backend/app/normalize.py:89-121 | the signals after similarity keep points equal to the sum of the reasons' points, never exceed 95 in total, and add reasons in the fixed order brand, price, rating, reviews, image, penalty |
| Matching.SignalsFired | backend/app/normalize.py:89-121 | `CalculateMatchScore`: each reason appears exactly when its signal fires: brand when the lowered brand is inside the lowered raw title; price when present and non-zero; rating when present (0.0 counts); reviews when present and positive; image when non-empty; penalty exactly when the title has a bulk word and the query has neither 세트 nor 박스 |
| Matching.SignalsIff | backend/app/normalize.py:89-121 | for tallies holding only similarity reasons, each later reason is present if and only if its condition holds, the review reason carrying exactly the review count |
| Matching.ScoreIsClampedTotal | backend/app/normalize.py:65-123 | `CalculateMatchScore`: the score is `max(0, sum of the reasons' points)`, lies in [0,95], the reasons are in step order, and the offer is the one scored |
| Matching.InsertByScore | backend/app/normalize.py:148 | inserting into the ranking adds exactly that element |
| Matching.SortByScore | backend/app/normalize.py:148 | the ranking is a permutation of the scored offers |
| Matching.InsertIsStable | backend/app/normalize.py:148 | inserting into a non-increasing ranking leaves the offers of every score value in their previous order, with the new offer after the equal-score ones already there |
| Matching.SortIsStable | backend/app/normalize.py:148 | the ranking is non-increasing in score, a permutation of the input, and for every score value the offers with that score keep their input order (a stable descending sort) |
| Matching.FirstBest | backend/app/normalize.py:147-151 | the first maximum: its score is at least every score, and strictly above every earlier score |
| Matching.SortHeadIsFirstBest | backend/app/normalize.py:147-151 | the head of the stable ranking is the first offer of maximal score in input order |
| Matching.SelectBestOffer | backend/app/normalize.py:143-144 | there is no best offer exactly when there are no offers, and then the only warning is "No offers found" |
| Matching.SelectWarnings | backend/app/normalize.py:150-166 | the below-threshold warning for the best score is emitted if and only if that score is below the threshold, and then comes first; the alternative-candidate warning is emitted if and only if there is a runner-up scoring above 0.9 × best, and it names exactly the runner-up's title and score; there are no other warnings |
| Matching.SelectBestOfferFacts | backend/app/normalize.py:143-168 | `SelectBestOffer` meets `BestOfScores`: on a non-empty list the best offer is the first maximal-score offer in input order; the below-threshold warning comes first exactly when its score is below the threshold; the alternative-candidate warning, naming the runner-up's title and score, appears exactly when the runner-up of the ranking scores above 0.9 × best; nothing else is warned |
| Matching.MatchOffersForProduct | backend/app/normalize.py:186-187 | no best offer exactly when there are no offers, and then the offers are empty and the only warning is "No offers available" |
| Matching.OffersOfPermutation | backend/app/normalize.py:197 | the offers of a permuted ranking are a permutation of the offers |
| Matching.MatchOffersFacts | backend/app/normalize.py:186-199 | on a non-empty list the sorted offers are a permutation of the input, non-increasing by score with ties in input order, the best offer is the first sorted offer, and the warnings are those of `select_best_offer` |
| Aggregate.FetchFromSources | backend/app/aggregate.py:26-66 | the offers are empty, the cached offers or the scraped offers; there are one or two warnings, and exactly one when offers are returned |
| Aggregate.CachedOffersWin | backend/app/aggregate.py:46-49 | in cache mode a non-empty cache result is returned with only the cache warning, whatever scraping would give |
| Aggregate.LambdaNeverScrapes | backend/app/aggregate.py:50-54 | in Lambda mode an empty cache result gives no offers and only the "No cached data" warning, whatever scraping would give |
| Aggregate.ScrapeOutcomes | backend/app/aggregate.py:56-66 | when scraping runs: offers give the direct-scrape warning alone; no offers give the earlier warnings plus "no results"; a failure gives the earlier warnings plus the scraping error |
| Aggregate.AggregateFacts | backend/app/aggregate.py:69-108 | `AggregateProductData`: the warnings are the fetch warnings followed by the match warnings; the summary is the default summary with the matcher's best offer and sorted offers; with no offers it is exactly the default summary; otherwise the best offer is the first sorted offer |
| Aggregate.FreshSummaryComparesToNothing | backend/app/schemas.py:39-49 | `NewSummary` has no best offer and no offers, so `CalculateComparison` with it on either side is `NoComparison` (backend/app/aggregate.py:111-134) |
| Aggregate.Diff | backend/app/aggregate.py:137-138 | a difference exists exactly when both values do, and then it is A − B |
| Aggregate.CalculateComparison | backend/app/aggregate.py:111-149 | with a best offer missing on either side there is no difference at all; otherwise each difference exists exactly when both fields do and is A − B, independently of the others |
| Aggregate.ComparisonAntisymmetric | backend/app/aggregate.py:129-143 | swapping A and B keeps which differences exist and negates each of them |
| Aggregate.ComparisonWithItself | backend/app/aggregate.py:129-143 | comparing a summary with itself gives zero differences |
| Cache.WithoutFacts | backend/app/cache.py:45 | deleting a key from the insertion order removes exactly that key, keeps the keys distinct and shortens the order by one when the key was there |
| Cache.OldestIndex | backend/app/cache.py:67-69 | `min(keys, key=expires_at)`: the chosen key has the smallest expiry and every key before it in insertion order expires strictly later (the first minimum) |
| Cache.InMemoryCache.FindOldest | backend/app/cache.py:67-69 | the scan over the insertion order returns exactly the first index of least expiry |
| Cache.OldestIndexUnique | backend/app/cache.py:67-69 | an index whose expiry is at most every expiry and strictly below every earlier one is the first minimum |
| Cache.InMemoryCache.SizeIsLength | backend/app/cache.py:26 | the insertion order and the entry map hold the same number of keys |
| Cache.InMemoryCache.constructor | backend/app/cache.py:25-29 | a new cache is empty with the given size limit and lifetime |
| Cache.InMemoryCache.Get | backend/app/cache.py:36-48 | an absent key gives `None` and changes nothing; an entry with `now > expires_at` is deleted and gives `None`, other keys untouched; otherwise (including `now == expires_at`) the value is returned and nothing changes |
| Cache.InMemoryCache.EvictOldest | backend/app/cache.py:62-70 | an empty cache is unchanged; otherwise exactly the first earliest-expiring key is removed |
| Cache.InMemoryCache.Set | backend/app/cache.py:50-60 | the key maps to the value expiring at `now + Lifetime(ttl, default)`, where `Lifetime` is `ttl or default` (an absent or zero `ttl` gives the default); an existing key never evicts; a new key at capacity first evicts exactly the earliest-expiring entry; the size limit invariant is kept |
| Cache.InMemoryCache.Clear | backend/app/cache.py:72-75 | the cache is empty afterwards |
| Cache.RateDecision | backend/app/cache.py:95-103 | allowed if and only if `now − last ≥ window`; then 0 remains; otherwise the remaining time is `int(window − elapsed)`, non-negative and at most the window when the last refresh is not in the future |
| Cache.RateLimiter.constructor | backend/app/cache.py:81-84 | a new limiter has no recorded refreshes |
| Cache.RateLimiter.CheckAndUpdate | backend/app/cache.py:86-103 | the answer is the rate decision for the key's last refresh (0 if none); an allowed call records `now` for that key only, a denied call changes nothing |
| Cache.StrLeTotal | backend/app/cache.py:204 | any two strings are ordered one way or the other |
| Cache.StrLeTransitive | backend/app/cache.py:204 | the string order is transitive |
| Cache.SortStrings | backend/app/cache.py:204 | `sorted(sources)` is sorted and a permutation of the sources |
| Cache.SortedUnique | backend/app/cache.py:204 | two sorted permutations of the same strings are equal |
| Cache.MakeCacheKey | backend/app/cache.py:197-206 | the key record holds exactly the four request strings lowercased, and the sources sorted as a permutation of the input |
| Cache.SameKeyIff | backend/app/cache.py:197-206 | two requests share a key if and only if their four strings agree after lowercasing and their sources are the same multiset |
| Cache.SourceOrderIgnored | backend/app/cache.py:197-206 | the key does not depend on the order of the sources |
| Cache.CaseIgnored | backend/app/cache.py:197-206 | the key does not depend on the letter case of the brands and products |
| Summarize.RemoveSpaces | backend/app/llm_summarize.py:297 | removing spaces leaves no space and never lengthens |
| Summarize.RemoveSpacesPlain | backend/app/llm_summarize.py:297 | a text without ' ' is unchanged, and of one character only ' ' is removed |
| Summarize.RemoveSpacesAppend | backend/app/llm_summarize.py:297 | removal distributes over concatenation; with the one-character case it fixes the result as the text's non-space characters in their order |
| Summarize.RemoveSpacesCounts | backend/app/llm_summarize.py:297 | every character other than ' ' occurs in the result exactly as often as in the text |
| Summarize.FirstMention | backend/app/llm_summarize.py:296-300 | the result is the first row whose name appears in the title as-is or with spaces removed from both; none means no row's name appears |
| Summarize.MatchedRowIsFirst | backend/app/llm_summarize.py:296-300 | the matched row is absent exactly when no name matches, and otherwise is a row that matches with no earlier matching row |
| Summarize.FindProduct | backend/app/llm_summarize.py:292-300 | the loop with `break` finds exactly that first matching row, and the evidence is its "제품 매칭" entry, or nothing |
| Summarize.Take | backend/app/llm_summarize.py:342-347 | slicing `[:n]` gives a prefix of the list: the whole list when it has at most n entries, otherwise exactly its first n entries |
| Summarize.OfferNotesBounds | backend/app/llm_summarize.py:302-320 | the offer rules add at most 3 features, 3 pros and 2 cons, and no price feature without a non-zero price |
| Summarize.OfferNotesRules | backend/app/llm_summarize.py:302-320 | a non-zero price gives the lowest-price feature first, "저렴한 가격" first among pros below 700, "다소 높은 가격" first among cons above 1500; a rating gives its feature, "높은 고객 만족도" from 4.5, "평점이 다소 낮음" below 3.5; a non-zero review count gives its review-total feature, and 1000 reviews or more give "많은 리뷰로 검증됨" |
| Summarize.OfferVerdicts | backend/app/llm_summarize.py:303-320 | each verdict is given if and only if its own condition holds: "저렴한 가격" iff a non-zero price below 700, "다소 높은 가격" iff a price above 1500, "높은 고객 만족도" iff a rating of at least 4.5, "평점이 다소 낮음" iff a rating below 3.5, "많은 리뷰로 검증됨" iff at least 1000 reviews |
| Summarize.AddOfferNotes | backend/app/llm_summarize.py:302-320 | the appending code builds exactly the offer-rule lists |
| Summarize.TableNotesFacts | backend/app/llm_summarize.py:322-334 | a matched row gives its first two features, and its evidence is the match; without a match "컵라면 타입" is added if and only if the title has 컵 or 사발, and "봉지면 타입" if and only if it has 봉지 or has neither 컵 nor 사발 |
| Summarize.AddTableNotes | backend/app/llm_summarize.py:322-334 | the appending code extends each list with exactly the table-rule entries |
| Summarize.OrElse | backend/app/llm_summarize.py:336-340 | an empty list becomes exactly `[placeholder]`, any other list is kept, so the result is never empty |
| Summarize.AssemblePlaceholders | backend/app/llm_summarize.py:336-340 | with no key features from the offer or the table the summary's features are exactly ["상세 정보 수집 중"]; with no pros its pros are exactly ["추가 분석 필요"] |
| Summarize.ComposeShape | backend/app/llm_summarize.py:336-347 | `Compose`, hence `FallbackDigest`: the summary has at most 5 features, 4 pros, 3 cons and 1 evidence entry; features and pros are never empty; the evidence is the matched row's name, or nothing |
| Summarize.ComposeOfferRules | backend/app/llm_summarize.py:302-347 | the offer rules survive the truncation: price feature first, cheap or expensive verdict first, the rating feature and its verdict, the review-total feature of a non-zero count and the many-reviews pro all present |
| Summarize.ComposeUnpriced | backend/app/llm_summarize.py:303 | a missing or zero price adds no price feature |
| Summarize.ComposeZeroPrice | backend/app/llm_summarize.py:303-311 | a price of 0 is treated exactly as a missing price: the summary equals that of the same offer without a price, so no price feature, cheap pro or expensive con |
| Summarize.ComposeKeepsTableFeatures | backend/app/llm_summarize.py:322-347 | the text features in the summary are exactly the table features |
| Summarize.ComposeTableRules | backend/app/llm_summarize.py:322-347 | after truncation a matched row's first two features are present; an unmatched title shows the cup and bag types by the rules above |
| Summarize.SummarizeWith | backend/app/llm_summarize.py:287-347 | the imperative rule pass over a product table computes the composed summary for the lowered title and its first matching row |
| Summarize.GenerateFallbackSummary | backend/app/llm_summarize.py:172-347 | the fallback summary is `FallbackDigest`, the composed summary over the 20-row product table |
| Summarize.EnrichProductSummary | backend/app/llm_summarize.py:350-377 | brand, query, offers, best offer and sentiment are kept; with no best offer the features become the single "not found" entry and the other lists stay; otherwise all four lists are the answer's |
| Summarize.EnrichedByFallback | backend/app/llm_summarize.py:350-377 | enriching with the fallback answer gives 1-5 features, 1-4 pros, at most 3 cons and at most 1 evidence entry |
| SerpApi.RemoveAll | backend/app/sources/naver_serpapi.py:71 | `str.replace(pat, '')` never lengthens; `SerpApi.RemoveAllAbsent` and `SerpApi.RemoveAllTrailing` give the result exactly for the texts the price lemmas use |
| SerpApi.RemoveAllAbsent | backend/app/sources/naver_serpapi.py:71 | a text without the pattern's first character is left unchanged by the replacement |
| SerpApi.RemoveAllTrailing | backend/app/sources/naver_serpapi.py:71 | an occurrence of the pattern at the end of such a text is deleted and nothing else changes |
| SerpApi.ParseSerpApiResponse | backend/app/sources/naver_serpapi.py:56-85 | the loop computes `ParseResponse`, the item-by-item mapping of the response: skip untitled items, append each other item's offer, stop at the first item that raises |
| SerpApi.ErrorPersists | backend/app/sources/naver_serpapi.py:63-83 | once an item raises, later items cannot change the outcome |
| SerpApi.MapItemsInOrder | backend/app/sources/naver_serpapi.py:63-85 | `MapItems`: the offers come one for one from distinct items at increasing positions, and every item that yields an offer is among them, so the offers are exactly the titled items' offers in input order |
| SerpApi.MappedOffersTagged | backend/app/sources/naver_serpapi.py:73-82 | every offer has source "naver_serpapi", a non-empty title and the fetch time |
| SerpApi.ItemOfferFacts | backend/app/sources/naver_serpapi.py:63-82 | `ItemOffer`: an item's offer has the source tag, the fetch time and the item's non-empty title; the url is the link or "" when absent; the image is the thumbnail or `None` when absent; the rating is `normalize_rating(safe_float(rating))`, hence `None` or in [0,5]; the price is `safe_int` of the cleaned price text (`SerpPrice`); the review count is present exactly when `safe_int(reviews)` is, with that value |
| SerpApi.UntitledSkipped | backend/app/sources/naver_serpapi.py:64-66 | an item whose title is missing or empty gives no offer |
| SerpApi.NoResultsNoOffers | backend/app/sources/naver_serpapi.py:61 | a missing or empty `shopping_results` gives no offers |
| SerpApi.CleanTwice | backend/app/sources/naver_serpapi.py:71 | cleaning a price text a second time (commas, then strip) changes nothing |
| SerpApi.SerpPriceOfText | backend/app/sources/naver_serpapi.py:69-77 | a price text without the deleted literal reads exactly as `safe_int` reads it |
| SerpApi.SerpPriceTrailing | backend/app/sources/naver_serpapi.py:69-77 | a price text ending in the deleted literal reads as the text before it |
| SerpApi.DigitsThenUnit | backend/app/sources/naver_serpapi.py:77 | digits followed by a unit character read as no price |
| SerpApi.DigitsThenUnitPrice | backend/app/sources/naver_serpapi.py:69-77 | digits followed by a unit character that the clean-up keeps read as no price |
| SerpApi.SerpPriceCommaIgnored | backend/app/sources/naver_serpapi.py:69-77 | a comma in the price text never changes the price read |
| SerpApi.MisreadSignDropped | backend/app/sources/naver_serpapi.py:69-77 | for every n, the digits of n followed by the deleted literal read as n |
| SerpApi.WonSignKeepsPriceUnread | backend/app/sources/naver_serpapi.py:69-77 | for every n, the digits of n followed by "원" read as no price, because the clean-up deletes a different literal |
| SerpApi.WonPricedOfferUnpriced | backend/app/sources/naver_serpapi.py:69-80 | an item priced as digits followed by "원" yields an offer whose `price_krw` is `None` (tests/test_sources_mock.py:144 expects 4500) |
| SerpApi.MisreadPricedOfferPriced | backend/app/sources/naver_serpapi.py:69-80 | an item priced as the digits of n followed by the deleted literal yields an offer whose `price_krw` is n |

## Left out

- I/O. HTTP fetching and scraping are not part of this model: `search_danawa`, the Danawa,
  11st and fallback scrapers, `local_scraper.py`, and the SerpApi HTTP call with its
  surrounding `try` (backend/app/sources/naver_serpapi.py:13-53). DynamoDB access,
  `SQLiteCache`, the Bedrock call with its prompt and JSON parsing, the FastAPI routes and the
  Streamlit UI are also left out. Their results enter the model as parameters.
- Clocks and identifiers: `time.time()` and `get_current_iso_datetime()` become `now` and
  `fetchedAt` parameters.
- Concurrency: `threading.Lock` is dropped, since every operation is modelled as one atomic step.
- Hashing: the md5 of the JSON-encoded key (`make_cache_key`, `InMemoryCache._make_key`) is
  not modelled. `Cache.MakeCacheKey` returns the key record before hashing.
- Fuzzy matching: `rapidfuzz`'s `ratio` and `partial_ratio` are function parameters with values
  in [0,100]. Their algorithm is not modelled.
- Matching.SignalsFired: reasons and warnings keep their numbers instead of the `:.1f` and `:,`
  formatted text.
- Summarize.OfferNotesRules: summary entries keep their numbers instead of the formatted text,
  for the same reason.
- Floating point: Python floats are modelled as exact reals, with no rounding and no overflow.
- Utils.NormalizeRatingMeaning: the result is not rounded to two decimals (`round(..., 2)` at
  backend/app/utils.py:48), so the rating is the exact clamped value.
- Aggregate.CalculateComparison: the rating difference is not rounded to two decimals
  (backend/app/aggregate.py:133).
- Utils.NormalizeRatingMeaning: a zero `max_rating` is excluded by a precondition, because
  Python raises `ZeroDivisionError` there and no caller passes it.
- Utils.SafeIntTruncatesSafeFloat: `float()` is modelled for optionally signed decimal numerals
  only. Exponents, `inf`, `nan`, underscores and non-ASCII digits read as no number in the model.
  For an infinite value (`"inf"`, `"1e999"`) the source's `int(float(...))` raises
  `OverflowError`, which `safe_int`'s `except (ValueError, TypeError)` does not catch, so
  `_parse_serpapi_response` raises on such a price or review count. The model returns no number
  there and builds the offer.
- Utils.SafeIntRefusesText: it holds for the decimal-numeral `float()` of the model only. Python's
  `float()` also accepts texts that start with a letter or another script's digit, such as
  `"inf"`, `"nan"`, `"Infinity"` or `"１２"`. For those the lemma's claim is false of the source.
- Utils.RescaleScrapedRating: local_scraper.py:163-165 also rounds to one decimal before
  clamping, which is not modelled. The row cites the Danawa copy of the rule.
- Character classes:
  - `\w` covers ASCII and Latin-1 letters, digits, `_`, Hangul and CJK ideographs; other
    scripts count as non-word characters.
  - `\d` covers ASCII digits only.
  - `str.lower()` lowers ASCII and Latin-1 capitals only.
- Normalize.StripBrandsRemovesBrands: the brand-free property is proved for the brand-deletion
  stage only. It does not hold for the whole normaliser: in "농심120g" the brand is not a whole
  word, so it survives, and the cleaner then deletes "120g", leaving "농심".
- Normalize.NormalizedNameFacts: idempotence is not claimed, because it does not hold. For
  "1(x)g" the weight pattern runs before the parenthesis pattern, so the first pass gives "1g"
  and the second gives "".
- Summarize.GenerateFallbackSummary: the unused `reviews` argument is dropped.
- Summarize.EnrichProductSummary: it returns the updated summary as a new value. The in-place
  mutation of the caller's object, and the aliasing it implies, are not modelled. The
  language-model answer is a parameter.
- SerpApi.ParseSerpApiResponse: the exceptions pydantic and `dict.get` would raise are collapsed
  into one `ParseError` value per cause. Their messages are not modelled.
- Cache.RateDecision: the remaining time is bounded by the window only when the last refresh is
  not later than `now`. With a clock that went backwards, `int(window - elapsed)` exceeds the
  window in the source too.
- Cache.InMemoryCache.Set: the size bound `|entries| <= max_size` is part of the invariant only
  for `max_size >= 1`. With `max_size <= 0` the source still inserts into an empty cache.

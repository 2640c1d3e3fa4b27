/**
 * The matcher of `normalize.py`: a score for how well an offer fits a (query, brand) pair,
 * built from weighted signals; a stable descending sort of the scored offers; and the
 * choice of a best offer with its warnings.
 */
module Matching {
  import opened Wrappers
  import opened Text
  import opened Schemas
  import opened Normalize

  /**
   * Where the string similarity comes from. With the fuzzy-matching library installed,
   * `fuzz.ratio` and `fuzz.partial_ratio` are functions into [0, 100] that the model does
   * not look inside; without it, the share of query words found in the title.
   */
  datatype Similarity =
    | Fuzzy(ratio: (string, string) -> Percent, partialRatio: (string, string) -> Percent)
    | WordOverlap

  /** One line of `MatchScore.reasons`; the numbers are kept instead of their formatting. */
  datatype Reason =
    | StringSimilarity(percent: real)   // "String similarity: {percent:.1f}%"
    | WordOverlapShare(share: real)     // "Word overlap: {share*100:.1f}%"
    | BrandFound(brand: string)         // "Brand '{brand}' found in title"
    | HasPrice                          // "Has price"
    | HasRating                         // "Has rating"
    | HasReviews(count: int)            // "Has {count} reviews"
    | HasImage                          // "Has image"
    | BulkPenalty                       // "Penalty: might be bulk/set product"

  /** The step of the scoring at which a reason is appended. */
  function Rank(r: Reason): nat {
    match r
    case StringSimilarity(_) => 0
    case WordOverlapShare(_) => 0
    case BrandFound(_) => 1
    case HasPrice => 2
    case HasRating => 3
    case HasReviews(_) => 4
    case HasImage => 5
    case BulkPenalty => 6
  }

  /** The points the step that appends a reason adds to the score. */
  function Points(r: Reason): real {
    match r
    case StringSimilarity(p) => p * 0.5
    case WordOverlapShare(o) => o * 50.0
    case BrandFound(_) => 20.0
    case HasPrice => 5.0
    case HasRating => 5.0
    case HasReviews(_) => 10.0
    case HasImage => 5.0
    case BulkPenalty => -15.0
  }

  /** The points of a list of reasons, summed. */
  function Total(rs: seq<Reason>): real {
    if rs == [] then 0.0 else Total(rs[..|rs| - 1]) + Points(rs[|rs| - 1])
  }

  /** `MatchScore(offer, score, reasons)` */
  datatype MatchScore = MatchScore(offer: Offer, score: real, reasons: seq<Reason>)

  /** The running `score` and `reasons` of `calculate_match_score`. */
  datatype Tally = Tally(points: real, reasons: seq<Reason>)

  /** One signal: when it fires, its points are added and its reason appended. */
  function Add(t: Tally, fired: bool, r: Reason): Tally {
    if fired then Tally(t.points + Points(r), t.reasons + [r]) else t
  }

  function Max(a: real, b: real): real {
    if a >= b then a else b
  }

  /** The title words that suggest a set or bulk listing. */
  const BulkWords: seq<string> := ["세트", "박스", "묶음", "대용량", "업소용"]

  /** `any(kw in title_lower for kw in wrong_keywords)` */
  predicate IsBulkTitle(titleLower: string) {
    exists kw | kw in BulkWords :: Contains(titleLower, kw)
  }

  /** `'세트' in query.lower() or '박스' in query.lower()` */
  predicate QueryAsksForBulk(query: string) {
    Contains(Lower(query), "세트") || Contains(Lower(query), "박스")
  }

  /** `len(query_words & title_words) / len(query_words)`, for a non-empty query word set. */
  function Overlap(q: set<string>, t: set<string>): real
    requires q != {}
  {
    |q * t| as real / |q| as real
  }

  /** Step 1: up to 50 points for string similarity. */
  function SimilarityTally(sim: Similarity, normalizedQuery: string, normalizedTitle: string): Tally {
    match sim
    case Fuzzy(ratio, partialRatio) =>
      var similarity := Max(ratio(normalizedQuery, normalizedTitle), partialRatio(normalizedQuery, normalizedTitle));
      Add(Tally(0.0, []), true, StringSimilarity(similarity))
    case WordOverlap =>
      OverlapTally(WordSet(normalizedQuery), WordSet(normalizedTitle))
  }

  /** The fallback similarity from the query and title word sets. */
  function OverlapTally(q: set<string>, titleWords: set<string>): Tally {
    if q == {} then Tally(0.0, [])
    else Add(Tally(0.0, []), true, WordOverlapShare(Overlap(q, titleWords)))
  }

  /**
   * Steps 2 to 7, given whether the brand was found in the title and whether the bulk
   * penalty applies: 20 for the brand, 5 for a non-zero price, 5 for any rating (0.0
   * included), 10 for a positive review count, 5 for a non-empty image URL, -15 for a bulk
   * listing.
   */
  function Signals(t: Tally, brand: string, brandFound: bool, offer: Offer, bulk: bool): Tally {
    var reviews := offer.reviewCount.GetOr(0);
    var t2 := Add(t, brandFound, BrandFound(brand));
    var t3 := Add(t2, offer.priceKrw.Some? && offer.priceKrw.value != 0, HasPrice);
    var t4 := Add(t3, offer.rating.Some?, HasRating);
    var t5 := Add(t4, offer.reviewCount.Some? && reviews > 0, HasReviews(reviews));
    var t6 := Add(t5, offer.imageUrl.Some? && offer.imageUrl.value != "", HasImage);
    Add(t6, bulk, BulkPenalty)
  }

  /** `brand.lower() in title.lower()`: the raw title, not the normalised one. */
  predicate BrandInTitle(brand: string, title: string) {
    Contains(Lower(title), Lower(brand))
  }

  /** The bulk-listing penalty applies. */
  predicate BulkPenaltyApplies(query: string, title: string) {
    IsBulkTitle(Lower(title)) && !QueryAsksForBulk(query)
  }

  /** `calculate_match_score(query, brand, offer)` */
  function CalculateMatchScore(sim: Similarity, query: string, brand: string, offer: Offer): MatchScore {
    var t1 := SimilarityTally(sim, NormalizedName(query), NormalizedName(offer.title));
    var t := Signals(t1, brand, BrandInTitle(brand, offer.title), offer, BulkPenaltyApplies(query, offer.title));
    MatchScore(offer, Max(0.0, t.points), t.reasons)
  }

  // ---------------------------------------------------------------------------
  // What the score means

  lemma TotalAppend(rs: seq<Reason>, r: Reason)
    ensures Total(rs + [r]) == Total(rs) + Points(r)
  {
    assert (rs + [r])[..|rs|] == rs;
  }

  /** A tally whose points are the sum of its reasons' points keeps that property. */
  /** Reasons strictly ordered by the step that appended them (so each step appears at most once). */
  predicate InStepOrder(rs: seq<Reason>) {
    forall i, j | 0 <= i < j < |rs| :: Rank(rs[i]) < Rank(rs[j])
  }

  /** Reasons in step order, all from steps before `k`. */
  predicate OrderedBelow(rs: seq<Reason>, k: nat) {
    InStepOrder(rs) && forall x | x in rs :: Rank(x) < k
  }

  /** One step keeps the tally's points equal to its reasons' total, and its reasons in step order. */
  lemma AddStep(t: Tally, fired: bool, r: Reason, bound: real)
    requires t.points == Total(t.reasons) && t.points <= bound
    requires OrderedBelow(t.reasons, Rank(r))
    ensures var u := Add(t, fired, r);
      && u.points == Total(u.reasons)
      && u.points <= bound + Max(0.0, Points(r))
      && OrderedBelow(u.reasons, Rank(r) + 1)
  {
    TotalAppend(t.reasons, r);
  }

  lemma SimilarityTallyFacts(sim: Similarity, nq: string, nt: string)
    ensures var t := SimilarityTally(sim, nq, nt);
      && t.points == Total(t.reasons)
      && 0.0 <= t.points <= 50.0
      && OrderedBelow(t.reasons, 1)
  {
    match sim
    case Fuzzy(ratio, partialRatio) =>
      var s := Max(ratio(nq, nt), partialRatio(nq, nt));
      TotalAppend([], StringSimilarity(s));
    case WordOverlap =>
      OverlapTallyFacts(WordSet(nq), WordSet(nt));
  }

  /**
   * Without the fuzzy library: an empty query word set adds nothing and no reason; otherwise
   * the overlap share, between 0 and 1, is worth 50 times itself.
   */
  lemma OverlapTallyFacts(q: set<string>, titleWords: set<string>)
    ensures var t := OverlapTally(q, titleWords);
      && t.points == Total(t.reasons)
      && 0.0 <= t.points <= 50.0
      && OrderedBelow(t.reasons, 1)
      && (q == {} ==> t.reasons == [] && t.points == 0.0)
      && (q != {} ==>
            && t.reasons == [WordOverlapShare(Overlap(q, titleWords))]
            && t.points == Overlap(q, titleWords) * 50.0
            && 0.0 <= Overlap(q, titleWords) <= 1.0)
  {
    assert Total([]) == 0.0;
    if q != {} {
      var o := Overlap(q, titleWords);
      OverlapIsShare(q, titleWords);
      TotalAppend([], WordOverlapShare(o));
    }
  }

  lemma {:induction false} SubsetCardinality(a: set<string>, b: set<string>)
    requires a <= b
    ensures |a| <= |b|
    decreases |b|
  {
    if a != {} {
      var x :| x in a;
      SubsetCardinality(a - {x}, b - {x});
    }
  }

  /** A count over a positive total is a share, and a full share exactly when the count is the total. */
  lemma CountShare(a: nat, b: nat)
    requires 0 < b && a <= b
    ensures 0.0 <= a as real / b as real <= 1.0
    ensures a as real / b as real == 1.0 <==> a == b
  {
    var x, y := a as real, b as real;
    var r := x / y;
    assert r * y == x;
    ScaledBounds(r, y);
  }

  /** A factor of a positive `y` whose product lies in [0, y] lies in [0, 1], and is 1 exactly when the product is `y`. */
  lemma ScaledBounds(r: real, y: real)
    requires 0.0 < y && 0.0 <= r * y <= y
    ensures 0.0 <= r <= 1.0
    ensures r == 1.0 <==> r * y == y
  {
  }

  lemma OverlapFull(q: set<string>, t: set<string>)
    ensures |q * t| <= |q|
    ensures |q * t| == |q| <==> q <= t
  {
    SubsetCardinality(q * t, q);
    if q <= t {
      assert q * t == q;
    } else {
      var x :| x in q && x !in t;
      SubsetCardinality(q * t, q - {x});
    }
  }

  /** The word overlap is a share: between 0 and 1, and 1 exactly when every query word is in the title. */
  lemma OverlapIsShare(q: set<string>, t: set<string>)
    requires q != {}
    ensures 0.0 <= Overlap(q, t) <= 1.0
    ensures Overlap(q, t) == 1.0 <==> q <= t
  {
    OverlapFull(q, t);
    CountShare(|q * t|, |q|);
  }

  lemma FirstSignals(t: Tally, brand: string, brandFound: bool, offer: Offer)
    requires t.points == Total(t.reasons) && t.points <= 50.0
    requires OrderedBelow(t.reasons, 1)
    ensures var u := Add(Add(Add(t, brandFound, BrandFound(brand)),
                             offer.priceKrw.Some? && offer.priceKrw.value != 0, HasPrice),
                         offer.rating.Some?, HasRating);
      u.points == Total(u.reasons) && u.points <= 80.0 && OrderedBelow(u.reasons, 4)
  {
    var t2 := Add(t, brandFound, BrandFound(brand));
    AddStep(t, brandFound, BrandFound(brand), 50.0);
    var t3 := Add(t2, offer.priceKrw.Some? && offer.priceKrw.value != 0, HasPrice);
    AddStep(t2, offer.priceKrw.Some? && offer.priceKrw.value != 0, HasPrice, 70.0);
    AddStep(t3, offer.rating.Some?, HasRating, 75.0);
  }

  lemma LastSignals(t4: Tally, reviewsFired: bool, reviews: int, imageFired: bool, bulk: bool)
    requires t4.points == Total(t4.reasons) && t4.points <= 80.0
    requires OrderedBelow(t4.reasons, 4)
    ensures var u := Add(Add(Add(t4, reviewsFired, HasReviews(reviews)), imageFired, HasImage), bulk, BulkPenalty);
      u.points == Total(u.reasons) && u.points <= 95.0 && OrderedBelow(u.reasons, 7)
  {
    var t5 := Add(t4, reviewsFired, HasReviews(reviews));
    AddStep(t4, reviewsFired, HasReviews(reviews), 80.0);
    var t6 := Add(t5, imageFired, HasImage);
    AddStep(t5, imageFired, HasImage, 90.0);
    AddStep(t6, bulk, BulkPenalty, 95.0);
  }

  lemma SignalsFacts(t: Tally, brand: string, brandFound: bool, offer: Offer, bulk: bool)
    requires t.points == Total(t.reasons) && t.points <= 50.0
    requires OrderedBelow(t.reasons, 1)
    ensures var u := Signals(t, brand, brandFound, offer, bulk);
      u.points == Total(u.reasons) && u.points <= 95.0 && InStepOrder(u.reasons)
  {
    FirstSignals(t, brand, brandFound, offer);
    var t4 := Add(Add(Add(t, brandFound, BrandFound(brand)),
                      offer.priceKrw.Some? && offer.priceKrw.value != 0, HasPrice),
                  offer.rating.Some?, HasRating);
    var reviews := offer.reviewCount.GetOr(0);
    assert Signals(t, brand, brandFound, offer, bulk)
      == Add(Add(Add(t4, offer.reviewCount.Some? && reviews > 0, HasReviews(reviews)),
                 offer.imageUrl.Some? && offer.imageUrl.value != "", HasImage),
             bulk, BulkPenalty);
    LastSignals(t4, offer.reviewCount.Some? && reviews > 0, reviews,
                offer.imageUrl.Some? && offer.imageUrl.value != "", bulk);
  }

  /**
   * The score is the sum of the points of the reasons given, clamped at 0, and lies in
   * [0, 95]: 50 for similarity, 20 for the brand, 5 + 5 + 10 + 5 for price, rating, reviews
   * and image. The reasons come in the order of the scoring steps, each step at most once.
   */
  lemma ScoreIsClampedTotal(sim: Similarity, query: string, brand: string, offer: Offer)
    ensures var m := CalculateMatchScore(sim, query, brand, offer);
      && m.offer == offer
      && m.score == Max(0.0, Total(m.reasons))
      && 0.0 <= m.score <= 95.0
      && InStepOrder(m.reasons)
  {
    var nq, nt := NormalizedName(query), NormalizedName(offer.title);
    var t1 := SimilarityTally(sim, nq, nt);
    SimilarityTallyFacts(sim, nq, nt);
    ClampedSignals(t1, brand, BrandInTitle(brand, offer.title), offer, BulkPenaltyApplies(query, offer.title));
  }

  lemma ClampedSignals(t1: Tally, brand: string, brandFound: bool, offer: Offer, bulk: bool)
    requires t1.points == Total(t1.reasons) && 0.0 <= t1.points <= 50.0
    requires OrderedBelow(t1.reasons, 1)
    ensures var t := Signals(t1, brand, brandFound, offer, bulk);
      var score := Max(0.0, t.points);
      && score == Max(0.0, Total(t.reasons))
      && 0.0 <= score <= 95.0
      && InStepOrder(t.reasons)
  {
    SignalsFacts(t1, brand, brandFound, offer, bulk);
  }

  /** Which later-step reasons a tally of similarity reasons ends up with. */
  lemma SignalsMembers(t: Tally, brand: string, brandFound: bool, offer: Offer, bulk: bool, x: Reason)
    requires forall y | y in t.reasons :: Rank(y) == 0
    requires Rank(x) != 0
    ensures var reviews := offer.reviewCount.GetOr(0);
      x in Signals(t, brand, brandFound, offer, bulk).reasons <==>
        || (x == BrandFound(brand) && brandFound)
        || (x == HasPrice && offer.priceKrw.Some? && offer.priceKrw.value != 0)
        || (x == HasRating && offer.rating.Some?)
        || (x == HasReviews(reviews) && offer.reviewCount.Some? && reviews > 0)
        || (x == HasImage && offer.imageUrl.Some? && offer.imageUrl.value != "")
        || (x == BulkPenalty && bulk)
  {
    var reviews := offer.reviewCount.GetOr(0);
    SignalsReasons(t, brand, brandFound, offer, bulk);
    assert x !in t.reasons;
    FiredMembers(Signals(t, brand, brandFound, offer, bulk).reasons, t.reasons, x,
      brandFound, BrandFound(brand),
      offer.priceKrw.Some? && offer.priceKrw.value != 0, HasPrice,
      offer.rating.Some?, HasRating,
      offer.reviewCount.Some? && reviews > 0, HasReviews(reviews),
      offer.imageUrl.Some? && offer.imageUrl.value != "", HasImage,
      bulk, BulkPenalty);
  }

  lemma FiredMembers(rs: seq<Reason>, base: seq<Reason>, x: Reason,
                     b1: bool, r1: Reason, b2: bool, r2: Reason, b3: bool, r3: Reason,
                     b4: bool, r4: Reason, b5: bool, r5: Reason, b6: bool, r6: Reason)
    requires x !in base
    requires rs == base + Fired(b1, r1) + Fired(b2, r2) + Fired(b3, r3)
                    + Fired(b4, r4) + Fired(b5, r5) + Fired(b6, r6)
    ensures x in rs <==>
      || (x == r1 && b1) || (x == r2 && b2) || (x == r3 && b3)
      || (x == r4 && b4) || (x == r5 && b5) || (x == r6 && b6)
  {
    ConcatMembers(base, Fired(b1, r1), Fired(b2, r2), Fired(b3, r3),
      Fired(b4, r4), Fired(b5, r5), Fired(b6, r6), x);
    assert x in Fired(b1, r1) <==> x == r1 && b1;
    assert x in Fired(b2, r2) <==> x == r2 && b2;
    assert x in Fired(b3, r3) <==> x == r3 && b3;
    assert x in Fired(b4, r4) <==> x == r4 && b4;
    assert x in Fired(b5, r5) <==> x == r5 && b5;
    assert x in Fired(b6, r6) <==> x == r6 && b6;
  }

  lemma ConcatMembers<T>(base: seq<T>, f1: seq<T>, f2: seq<T>, f3: seq<T>, f4: seq<T>, f5: seq<T>, f6: seq<T>, x: T)
    requires x !in base
    ensures x in base + f1 + f2 + f3 + f4 + f5 + f6
      <==> x in f1 || x in f2 || x in f3 || x in f4 || x in f5 || x in f6
  {
  }

  function Fired(fired: bool, r: Reason): seq<Reason> {
    if fired then [r] else []
  }

  /** The reasons the later steps append, in step order. */
  lemma SignalsReasons(t: Tally, brand: string, brandFound: bool, offer: Offer, bulk: bool)
    ensures var reviews := offer.reviewCount.GetOr(0);
      Signals(t, brand, brandFound, offer, bulk).reasons
        == t.reasons + Fired(brandFound, BrandFound(brand))
           + Fired(offer.priceKrw.Some? && offer.priceKrw.value != 0, HasPrice)
           + Fired(offer.rating.Some?, HasRating)
           + Fired(offer.reviewCount.Some? && reviews > 0, HasReviews(reviews))
           + Fired(offer.imageUrl.Some? && offer.imageUrl.value != "", HasImage)
           + Fired(bulk, BulkPenalty)
  {
    var reviews := offer.reviewCount.GetOr(0);
    var t2 := Add(t, brandFound, BrandFound(brand));
    var t3 := Add(t2, offer.priceKrw.Some? && offer.priceKrw.value != 0, HasPrice);
    var t4 := Add(t3, offer.rating.Some?, HasRating);
    var t5 := Add(t4, offer.reviewCount.Some? && reviews > 0, HasReviews(reviews));
    var t6 := Add(t5, offer.imageUrl.Some? && offer.imageUrl.value != "", HasImage);
    AddReasons(t, brandFound, BrandFound(brand));
    AddReasons(t2, offer.priceKrw.Some? && offer.priceKrw.value != 0, HasPrice);
    AddReasons(t3, offer.rating.Some?, HasRating);
    AddReasons(t4, offer.reviewCount.Some? && reviews > 0, HasReviews(reviews));
    AddReasons(t5, offer.imageUrl.Some? && offer.imageUrl.value != "", HasImage);
    AddReasons(t6, bulk, BulkPenalty);
  }

  lemma AddReasons(t: Tally, fired: bool, r: Reason)
    ensures Add(t, fired, r).reasons == t.reasons + Fired(fired, r)
  {
    if !fired {
      assert t.reasons + [] == t.reasons;
    }
  }

  lemma SignalsIff(t: Tally, brand: string, bf: bool, offer: Offer, bulk: bool, n: int)
    requires forall y | y in t.reasons :: Rank(y) == 0
    ensures var rs := Signals(t, brand, bf, offer, bulk).reasons;
      && (BrandFound(brand) in rs <==> bf)
      && (HasPrice in rs <==> offer.priceKrw.Some? && offer.priceKrw.value != 0)
      && (HasRating in rs <==> offer.rating.Some?)
      && (HasReviews(n) in rs <==> offer.reviewCount == Some(n) && n > 0)
      && (HasImage in rs <==> offer.imageUrl.Some? && offer.imageUrl.value != "")
      && (BulkPenalty in rs <==> bulk)
  {
    SignalsMembers(t, brand, bf, offer, bulk, BrandFound(brand));
    SignalsMembers(t, brand, bf, offer, bulk, HasPrice);
    SignalsMembers(t, brand, bf, offer, bulk, HasRating);
    SignalsMembers(t, brand, bf, offer, bulk, HasReviews(n));
    SignalsMembers(t, brand, bf, offer, bulk, HasImage);
    SignalsMembers(t, brand, bf, offer, bulk, BulkPenalty);
  }

  /**
   * Each signal's reason is given exactly when its condition holds: the brand bonus when
   * `brand.lower()` occurs in the raw `title.lower()`, the price for a non-zero price, the
   * rating for any rating, the reviews for a positive count, the image for a non-empty URL,
   * and the penalty for a bulk title when the query asks for no set or box.
   */
  lemma SignalsFired(sim: Similarity, query: string, brand: string, offer: Offer, n: int)
    ensures var rs := CalculateMatchScore(sim, query, brand, offer).reasons;
      && (BrandFound(brand) in rs <==> BrandInTitle(brand, offer.title))
      && (HasPrice in rs <==> offer.priceKrw.Some? && offer.priceKrw.value != 0)
      && (HasRating in rs <==> offer.rating.Some?)
      && (HasReviews(n) in rs <==> offer.reviewCount == Some(n) && n > 0)
      && (HasImage in rs <==> offer.imageUrl.Some? && offer.imageUrl.value != "")
      && (BulkPenalty in rs <==> BulkPenaltyApplies(query, offer.title))
  {
    var nq, nt := NormalizedName(query), NormalizedName(offer.title);
    var t := SimilarityTally(sim, nq, nt);
    SimilarityTallyFacts(sim, nq, nt);
    SignalsIff(t, brand, BrandInTitle(brand, offer.title), offer, BulkPenaltyApplies(query, offer.title), n);
  }

  /**
   * The similarity step: with the fuzzy library, the better of the two ratios is given and
   * worth half its value; without it, an empty query word set gives no reason and no
   * points, and otherwise the overlap share (in [0, 1]) is given and worth 50 times itself.
   */
  lemma SimilarityStep(sim: Similarity, nq: string, nt: string)
    ensures var t := SimilarityTally(sim, nq, nt);
      match sim
      case Fuzzy(ratio, partialRatio) =>
        var p := Max(ratio(nq, nt), partialRatio(nq, nt));
        t.reasons == [StringSimilarity(p)] && t.points == p * 0.5 && 0.0 <= p <= 100.0
      case WordOverlap =>
        var q := WordSet(nq);
        if q == {} then t.reasons == [] && t.points == 0.0
        else
          && t.reasons == [WordOverlapShare(Overlap(q, WordSet(nt)))]
          && t.points == Overlap(q, WordSet(nt)) * 50.0
          && 0.0 <= Overlap(q, WordSet(nt)) <= 1.0
  {
    if sim.WordOverlap? {
      OverlapTallyFacts(WordSet(nq), WordSet(nt));
    }
  }

  // ---------------------------------------------------------------------------
  // `scored.sort(key=lambda x: x.score, reverse=True)`: a stable sort, descending by score

  /** `x` placed after every element scoring at least as much, before the first scoring less. */
  function InsertByScore(x: MatchScore, t: seq<MatchScore>): (r: seq<MatchScore>)
    ensures |r| == |t| + 1
    ensures multiset(r) == multiset(t) + multiset{x}
  {
    if t == [] then [x]
    else if x.score > t[0].score then [x] + t
    else
      assert t == [t[0]] + t[1..];
      [t[0]] + InsertByScore(x, t[1..])
  }

  /** The scored list sorted by descending score, ties in input order. */
  function SortByScore(s: seq<MatchScore>): (r: seq<MatchScore>)
    ensures |r| == |s|
    ensures multiset(r) == multiset(s)
  {
    if s == [] then []
    else
      assert s == s[..|s| - 1] + [s[|s| - 1]];
      InsertByScore(s[|s| - 1], SortByScore(s[..|s| - 1]))
  }

  predicate NonIncreasing(s: seq<MatchScore>) {
    forall i, j | 0 <= i < j < |s| :: s[i].score >= s[j].score
  }

  /** The elements of `s` whose score is `v`, in order. */
  function WithScore(s: seq<MatchScore>, v: real): seq<MatchScore> {
    if s == [] then [] else (if s[0].score == v then [s[0]] else []) + WithScore(s[1..], v)
  }

  lemma {:induction false} WithScoreAppend(a: seq<MatchScore>, b: seq<MatchScore>, v: real)
    ensures WithScore(a + b, v) == WithScore(a, v) + WithScore(b, v)
    decreases |a|
  {
    if a == [] {
      assert a + b == b;
    } else {
      WithScoreAppend(a[1..], b, v);
      ConsKeepsExtra(a[0], a[1..], a[1..] + b, WithScore(b, v), v);
      ConsConcat(a, b);
    }
  }

  lemma {:induction false} WithScoreNone(s: seq<MatchScore>, v: real)
    requires forall i | 0 <= i < |s| :: s[i].score != v
    ensures WithScore(s, v) == []
    decreases |s|
  {
    if s != [] {
      WithScoreNone(s[1..], v);
    }
  }

  lemma {:induction false} InsertKeepsOrder(x: MatchScore, t: seq<MatchScore>)
    requires NonIncreasing(t)
    ensures NonIncreasing(InsertByScore(x, t))
    decreases |t|
  {
    if t != [] && x.score <= t[0].score {
      InsertKeepsOrder(x, t[1..]);
      var r := InsertByScore(x, t);
      var rest := InsertByScore(x, t[1..]);
      assert r == [t[0]] + rest;
      forall j | 0 <= j < |rest| ensures t[0].score >= rest[j].score {
        assert rest[j] in multiset(t[1..]) + multiset{x};
        if rest[j] != x {
          assert rest[j] in t[1..];
        }
      }
    }
  }

  lemma ConsWithScore(y: MatchScore, rest: seq<MatchScore>, v: real)
    ensures WithScore([y] + rest, v) == (if y.score == v then [y] else []) + WithScore(rest, v)
  {
    assert ([y] + rest)[0] == y && ([y] + rest)[1..] == rest;
  }

  lemma ConsKeepsExtra(y: MatchScore, tail: seq<MatchScore>, rest: seq<MatchScore>, extra: seq<MatchScore>, v: real)
    requires WithScore(rest, v) == WithScore(tail, v) + extra
    ensures WithScore([y] + rest, v) == WithScore([y] + tail, v) + extra
  {
    ConsWithScore(y, rest, v);
    ConsWithScore(y, tail, v);
    var head := if y.score == v then [y] else [];
    assert head + (WithScore(tail, v) + extra) == (head + WithScore(tail, v)) + extra;
  }

  lemma NonIncreasingTail(t: seq<MatchScore>)
    requires t != [] && NonIncreasing(t)
    ensures NonIncreasing(t[1..])
  {
    forall i, j | 0 <= i < j < |t[1..]| ensures t[1..][i].score >= t[1..][j].score {
      assert t[1..][i] == t[i + 1] && t[1..][j] == t[j + 1];
    }
  }

  /** `x` placed in front of a list of lower scores: the runs of `t` are untouched. */
  lemma InsertInFrontStable(x: MatchScore, t: seq<MatchScore>, v: real)
    requires t != [] && NonIncreasing(t) && x.score > t[0].score
    ensures WithScore([x] + t, v) == WithScore(t, v) + (if x.score == v then [x] else [])
  {
    ConsWithScore(x, t, v);
    if x.score == v {
      forall i | 0 <= i < |t| ensures t[i].score != v {
        assert t[0].score >= t[i].score;
      }
      WithScoreNone(t, v);
    }
  }

  /** Inserting `x` adds it after the elements of its own score and leaves the other scores' runs alone. */
  lemma {:induction false} InsertIsStable(x: MatchScore, t: seq<MatchScore>, v: real)
    requires NonIncreasing(t)
    ensures WithScore(InsertByScore(x, t), v) == WithScore(t, v) + (if x.score == v then [x] else [])
    decreases |t|
  {
    if t == [] {
      WithScoreSingle(x, v);
    } else if x.score > t[0].score {
      InsertInFrontStable(x, t, v);
    } else {
      NonIncreasingTail(t);
      InsertIsStable(x, t[1..], v);
      ConsKeepsExtra(t[0], t[1..], InsertByScore(x, t[1..]), if x.score == v then [x] else [], v);
      SplitFirst(t);
    }
  }

  /** One step of the sort keeps the run of each score as in the input. */
  lemma SortStepStable(s: seq<MatchScore>, v: real)
    requires s != []
    requires NonIncreasing(SortByScore(s[..|s| - 1]))
    requires WithScore(SortByScore(s[..|s| - 1]), v) == WithScore(s[..|s| - 1], v)
    ensures WithScore(SortByScore(s), v) == WithScore(s, v)
  {
    var init, last := s[..|s| - 1], s[|s| - 1];
    assert SortByScore(s) == InsertByScore(last, SortByScore(init));
    InsertIsStable(last, SortByScore(init), v);
    SplitLast(s);
    WithScoreAppend(init, [last], v);
    WithScoreSingle(last, v);
  }

  lemma ConsConcat(a: seq<MatchScore>, b: seq<MatchScore>)
    requires a != []
    ensures a == [a[0]] + a[1..] && a + b == [a[0]] + (a[1..] + b)
  {
  }

  lemma SplitFirst(s: seq<MatchScore>)
    requires s != []
    ensures s == [s[0]] + s[1..]
  {
  }

  lemma SplitLast(s: seq<MatchScore>)
    requires s != []
    ensures s == s[..|s| - 1] + [s[|s| - 1]]
  {
  }

  lemma WithScoreSingle(x: MatchScore, v: real)
    ensures WithScore([x], v) == if x.score == v then [x] else []
  {
    ConsWithScore(x, [], v);
    assert [x] + [] == [x];
  }

  /**
   * The sort's result is in non-increasing score order, holds the same elements, and for
   * every score keeps the elements of that score in their input order.
   */
  lemma {:induction false} SortIsStable(s: seq<MatchScore>)
    ensures NonIncreasing(SortByScore(s))
    ensures multiset(SortByScore(s)) == multiset(s)
    ensures forall v :: WithScore(SortByScore(s), v) == WithScore(s, v)
    decreases |s|
  {
    if s != [] {
      var init, last := s[..|s| - 1], s[|s| - 1];
      SortIsStable(init);
      assert SortByScore(s) == InsertByScore(last, SortByScore(init));
      InsertKeepsOrder(last, SortByScore(init));
      forall v ensures WithScore(SortByScore(s), v) == WithScore(s, v) {
        SortStepStable(s, v);
      }
    }
  }

  /** The index of the first element of maximal score. */
  function FirstBest(s: seq<MatchScore>): (k: nat)
    requires s != []
    ensures k < |s|
    ensures forall j | 0 <= j < |s| :: s[j].score <= s[k].score
    ensures forall j | 0 <= j < k :: s[j].score < s[k].score
  {
    if |s| == 1 then 0
    else
      var k := FirstBest(s[..|s| - 1]);
      if s[|s| - 1].score > s[k].score then |s| - 1 else k
  }

  lemma {:induction false} WithScoreHead(s: seq<MatchScore>, k: nat)
    requires k < |s| && forall j | 0 <= j < k :: s[j].score != s[k].score
    ensures WithScore(s, s[k].score) != [] && WithScore(s, s[k].score)[0] == s[k]
    decreases k
  {
    if k > 0 {
      WithScoreHead(s[1..], k - 1);
    }
  }

  /** The head of the sorted list is the first element, in input order, of maximal score. */
  lemma SortHeadIsFirstBest(s: seq<MatchScore>)
    requires s != []
    ensures SortByScore(s)[0] == s[FirstBest(s)]
  {
    var r := SortByScore(s);
    SortIsStable(s);
    var k := FirstBest(s);
    var m := s[k].score;
    assert r[0] in multiset(s);
    assert s[k] in multiset(r);
    var i :| 0 <= i < |r| && r[i] == s[k];
    var a :| 0 <= a < |s| && s[a] == r[0];
    assert r[0].score == m;
    WithScoreHead(s, k);
    WithScoreHead(r, 0);
  }

  // ---------------------------------------------------------------------------
  // Selection

  /** `[calculate_match_score(query, brand, offer) for offer in offers]` */
  function Scored(sim: Similarity, query: string, brand: string, offers: seq<Offer>): (r: seq<MatchScore>)
    ensures |r| == |offers|
  {
    seq(|offers|, i requires 0 <= i < |offers| => CalculateMatchScore(sim, query, brand, offers[i]))
  }

  /** `[s.offer for s in scored]` */
  function OffersOf(s: seq<MatchScore>): seq<Offer> {
    seq(|s|, i requires 0 <= i < |s| => s[i].offer)
  }

  /** The default `threshold` of `select_best_offer`. */
  const DefaultThreshold: real := 30.0

  /** `select_best_offer(offers, query, brand, threshold)`: the best offer and the warnings. */
  function SelectBestOffer(sim: Similarity, offers: seq<Offer>, query: string, brand: string, threshold: real)
    : (r: (Option<Offer>, seq<Warning>))
    ensures r.0.None? <==> offers == []
    ensures offers == [] ==> r.1 == [NoOffersFound]
  {
    if offers == [] then (None, [NoOffersFound])
    else
      var scored := SortByScore(Scored(sim, query, brand, offers));
      (Some(scored[0].offer), RankingWarnings(scored, threshold))
  }

  /** `match_offers_for_product(offers, query, brand)`: the best offer, all offers ranked, and the warnings. */
  function MatchOffersForProduct(sim: Similarity, offers: seq<Offer>, query: string, brand: string)
    : (r: (Option<Offer>, seq<Offer>, seq<Warning>))
    ensures offers == [] <==> r.0.None?
    ensures offers == [] ==> r.1 == [] && r.2 == [NoOffersAvailable]
  {
    if offers == [] then (None, [], [NoOffersAvailable])
    else
      var scored := SortByScore(Scored(sim, query, brand, offers));
      var (best, warnings) := SelectBestOffer(sim, offers, query, brand, DefaultThreshold);
      (best, OffersOf(scored), warnings)
  }

  lemma ScoredAt(sim: Similarity, query: string, brand: string, offers: seq<Offer>, i: nat)
    requires i < |offers|
    ensures Scored(sim, query, brand, offers)[i] == CalculateMatchScore(sim, query, brand, offers[i])
    ensures Scored(sim, query, brand, offers)[i].offer == offers[i]
  {
  }

  lemma OffersOfScored(sim: Similarity, query: string, brand: string, offers: seq<Offer>)
    ensures OffersOf(Scored(sim, query, brand, offers)) == offers
  {
    var sc := Scored(sim, query, brand, offers);
    forall i | 0 <= i < |offers| ensures OffersOf(sc)[i] == offers[i] {
      ScoredAt(sim, query, brand, offers, i);
    }
  }

  lemma OffersOfAppend(a: seq<MatchScore>, b: seq<MatchScore>)
    ensures OffersOf(a + b) == OffersOf(a) + OffersOf(b)
  {
  }

  lemma {:induction false} OffersOfPermutation(a: seq<MatchScore>, b: seq<MatchScore>)
    requires multiset(a) == multiset(b)
    ensures multiset(OffersOf(a)) == multiset(OffersOf(b))
    decreases |a|
  {
    if a == [] {
      assert |b| == |multiset(b)| == 0;
    } else {
      var x := a[0];
      assert x in multiset(b);
      var k :| 0 <= k < |b| && b[k] == x;
      RemoveMatched(a, b, k);
      OffersOfPermutation(a[1..], b[..k] + b[k + 1..]);
      OffersOfSplice(b, k);
      assert a == [x] + a[1..];
      OffersOfAppend([x], a[1..]);
      assert OffersOf([x]) == [x.offer];
      assert multiset(OffersOf(a)) == multiset{x.offer} + multiset(OffersOf(a[1..]));
    }
  }

  /** Taking the same element out of two permutations of each other leaves two permutations. */
  lemma RemoveMatched(a: seq<MatchScore>, b: seq<MatchScore>, k: nat)
    requires multiset(a) == multiset(b) && a != [] && k < |b| && b[k] == a[0]
    ensures multiset(a[1..]) == multiset(b[..k] + b[k + 1..])
  {
    var x := a[0];
    assert b == b[..k] + [x] + b[k + 1..];
    assert a == [x] + a[1..];
    assert multiset(b) == multiset(b[..k]) + multiset{x} + multiset(b[k + 1..]);
    assert multiset(a) == multiset{x} + multiset(a[1..]);
    assert multiset(b[..k] + b[k + 1..]) == multiset(b[..k]) + multiset(b[k + 1..]);
    assert multiset(b[..k] + b[k + 1..]) == multiset(b) - multiset{x};
    assert multiset(a[1..]) == multiset(a) - multiset{x};
  }

  /** The offers of `b` are those of `b` without its `k`-th element, plus that element's offer. */
  lemma OffersOfSplice(b: seq<MatchScore>, k: nat)
    requires k < |b|
    ensures multiset(OffersOf(b)) == multiset(OffersOf(b[..k] + b[k + 1..])) + multiset{b[k].offer}
  {
    assert b == b[..k] + [b[k]] + b[k + 1..];
    OffersOfAppend(b[..k] + [b[k]], b[k + 1..]);
    OffersOfAppend(b[..k], [b[k]]);
    OffersOfAppend(b[..k], b[k + 1..]);
  }

  /** The warnings `select_best_offer` picks from a ranking with at least one element. */
  function RankingWarnings(ranked: seq<MatchScore>, threshold: real): seq<Warning>
    requires ranked != []
  {
    var best := ranked[0];
    var low := if best.score < threshold then [BelowThreshold(best.score, threshold)] else [];
    var close :=
      if |ranked| > 1 && ranked[1].score > best.score * 0.9
      then [AlternativeCandidate(ranked[1].offer.title, ranked[1].score)]
      else [];
    low + close
  }

  lemma SelectWarnings(ranked: seq<MatchScore>, threshold: real)
    requires ranked != []
    ensures var ws := RankingWarnings(ranked, threshold);
      var low := ranked[0].score < threshold;
      var close := |ranked| >= 2 && ranked[1].score > 0.9 * ranked[0].score;
      && (BelowThreshold(ranked[0].score, threshold) in ws <==> low)
      && ((exists w | w in ws :: w.AlternativeCandidate?) <==> close)
      && (close ==> AlternativeCandidate(ranked[1].offer.title, ranked[1].score) in ws)
      && (forall w | w in ws && w.AlternativeCandidate? ::
            close && w == AlternativeCandidate(ranked[1].offer.title, ranked[1].score))
      && |ws| == (if low then 1 else 0) + (if close then 1 else 0)
      && (low ==> ws[0] == BelowThreshold(ranked[0].score, threshold))
  {
    var ws := RankingWarnings(ranked, threshold);
    if |ranked| >= 2 && ranked[1].score > 0.9 * ranked[0].score {
      assert ws[|ws| - 1] == AlternativeCandidate(ranked[1].offer.title, ranked[1].score);
    }
  }

  /**
   * What `select_best_offer` promises of its answer `r` for the offers and their scores: the
   * first offer, in input order, of maximal score (`FirstBest`); a warning that the best score
   * is below the threshold exactly when it is, first; a warning naming the runner-up of the
   * ranking exactly when it scores more than 90% of the best; no other warning.
   */
  predicate BestOfScores(offers: seq<Offer>, scored: seq<MatchScore>, threshold: real, r: (Option<Offer>, seq<Warning>))
    requires offers != [] && |scored| == |offers|
  {
    var k := FirstBest(scored);
    var top := scored[k].score;
    var ranked := SortByScore(scored);
    var low := top < threshold;
    var close := |ranked| >= 2 && ranked[1].score > 0.9 * top;
    && r.0 == Some(offers[k])
    && (BelowThreshold(top, threshold) in r.1 <==> low)
    && ((exists w | w in r.1 :: w.AlternativeCandidate?) <==> close)
    && (close ==> AlternativeCandidate(ranked[1].offer.title, ranked[1].score) in r.1)
    && (forall w | w in r.1 && w.AlternativeCandidate? ::
          close && w == AlternativeCandidate(ranked[1].offer.title, ranked[1].score))
    && |r.1| == (if low then 1 else 0) + (if close then 1 else 0)
    && (low ==> r.1[0] == BelowThreshold(top, threshold))
  }

  /** `select_best_offer` on a non-empty list keeps every promise of `BestOfScores`. */
  lemma SelectBestOfferFacts(sim: Similarity, offers: seq<Offer>, query: string, brand: string, threshold: real)
    requires offers != []
    ensures BestOfScores(offers, Scored(sim, query, brand, offers), threshold,
                         SelectBestOffer(sim, offers, query, brand, threshold))
  {
    var sc := Scored(sim, query, brand, offers);
    var k := FirstBest(sc);
    SortHeadIsFirstBest(sc);
    ScoredAt(sim, query, brand, offers, k);
    SelectWarnings(SortByScore(sc), threshold);
  }

  /**
   * `match_offers_for_product` on a non-empty list returns the offers of the ranking: a
   * permutation of the input whose scores do not increase and in which offers of equal
   * score keep their input order. The best offer is the head of the ranking, and the
   * warnings are those of `select_best_offer` with the default threshold.
   */
  lemma MatchOffersFacts(sim: Similarity, offers: seq<Offer>, query: string, brand: string)
    requires offers != []
    ensures var r := MatchOffersForProduct(sim, offers, query, brand);
      var scored := Scored(sim, query, brand, offers);
      var ranked := SortByScore(scored);
      && r.1 == OffersOf(ranked)
      && multiset(r.1) == multiset(offers)
      && NonIncreasing(ranked)
      && (forall v :: WithScore(ranked, v) == WithScore(scored, v))
      && r.0 == Some(r.1[0])
      && r.2 == SelectBestOffer(sim, offers, query, brand, DefaultThreshold).1
  {
    var sc := Scored(sim, query, brand, offers);
    var ranked := SortByScore(sc);
    SortIsStable(sc);
    OffersOfPermutation(ranked, sc);
    OffersOfScored(sim, query, brand, offers);
  }
}

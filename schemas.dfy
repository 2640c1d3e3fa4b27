/**
 * The records the API exchanges (pydantic models), with their field bounds as subset types,
 * their defaults as plain functions, and the validation that pydantic applies when one is built
 * from unchecked values.
 */
module Schemas {
  import opened Wrappers

  /** A rating on the 0-5 scale (`Field(ge=0, le=5)`). */
  type Rating = r: real | 0.0 <= r <= 5.0

  /** A percentage (`Field(ge=0, le=100)`); also the range of the fuzzy-match ratios. */
  type Percent = r: real | 0.0 <= r <= 100.0

  /** One product offer from one source. */
  datatype Offer = Offer(
    source: string,
    title: string,
    url: string,
    priceKrw: Option<int>,
    rating: Option<Rating>,
    reviewCount: Option<nat>,
    imageUrl: Option<string>,
    fetchedAt: string)

  datatype Sentiment = Sentiment(positivePct: Percent, negativePct: Percent, neutralPct: Percent)

  /**
   * An entry of the key-features, pros, cons and evidence lists. The entries the code builds
   * with number formatting (`f"최저가 {price:,}원"`, ...) keep the number instead of the text.
   */
  datatype Note =
    | Says(text: string)
    | LowestPrice(krw: int)          // "최저가 {krw:,}원"
    | RatingOutOfFive(rating: real)  // "평점 {rating:.1f}/5.0"
    | ReviewTotal(count: int)        // "리뷰 {count:,}개"
    | ProductMatch(name: string)     // "제품 매칭: {name}"

  datatype ProductSummary = ProductSummary(
    brand: string,
    query: string,
    bestOffer: Option<Offer>,
    offers: seq<Offer>,
    keyFeatures: seq<Note>,
    pros: seq<Note>,
    cons: seq<Note>,
    sentiment: Option<Sentiment>,
    evidence: seq<Note>)

  /** Differences A - B between the best offers of two summaries. */
  datatype Comparison = Comparison(
    ratingDiff: Option<real>,
    priceDiffKrw: Option<int>,
    reviewCountDiff: Option<int>)

  /** The warnings the core emits, one constructor per message; numbers are kept unformatted. */
  datatype Warning =
    | NoOffersFound                                      // "No offers found"
    | NoOffersAvailable                                  // "No offers available"
    | BelowThreshold(score: real, threshold: real)       // "Best match score (..) is below threshold (..). ..."
    | AlternativeCandidate(title: string, score: real)   // "Alternative candidate: '..' (score: ..)"
    | CachedData(count: nat)                             // "Data from DynamoDB cache (n offers)"
    | NoCachedData                                       // "No cached data in DynamoDB. ..."
    | DirectScrape                                       // "Data from direct Danawa scraping"
    | NoScrapeResults                                    // "No results from Danawa scraping"
    | ScrapingError(message: string)                     // "Scraping error: .."

  /** The only source a request may name (`List[Literal["danawa"]]`). */
  datatype SourceName = Danawa

  datatype CompareRequest = CompareRequest(
    brandA: string,
    productA: string,
    brandB: string,
    productB: string,
    sources: seq<SourceName>,
    forceRefresh: bool)

  datatype CompareResponse = CompareResponse(
    requestId: string,
    productA: ProductSummary,
    productB: ProductSummary,
    comparison: Comparison,
    warnings: seq<Warning>,
    cached: bool)

  datatype SchemaError = RatingOutOfRange | NegativeReviewCount | PercentOutOfRange | UnknownSource(name: string)

  /** `Offer(source=.., title=.., url=.., fetched_at=..)`: every optional field left at `None`. */
  function NewOffer(source: string, title: string, url: string, fetchedAt: string): Offer {
    Offer(source, title, url, None, None, None, None, fetchedAt)
  }

  /** `Offer(...)` from unchecked values: pydantic rejects a rating outside [0,5] or a negative review count. */
  function ValidateOffer(
    source: string, title: string, url: string, priceKrw: Option<int>,
    rating: Option<real>, reviewCount: Option<int>, imageUrl: Option<string>, fetchedAt: string
  ): (r: Result<Offer, SchemaError>)
    ensures r.Ok? <==>
      (rating.Some? ==> 0.0 <= rating.value <= 5.0) && (reviewCount.Some? ==> reviewCount.value >= 0)
    ensures r.Ok? ==>
      && r.value.source == source && r.value.title == title && r.value.url == url
      && r.value.priceKrw == priceKrw && r.value.imageUrl == imageUrl && r.value.fetchedAt == fetchedAt
      && (r.value.rating.Some? <==> rating.Some?) && (rating.Some? ==> r.value.rating.value == rating.value)
      && (r.value.reviewCount.Some? <==> reviewCount.Some?)
      && (reviewCount.Some? ==> r.value.reviewCount.value == reviewCount.value)
  {
    if rating.Some? && !(0.0 <= rating.value <= 5.0) then Err(RatingOutOfRange)
    else if reviewCount.Some? && reviewCount.value < 0 then Err(NegativeReviewCount)
    else
      var checkedRating: Option<Rating> := if rating.Some? then Some(rating.value) else None;
      var checkedReviews: Option<nat> := if reviewCount.Some? then Some(reviewCount.value) else None;
      Ok(Offer(source, title, url, priceKrw, checkedRating, checkedReviews, imageUrl, fetchedAt))
  }

  /** A rating of 6.0 is refused, as the schema's test expects. */
  lemma RatingSixRejected(source: string, title: string, url: string, fetchedAt: string)
    ensures ValidateOffer(source, title, url, None, Some(6.0), None, None, fetchedAt) == Err(RatingOutOfRange)
  {
  }

  /** `Sentiment(...)` from unchecked values: each percentage must lie in [0,100]. */
  function ValidateSentiment(positive: real, negative: real, neutral: real): (r: Result<Sentiment, SchemaError>)
    ensures r.Ok? <==> 0.0 <= positive <= 100.0 && 0.0 <= negative <= 100.0 && 0.0 <= neutral <= 100.0
    ensures r.Ok? ==> r.value.positivePct == positive && r.value.negativePct == negative && r.value.neutralPct == neutral
  {
    if 0.0 <= positive <= 100.0 && 0.0 <= negative <= 100.0 && 0.0 <= neutral <= 100.0 then
      Ok(Sentiment(positive, negative, neutral))
    else Err(PercentOutOfRange)
  }

  /** `Sentiment()`: every percentage 0.0. */
  function DefaultSentiment(): Sentiment {
    Sentiment(0.0, 0.0, 0.0)
  }

  /** `ProductSummary(brand=.., query=..)`: no best offer, empty lists, no sentiment. */
  function NewSummary(brand: string, query: string): ProductSummary {
    ProductSummary(brand, query, None, [], [], [], [], None, [])
  }

  /** `Comparison()`: no differences. */
  function NoComparison(): Comparison {
    Comparison(None, None, None)
  }

  /** `CompareResponse(request_id=.., product_a=.., product_b=.., comparison=..)`: not cached, no warnings. */
  function NewResponse(requestId: string, a: ProductSummary, b: ProductSummary, comparison: Comparison): CompareResponse {
    CompareResponse(requestId, a, b, comparison, [], false)
  }

  /** `CompareRequest()` */
  function DefaultRequest(): CompareRequest {
    CompareRequest("농심", "신라면", "오뚜기", "진라면 매운맛", [Danawa], false)
  }

  /**
   * The defaults meet the schemas' own constraints: building an offer with every optional
   * field left out is building it through validation, the default sentiment passes the
   * percentage checks, and every default source is the one source name admitted.
   */
  lemma DefaultsPassChecks(source: string, title: string, url: string, fetchedAt: string)
    ensures ValidateOffer(source, title, url, None, None, None, None, fetchedAt) == Ok(NewOffer(source, title, url, fetchedAt))
    ensures ValidateSentiment(0.0, 0.0, 0.0) == Ok(DefaultSentiment())
    ensures DefaultRequest().sources != []
    ensures forall i | 0 <= i < |DefaultRequest().sources| :: ValidateSource("danawa") == Ok(DefaultRequest().sources[i])
  {
  }

  /** A response built from its required fields carries them unchanged, with no warnings, and is not marked cached. */
  lemma NewResponseDefaults(requestId: string, a: ProductSummary, b: ProductSummary, comparison: Comparison)
    ensures var r := NewResponse(requestId, a, b, comparison);
      r.requestId == requestId && r.productA == a && r.productB == b && r.comparison == comparison
      && r.warnings == [] && !r.cached
  {
  }

  /** A `sources` entry from unchecked text: only "danawa" is admitted. */
  function ValidateSource(name: string): (r: Result<SourceName, SchemaError>)
    ensures r.Ok? <==> name == "danawa"
  {
    if name == "danawa" then Ok(Danawa) else Err(UnknownSource(name))
  }
}

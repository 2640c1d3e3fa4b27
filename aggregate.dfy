/**
 * Assembly of one product's summary and of the comparison between two: where the offers
 * come from (the cache table or a direct scrape), the ranking of those offers, and the
 * differences between the two best offers.
 */
module Aggregate {
  import opened Wrappers
  import opened Schemas
  import opened Matching

  /** The two settings read from the environment at start-up. */
  datatype Environment = Environment(isLambda: bool, useDynamoDb: bool)

  /** What the direct scrape gave, had it been run: its offers, or the error it raised. */
  datatype ScrapeOutcome = Scraped(offers: seq<Offer>) | ScrapeFailed(message: string)

  /**
   * `fetch_from_sources`: the offers of the cache table when the cache is in use and has
   * any; otherwise (outside Lambda) those of a direct scrape. `cached` is what the table
   * lookup returned (empty when it failed); `scrape` is what the scrape gives when it runs.
   */
  function FetchFromSources(env: Environment, cached: seq<Offer>, scrape: ScrapeOutcome)
    : (r: (seq<Offer>, seq<Warning>))
    ensures r.0 == [] || r.0 == cached || (scrape.Scraped? && r.0 == scrape.offers)
    ensures 1 <= |r.1| <= 2
    ensures r.0 != [] ==> |r.1| == 1
  {
    var useCache := env.isLambda || env.useDynamoDb;
    if useCache && cached != [] then (cached, [CachedData(|cached|)])
    else
      var warnings := if useCache then [NoCachedData] else [];
      if useCache && env.isLambda then ([], warnings)
      else match scrape
        case Scraped(offers) =>
          if offers != [] then (offers, [DirectScrape]) else ([], warnings + [NoScrapeResults])
        case ScrapeFailed(message) => ([], warnings + [ScrapingError(message)])
  }

  /** With the cache in use and holding offers, those offers are returned with one warning saying so. */
  lemma CachedOffersWin(env: Environment, cached: seq<Offer>, scrape: ScrapeOutcome)
    requires env.isLambda || env.useDynamoDb
    requires cached != []
    ensures FetchFromSources(env, cached, scrape) == (cached, [CachedData(|cached|)])
  {
  }

  /**
   * In Lambda with an empty cache nothing is scraped: the result is no offers and only the
   * "no cached data" warning, whatever a scrape would have given.
   */
  lemma LambdaNeverScrapes(env: Environment, cached: seq<Offer>, s1: ScrapeOutcome, s2: ScrapeOutcome)
    requires env.isLambda && cached == []
    ensures FetchFromSources(env, cached, s1) == FetchFromSources(env, cached, s2) == ([], [NoCachedData])
  {
  }

  /**
   * A scrape that finds offers returns them with only the scrape warning: the earlier
   * "no cached data" warning is dropped. An empty or failed scrape returns no offers and
   * keeps it.
   */
  lemma ScrapeOutcomes(env: Environment, cached: seq<Offer>, scrape: ScrapeOutcome)
    requires !env.isLambda && (!env.useDynamoDb || cached == [])
    ensures var r := FetchFromSources(env, cached, scrape);
      var earlier := if env.useDynamoDb then [NoCachedData] else [];
      && (scrape.Scraped? && scrape.offers != [] ==> r == (scrape.offers, [DirectScrape]))
      && (scrape.Scraped? && scrape.offers == [] ==> r == ([], earlier + [NoScrapeResults]))
      && (scrape.ScrapeFailed? ==> r == ([], earlier + [ScrapingError(scrape.message)]))
  {
  }

  /**
   * `aggregate_product_data`: fetch, rank with `match_offers_for_product`, and build the
   * summary with the language-model fields left empty.
   */
  function AggregateProductData(
    sim: Similarity, env: Environment, cached: seq<Offer>, scrape: ScrapeOutcome, query: string, brand: string
  ): (ProductSummary, seq<Warning>)
  {
    var (offers, fetchWarnings) := FetchFromSources(env, cached, scrape);
    var (best, sorted, matchWarnings) := MatchOffersForProduct(sim, offers, query, brand);
    (ProductSummary(brand, query, best, sorted, [], [], [], None, []), fetchWarnings + matchWarnings)
  }

  /**
   * The warnings are the fetch warnings followed by the matching warnings; the summary
   * carries the best offer and the ranking, and its other fields are the defaults. With no
   * offers fetched, the summary is the empty one.
   */
  lemma AggregateFacts(
    sim: Similarity, env: Environment, cached: seq<Offer>, scrape: ScrapeOutcome, query: string, brand: string)
    ensures var r := AggregateProductData(sim, env, cached, scrape, query, brand);
      var fetched := FetchFromSources(env, cached, scrape);
      var matched := MatchOffersForProduct(sim, fetched.0, query, brand);
      && r.1 == fetched.1 + matched.2
      && r.0 == NewSummary(brand, query).(bestOffer := matched.0, offers := matched.1)
      && (fetched.0 == [] ==> r.0 == NewSummary(brand, query) && r.1 == fetched.1 + [NoOffersAvailable])
      && (fetched.0 != [] ==> r.0.bestOffer.Some? && r.0.bestOffer == Some(r.0.offers[0]))
  {
    var fetched := FetchFromSources(env, cached, scrape);
    if fetched.0 != [] {
      MatchOffersFacts(sim, fetched.0, query, brand);
    }
  }

  /** `A - B` for two present values, else `None`. */
  function Diff(a: Option<int>, b: Option<int>): (d: Option<int>)
    ensures d.Some? <==> a.Some? && b.Some?
    ensures d.Some? ==> d.value + b.value == a.value
  {
    if a.Some? && b.Some? then Some(a.value - b.value) else None
  }

  /**
   * `calculate_comparison`: with both best offers present, each difference is taken on its
   * own, when both sides have the field; otherwise all three are absent.
   */
  function CalculateComparison(a: ProductSummary, b: ProductSummary): (c: Comparison)
    ensures a.bestOffer.None? || b.bestOffer.None? ==> c == NoComparison()
    ensures a.bestOffer.Some? && b.bestOffer.Some? ==>
      var x, y := a.bestOffer.value, b.bestOffer.value;
      && (c.ratingDiff.Some? <==> x.rating.Some? && y.rating.Some?)
      && (c.ratingDiff.Some? ==> c.ratingDiff.value + y.rating.value == x.rating.value)
      && (c.priceDiffKrw.Some? <==> x.priceKrw.Some? && y.priceKrw.Some?)
      && (c.priceDiffKrw.Some? ==> c.priceDiffKrw.value + y.priceKrw.value == x.priceKrw.value)
      && (c.reviewCountDiff.Some? <==> x.reviewCount.Some? && y.reviewCount.Some?)
      && (c.reviewCountDiff.Some? ==> c.reviewCountDiff.value + y.reviewCount.value == x.reviewCount.value)
  {
    if a.bestOffer.Some? && b.bestOffer.Some? then
      var x, y := a.bestOffer.value, b.bestOffer.value;
      var ratingDiff :=
        if x.rating.Some? && y.rating.Some? then Some(x.rating.value - y.rating.value) else None;
      var reviewsA: Option<int> := if x.reviewCount.Some? then Some(x.reviewCount.value) else None;
      var reviewsB: Option<int> := if y.reviewCount.Some? then Some(y.reviewCount.value) else None;
      Comparison(ratingDiff, Diff(x.priceKrw, y.priceKrw), Diff(reviewsA, reviewsB))
    else NoComparison()
  }

  /** Comparing B with A negates every difference of comparing A with B. */
  lemma ComparisonAntisymmetric(a: ProductSummary, b: ProductSummary)
    ensures var ab, ba := CalculateComparison(a, b), CalculateComparison(b, a);
      && (ab.ratingDiff.Some? <==> ba.ratingDiff.Some?)
      && (ab.ratingDiff.Some? ==> ab.ratingDiff.value == -ba.ratingDiff.value)
      && (ab.priceDiffKrw.Some? <==> ba.priceDiffKrw.Some?)
      && (ab.priceDiffKrw.Some? ==> ab.priceDiffKrw.value == -ba.priceDiffKrw.value)
      && (ab.reviewCountDiff.Some? <==> ba.reviewCountDiff.Some?)
      && (ab.reviewCountDiff.Some? ==> ab.reviewCountDiff.value == -ba.reviewCountDiff.value)
  {
  }

  /**
   * A summary built from brand and query alone has no best offer and no offers, so it
   * compares to nothing on either side.
   */
  lemma FreshSummaryComparesToNothing(brand: string, query: string, other: ProductSummary)
    ensures NewSummary(brand, query).bestOffer.None? && NewSummary(brand, query).offers == []
    ensures CalculateComparison(NewSummary(brand, query), other) == NoComparison()
    ensures CalculateComparison(other, NewSummary(brand, query)) == NoComparison()
  {
  }

  /** A summary compared with itself differs in nothing it has. */
  lemma ComparisonWithItself(a: ProductSummary)
    ensures var c := CalculateComparison(a, a);
      && (c.priceDiffKrw.Some? ==> c.priceDiffKrw.value == 0)
      && (c.reviewCountDiff.Some? ==> c.reviewCountDiff.value == 0)
      && (c.ratingDiff.Some? ==> c.ratingDiff.value == 0.0)
  {
  }
}

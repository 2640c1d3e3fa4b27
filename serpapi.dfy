/**
 * The mapping of a Naver Shopping search response, as decoded JSON, to offers: items
 * without a title are skipped, every other item becomes one offer in the same order.
 * The HTTP request that fetched the response and the clock that stamps the offers are
 * outside: the response and the timestamp are parameters.
 */
module SerpApi {
  import opened Wrappers
  import opened Text
  import opened Schemas
  import opened Patterns
  import opened Utils

  const SourceTag: string := "naver_serpapi"

  /**
   * The literal the price clean-up deletes: the three characters Ï, õ and ê, which is how
   * the UTF-8 bytes of "원" read when decoded as Mac Roman.
   */
  const WonMisread: string := "Ïõê"

  /** Why a response cannot become offers (the exception the mapping raises). */
  datatype ParseError =
    | NotIterable                       // `shopping_results` is a number, a boolean or null
    | ItemNotObject                     // an item has no `.get` (a string or a key)
    | FieldNotText(field: string)       // `title`, `link` or `thumbnail` is not a string
    | Invalid(reason: SchemaError)      // `Offer(...)` refuses a rating or a review count

  /** Python truthiness of a JSON value. */
  predicate Truthy(v: JsonValue) {
    match v
    case JNull => false
    case JBool(b) => b
    case JInt(i) => i != 0
    case JFloat(f) => f != 0.0
    case JStr(s) => s != ""
    case JList(items) => items != []
    case JObject(fields) => fields != map[]
  }

  /** `d.get(key, default)` */
  function Get(fields: map<string, JsonValue>, key: string, default: JsonValue): JsonValue {
    if key in fields then fields[key] else default
  }

  /** `s.replace(pat, "")`: occurrences of `pat` deleted left to right, without overlap. */
  function RemoveAll(s: string, pat: string): (r: string)
    requires pat != []
    ensures |r| <= |s|
  {
    if s == [] then []
    else if pat <= s then RemoveAll(s[|pat|..], pat)
    else [s[0]] + RemoveAll(s[1..], pat)
  }

  /** The items `for item in shopping_results` visits, or the error iterating them raises. */
  function ResultItems(data: map<string, JsonValue>): Result<seq<JsonValue>, ParseError> {
    match Get(data, "shopping_results", JList([]))
    case JList(items) => Ok(items)
    case JStr(s) => if s == "" then Ok([]) else Err(ItemNotObject)
    case JObject(fields) => if fields == map[] then Ok([]) else Err(ItemNotObject)
    case _ => Err(NotIterable)
  }

  /** The price cell: a string loses the misread currency literal and commas and is stripped. */
  function SerpPrice(price: JsonValue): Option<int> {
    match price
    case JStr(s) => SafeInt(JStr(Strip(RemoveCommas(RemoveAll(s, WonMisread)))))
    case _ => SafeInt(price)
  }

  /** A JSON value where the schema wants a string. */
  function TextField(v: JsonValue, field: string): Result<string, ParseError> {
    if v.JStr? then Ok(v.s) else Err(FieldNotText(field))
  }

  /** A JSON value where the schema wants an optional string. */
  function OptionalText(v: JsonValue, field: string): Result<Option<string>, ParseError> {
    match v
    case JNull => Ok(None)
    case JStr(s) => Ok(Some(s))
    case _ => Err(FieldNotText(field))
  }

  /** `normalize_rating` on the 5-point scale, with its result widened back to a real. */
  function FiveStarRating(v: JsonValue): Option<real> {
    match NormalizeRating(SafeFloat(v), 5.0)
    case None => None
    case Some(r) => Some(r as real)
  }

  /**
   * One pass of the loop body: `None` when the item has a missing or falsy title (it is
   * skipped), otherwise the offer built from its fields, or the error building it raises.
   */
  function ItemOffer(item: JsonValue, fetchedAt: string): Result<Option<Offer>, ParseError> {
    if !item.JObject? then Err(ItemNotObject)
    else
      var fields := item.fields;
      var title := Get(fields, "title", JStr(""));
      if !Truthy(title) then Ok(None)
      else match (TextField(title, "title"), TextField(Get(fields, "link", JStr("")), "link"),
                  OptionalText(Get(fields, "thumbnail", JNull), "thumbnail"))
        case (Err(e), _, _) => Err(e)
        case (_, Err(e), _) => Err(e)
        case (_, _, Err(e)) => Err(e)
        case (Ok(t), Ok(url), Ok(image)) =>
          match ValidateOffer(SourceTag, t, url, SerpPrice(Get(fields, "price", JStr(""))),
                              FiveStarRating(Get(fields, "rating", JNull)),
                              SafeInt(Get(fields, "reviews", JNull)), image, fetchedAt)
          case Err(e) => Err(Invalid(e))
          case Ok(offer) => Ok(Some(offer))
  }

  /** The offers of `items` in order, or the first error. */
  function MapItems(items: seq<JsonValue>, fetchedAt: string): Result<seq<Offer>, ParseError>
    decreases |items|
  {
    if items == [] then Ok([])
    else match MapItems(items[..|items| - 1], fetchedAt)
      case Err(e) => Err(e)
      case Ok(prev) =>
        match ItemOffer(items[|items| - 1], fetchedAt)
        case Err(e) => Err(e)
        case Ok(None) => Ok(prev)
        case Ok(Some(o)) => Ok(prev + [o])
  }

  /** `_parse_serpapi_response(data)` as a value. */
  function ParseResponse(data: map<string, JsonValue>, fetchedAt: string): Result<seq<Offer>, ParseError> {
    match ResultItems(data)
    case Err(e) => Err(e)
    case Ok(items) => MapItems(items, fetchedAt)
  }

  /**
   * `_parse_serpapi_response`: walks the result items in order, skipping untitled ones and
   * appending the offer of every other one; the first item that cannot be mapped ends the
   * walk with its error.
   */
  method ParseSerpApiResponse(data: map<string, JsonValue>, fetchedAt: string)
    returns (r: Result<seq<Offer>, ParseError>)
    ensures r == ParseResponse(data, fetchedAt)
  {
    var shoppingResults := ResultItems(data);
    if shoppingResults.Err? {
      return Err(shoppingResults.error);
    }
    var items := shoppingResults.value;
    var offers: seq<Offer> := [];
    var i := 0;
    while i < |items|
      invariant 0 <= i <= |items|
      invariant MapItems(items[..i], fetchedAt) == Ok(offers)
    {
      assert items[..i + 1][..i] == items[..i];
      var step := ItemOffer(items[i], fetchedAt);
      if step.Err? {
        ErrorPersists(items, i + 1, fetchedAt);
        assert items[..|items|] == items;
        return Err(step.error);
      }
      if step.value.Some? {
        offers := offers + [step.value.value];
      }
      i := i + 1;
    }
    assert items[..i] == items;
    return Ok(offers);
  }

  /** Once a prefix of the items fails, the whole list fails with the same error. */
  lemma {:induction false} ErrorPersists(items: seq<JsonValue>, k: nat, fetchedAt: string)
    requires k <= |items| && MapItems(items[..k], fetchedAt).Err?
    ensures MapItems(items, fetchedAt) == MapItems(items[..k], fetchedAt)
    decreases |items| - k
  {
    if k < |items| {
      assert items[..k + 1][..k] == items[..k];
      ErrorPersists(items, k + 1, fetchedAt);
    } else {
      assert items[..k] == items;
    }
  }

  /** The item at position `j` is titled and maps to an offer. */
  predicate Yields(items: seq<JsonValue>, j: nat, fetchedAt: string)
    requires j < |items|
  {
    ItemOffer(items[j], fetchedAt).Ok? && ItemOffer(items[j], fetchedAt).value.Some?
  }

  /**
   * `idx` picks, at increasing positions of `items`, the items whose offers are `offers`,
   * one for one, and it picks every item that yields an offer.
   */
  predicate Picks(items: seq<JsonValue>, offers: seq<Offer>, idx: seq<nat>, fetchedAt: string) {
    && |idx| == |offers|
    && (forall k | 0 <= k < |idx| :: idx[k] < |items| && ItemOffer(items[idx[k]], fetchedAt) == Ok(Some(offers[k])))
    && (forall k, l | 0 <= k < l < |idx| :: idx[k] < idx[l])
    && (forall j | 0 <= j < |items| && Yields(items, j, fetchedAt) :: j in idx)
  }

  lemma PicksExtend(items: seq<JsonValue>, offers: seq<Offer>, idx: seq<nat>, fetchedAt: string, o: Offer)
    requires items != [] && Picks(items[..|items| - 1], offers, idx, fetchedAt)
    requires ItemOffer(items[|items| - 1], fetchedAt) == Ok(Some(o))
    ensures Picks(items, offers + [o], idx + [|items| - 1], fetchedAt)
  {
    var front := items[..|items| - 1];
    assert forall k | 0 <= k < |idx| :: front[idx[k]] == items[idx[k]];
    forall j | 0 <= j < |items| && Yields(items, j, fetchedAt) ensures j in idx + [|items| - 1] {
      if j < |items| - 1 {
        assert front[j] == items[j];
        assert Yields(front, j, fetchedAt);
      }
    }
  }

  lemma PicksWiden(items: seq<JsonValue>, offers: seq<Offer>, idx: seq<nat>, fetchedAt: string)
    requires items != [] && Picks(items[..|items| - 1], offers, idx, fetchedAt)
    requires ItemOffer(items[|items| - 1], fetchedAt) == Ok(None)
    ensures Picks(items, offers, idx, fetchedAt)
  {
    var front := items[..|items| - 1];
    assert forall k | 0 <= k < |idx| :: front[idx[k]] == items[idx[k]];
    forall j | 0 <= j < |items| && Yields(items, j, fetchedAt) ensures j in idx {
      assert front[j] == items[j];
      assert Yields(front, j, fetchedAt);
    }
  }

  /**
   * The offers come from the items in order: each is the offer of a distinct item, at
   * increasing positions, so there are never more offers than items; and every item that
   * yields an offer is among them.
   */
  lemma {:induction false} MapItemsInOrder(items: seq<JsonValue>, fetchedAt: string)
    ensures MapItems(items, fetchedAt).Ok? ==>
      exists idx: seq<nat> :: Picks(items, MapItems(items, fetchedAt).value, idx, fetchedAt)
    ensures MapItems(items, fetchedAt).Ok? ==> |MapItems(items, fetchedAt).value| <= |items|
    decreases |items|
  {
    if items != [] && MapItems(items, fetchedAt).Ok? {
      var front := items[..|items| - 1];
      MapItemsInOrder(front, fetchedAt);
      var prev := MapItems(front, fetchedAt).value;
      var idx: seq<nat> :| Picks(front, prev, idx, fetchedAt);
      match ItemOffer(items[|items| - 1], fetchedAt)
      case Ok(None) =>
        PicksWiden(items, prev, idx, fetchedAt);
        assert MapItems(items, fetchedAt).value == prev;
        assert Picks(items, MapItems(items, fetchedAt).value, idx, fetchedAt);
      case Ok(Some(o)) =>
        PicksExtend(items, prev, idx, fetchedAt, o);
        assert MapItems(items, fetchedAt).value == prev + [o];
        assert Picks(items, MapItems(items, fetchedAt).value, idx + [|items| - 1], fetchedAt);
    } else if items == [] {
      assert Picks(items, [], [], fetchedAt);
    }
  }

  /** Every offer produced carries the source tag and a non-empty title. */
  lemma MappedOffersTagged(items: seq<JsonValue>, fetchedAt: string)
    ensures MapItems(items, fetchedAt).Ok? ==>
      var offers := MapItems(items, fetchedAt).value;
      forall k | 0 <= k < |offers| :: offers[k].source == SourceTag && offers[k].title != ""
        && offers[k].fetchedAt == fetchedAt
  {
    MapItemsInOrder(items, fetchedAt);
    if MapItems(items, fetchedAt).Ok? {
      var offers := MapItems(items, fetchedAt).value;
      var idx: seq<nat> :| Picks(items, offers, idx, fetchedAt);
      forall k | 0 <= k < |offers|
        ensures offers[k].source == SourceTag && offers[k].title != "" && offers[k].fetchedAt == fetchedAt
      {
        ItemOfferFacts(items[idx[k]], fetchedAt);
      }
    }
  }

  /** What one mapped item gives: the tag as source, its title, its link or "", its thumbnail or nothing. */
  lemma ItemOfferFacts(item: JsonValue, fetchedAt: string)
    ensures ItemOffer(item, fetchedAt).Ok? && ItemOffer(item, fetchedAt).value.Some? ==>
      var o := ItemOffer(item, fetchedAt).value.value;
      var fields := item.fields;
      && o.source == SourceTag && o.fetchedAt == fetchedAt
      && "title" in fields && fields["title"] == JStr(o.title) && o.title != ""
      && ("link" !in fields ==> o.url == "")
      && ("link" in fields ==> fields["link"] == JStr(o.url))
      && ("thumbnail" !in fields ==> o.imageUrl == None)
      && ("thumbnail" in fields && fields["thumbnail"].JStr? ==> o.imageUrl == Some(fields["thumbnail"].s))
      && o.rating == NormalizeRating(SafeFloat(Get(fields, "rating", JNull)), 5.0)
      && o.priceKrw == SerpPrice(Get(fields, "price", JStr("")))
      && (o.reviewCount.Some? <==> SafeInt(Get(fields, "reviews", JNull)).Some?)
      && (o.reviewCount.Some? ==> o.reviewCount.value == SafeInt(Get(fields, "reviews", JNull)).value)
  {
    if ItemOffer(item, fetchedAt).Ok? && ItemOffer(item, fetchedAt).value.Some? {
      var fields := item.fields;
      var rating := Get(fields, "rating", JNull);
      assert NormalizeRating(SafeFloat(rating), 5.0).Some? <==> FiveStarRating(rating).Some?;
    }
  }

  /**
   * The offer of an item priced as digits followed by the won sign has no price, because
   * the clean-up deletes a different literal.
   */
  lemma WonPricedOfferUnpriced(fields: map<string, JsonValue>, fetchedAt: string, n: nat)
    requires "price" in fields && fields["price"] == JStr(NatText(n) + "원")
    ensures ItemOffer(JObject(fields), fetchedAt).Ok? && ItemOffer(JObject(fields), fetchedAt).value.Some? ==>
      ItemOffer(JObject(fields), fetchedAt).value.value.priceKrw == None
  {
    ItemOfferFacts(JObject(fields), fetchedAt);
    WonSignKeepsPriceUnread(n);
  }

  /** The offer of an item priced as digits followed by the deleted literal has that number as its price. */
  lemma MisreadPricedOfferPriced(fields: map<string, JsonValue>, fetchedAt: string, n: nat)
    requires "price" in fields && fields["price"] == JStr(NatText(n) + WonMisread)
    ensures ItemOffer(JObject(fields), fetchedAt).Ok? && ItemOffer(JObject(fields), fetchedAt).value.Some? ==>
      ItemOffer(JObject(fields), fetchedAt).value.value.priceKrw == Some(n)
  {
    ItemOfferFacts(JObject(fields), fetchedAt);
    MisreadSignDropped(n);
  }

  /** An item whose title is missing, empty or otherwise falsy is skipped. */
  lemma UntitledSkipped(fields: map<string, JsonValue>, fetchedAt: string)
    requires "title" !in fields || !Truthy(fields["title"])
    ensures ItemOffer(JObject(fields), fetchedAt) == Ok(None)
  {
  }

  /** A response without results, or with an empty result list, maps to no offers. */
  lemma NoResultsNoOffers(data: map<string, JsonValue>, fetchedAt: string)
    requires "shopping_results" !in data || data["shopping_results"] == JList([])
    ensures ParseResponse(data, fetchedAt) == Ok([])
  {
  }

  /** `RemoveAll` leaves a text that does not hold the pattern's first character as it is. */
  lemma {:induction false} RemoveAllAbsent(s: string, pat: string)
    requires pat != [] && pat[0] !in s
    ensures RemoveAll(s, pat) == s
  {
    if s != [] {
      assert s[0] in s;
      assert forall c | c in s[1..] :: c in s;
      RemoveAllAbsent(s[1..], pat);
    }
  }

  /** A trailing occurrence of the pattern is deleted. */
  lemma {:induction false} RemoveAllTrailing(s: string, pat: string)
    requires pat != [] && pat[0] !in s
    ensures RemoveAll(s + pat, pat) == s
  {
    if s == [] {
      assert [] + pat == pat && pat[|pat|..] == [];
    } else {
      assert s[0] in s;
      assert (s + pat)[1..] == s[1..] + pat;
      assert !(pat <= s + pat) by {
        assert (s + pat)[0] == s[0];
      }
      RemoveAllTrailing(s[1..], pat);
      assert s == [s[0]] + s[1..];
    }
  }

  /** Digits followed by a non-digit other than a dot do not read as a number. */
  lemma DigitsThenUnit(n: nat, unit: char)
    requires !IsDigit(unit) && unit != '.' && unit != ',' && !IsSpace(unit)
    ensures SafeInt(JStr(NatText(n) + [unit])) == None
  {
    var d := NatText(n);
    DigitsUnitClean(d, unit);
    DigitsUnitParse(d, unit);
  }

  lemma DigitsUnitClean(d: string, unit: char)
    requires d != [] && AllDigits(d) && unit != ',' && !IsSpace(unit)
    ensures Strip(RemoveCommas(d + [unit])) == d + [unit]
  {
    var t := d + [unit];
    DigitsHaveNoComma(d);
    assert ',' !in t by {
      forall k | 0 <= k < |t| ensures t[k] != ',' {
        if k < |d| { assert t[k] == d[k]; }
      }
    }
    assert t[0] == d[0] && IsDigit(d[0]);
    CleanAlready(t);
  }

  lemma DigitsUnitParse(d: string, unit: char)
    requires d != [] && AllDigits(d) && !IsDigit(unit) && unit != '.'
    ensures ParseFloat(d + [unit]) == None
  {
    var t := d + [unit];
    assert t[0] == d[0] && IsDigit(d[0]);
    assert t[|d|] == unit;
    DigitsPrefixEnd(t, |d|);
    UnsignedStopsAt(t, |d|);
  }

  lemma UnsignedStopsAt(t: string, n: nat)
    requires n < |t| && DigitsEnd(t, 0) == n && t[n] != '.'
    ensures ParseUnsigned(t) == None
  {
  }

  /** Cleaning a price text a second time changes nothing. */
  lemma CleanTwice(s: string)
    ensures Strip(RemoveCommas(Strip(RemoveCommas(s)))) == Strip(RemoveCommas(s))
  {
    var t := Strip(RemoveCommas(s));
    StripFacts(RemoveCommas(s));
    assert ',' !in t;
    NoCommasIn(t);
    if t != [] {
      var d := DropSpaces(RemoveCommas(s));
      assert t == d[..|t|];
      assert t[0] == d[0];
      StripUnpadded(t);
    }
  }

  /** A price text without the misread literal reads as `safe_int` reads it. */
  lemma SerpPriceOfText(s: string)
    requires WonMisread[0] !in s
    ensures SerpPrice(JStr(s)) == SafeInt(JStr(s))
  {
    RemoveAllAbsent(s, WonMisread);
    CleanTwice(s);
    SameCleanText(Strip(RemoveCommas(s)), s);
  }

  /** A price text ending in the misread literal reads as the text before it. */
  lemma SerpPriceTrailing(s: string)
    requires WonMisread[0] !in s
    ensures SerpPrice(JStr(s + WonMisread)) == SafeInt(JStr(s))
  {
    var t := s + WonMisread;
    RemoveAllTrailing(s, WonMisread);
    assert RemoveAll(t, WonMisread) == s;
    var clean := Strip(RemoveCommas(s));
    assert SerpPrice(JStr(t)) == SafeInt(JStr(clean));
    CleanTwice(s);
    SameCleanText(clean, s);
  }

  /** A comma in a price text is ignored, as a thousands separator would be. */
  lemma SerpPriceCommaIgnored(a: string, b: string)
    requires WonMisread[0] !in a && WonMisread[0] !in b
    ensures SerpPrice(JStr(a + "," + b)) == SerpPrice(JStr(a + b))
  {
    assert WonMisread[0] !in a + "," + b;
    assert WonMisread[0] !in a + b;
    SerpPriceOfText(a + "," + b);
    SerpPriceOfText(a + b);
    CommaIgnored(a, b);
  }

  /** A price written with the literal the clean-up deletes reads as its number. */
  lemma MisreadSignDropped(n: nat)
    ensures SerpPrice(JStr(NatText(n) + WonMisread)) == Some(n)
  {
    var d := NatText(n);
    DigitsLackMisread(d);
    SerpPriceTrailing(d);
    SafeIntReadsDecimal(n);
  }

  lemma DigitsLackMisread(d: string)
    requires AllDigits(d)
    ensures WonMisread[0] !in d
  {
    forall k | 0 <= k < |d| ensures d[k] != WonMisread[0] {
      assert IsDigit(d[k]);
    }
  }

  /** Digits followed by a unit character other than the deleted literal's read as no price. */
  lemma DigitsThenUnitPrice(n: nat, unit: char)
    requires !IsDigit(unit) && unit != '.' && unit != ',' && !IsSpace(unit) && unit != WonMisread[0]
    ensures SerpPrice(JStr(NatText(n) + [unit])) == None
  {
    var d := NatText(n);
    var t := d + [unit];
    DigitsLackMisread(d);
    assert WonMisread[0] !in t by {
      forall k | 0 <= k < |t| ensures t[k] != WonMisread[0] {
        if k < |d| {
          assert t[k] == d[k];
        }
      }
    }
    SerpPriceOfText(t);
    DigitsThenUnit(n, unit);
  }

  /**
   * The clean-up deletes the misread literal, not the won sign itself: a price written with
   * "원" after its digits reads as no price at all.
   */
  lemma WonSignKeepsPriceUnread(n: nat)
    ensures SerpPrice(JStr(NatText(n) + "원")) == None
  {
    DigitsThenUnitPrice(n, '원');
  }
}

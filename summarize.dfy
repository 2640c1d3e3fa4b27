/**
 * The summary written when the language model is not available: a fixed table of twenty
 * instant-noodle products, the first of which named in the offer's title supplies features,
 * pros and cons, plus rules on the offer's price, rating and review count. Also the part of
 * the summary enrichment that does not call the model.
 */
module Summarize {
  import opened Wrappers
  import opened Text
  import opened Schemas

  /** One row of the product table: its name and its stock features, pros and cons. */
  datatype ProductInfo = ProductInfo(name: string, features: seq<string>, pros: seq<string>, cons: seq<string>)

  /** The four lists of a generated summary. */
  datatype Digest = Digest(keyFeatures: seq<Note>, pros: seq<Note>, cons: seq<Note>, evidence: seq<Note>)

  /** The product table, in its declaration order (the order its entries are tried in). */
  const Catalogue: seq<ProductInfo> := [
      ProductInfo("신라면",
        ["매운맛의 대표 라면", "쇠고기 육수 베이스", "1986년 출시 스테디셀러"],
        ["진한 매운맛", "풍부한 국물", "높은 인지도", "어디서나 구매 가능"],
        ["나트륨 함량 높음", "매운맛이 강해 호불호"]),
      ProductInfo("짜파게티",
        ["짜장 라면의 원조", "올리브유 첨가", "특제 짜장 분말스프"],
        ["고소한 짜장 맛", "간편한 조리", "남녀노소 인기"],
        ["느끼할 수 있음", "국물이 없음"]),
      ProductInfo("너구리",
        ["다시마 면발", "얼큰한 국물", "쫄깃한 면"],
        ["쫄깃한 면발", "시원한 국물", "해장에 좋음"],
        ["면이 불기 쉬움", "호불호가 있는 맛"]),
      ProductInfo("진라면",
        ["순한맛/매운맛 선택", "소고기 사골 육수", "1988년 출시"],
        ["깔끔한 국물맛", "가성비 좋음", "부드러운 면발"],
        ["신라면보다 심심할 수 있음"]),
      ProductInfo("삼양라면",
        ["1963년 최초의 라면", "담백한 맛", "전통 레시피"],
        ["담백한 맛", "옛날 감성", "저렴한 가격"],
        ["자극적인 맛 선호 시 밋밋함"]),
      ProductInfo("불닭볶음면",
        ["초매운맛", "볶음면 타입", "SNS 인기 제품"],
        ["강렬한 매운맛", "중독성 있음", "다양한 맛 라인업"],
        ["너무 매워서 호불호", "물 필수"]),
      ProductInfo("팔도비빔면",
        ["비빔면의 원조", "새콤달콤한 맛", "여름 별미"],
        ["새콤달콤 상큼함", "여름에 시원하게", "간편한 조리"],
        ["겨울엔 비선호", "양이 적게 느껴짐"]),
      ProductInfo("왕뚜껑",
        ["큰 용량 컵라면", "진한 육수", "두꺼운 면발"],
        ["양이 푸짐함", "진한 국물", "휴대 간편"],
        ["칼로리 높음", "나트륨 높음"]),
      ProductInfo("안성탕면",
        ["구수한 된장맛", "한국적인 맛", "1983년 출시"],
        ["구수한 맛", "순한 맛", "한국인 입맛에 맞음"],
        ["자극적인 맛 원할 때 부족"]),
      ProductInfo("육개장",
        ["얼큰한 육개장 맛", "고추기름", "소고기 풍미"],
        ["칼칼한 맛", "해장에 좋음", "든든함"],
        ["매운맛 약한 사람 비추"]),
      ProductInfo("참깨라면",
        ["참깨 풍미", "고소한 국물", "부드러운 면발"],
        ["고소한 맛", "순한 맛", "어린이도 즐길 수 있음"],
        ["자극적인 맛 원하면 부족"]),
      ProductInfo("진짜장",
        ["짜장라면", "춘장 베이스", "짜장면 맛 재현"],
        ["짜장면 맛", "간편 조리", "느끼하지 않음"],
        ["국물이 없음", "소스가 적을 수 있음"]),
      ProductInfo("열라면",
        ["매운맛 라면", "청양고추", "칼칼한 국물"],
        ["시원하고 매운맛", "해장에 좋음", "가성비 좋음"],
        ["매운맛 강함", "호불호 있음"]),
      ProductInfo("스낵면",
        ["작은 사이즈", "간식용 라면", "가벼운 한끼"],
        ["양이 적당", "간식으로 좋음", "저렴함"],
        ["양이 부족할 수 있음", "성인에겐 모자람"]),
      ProductInfo("짜짜로니",
        ["짜장 비빔면", "달콤한 짜장", "비빔 스타일"],
        ["달콤한 맛", "아이들이 좋아함", "비빔면 스타일"],
        ["느끼할 수 있음", "국물이 없음"]),
      ProductInfo("나가사키짬뽕",
        ["짬뽕맛 라면", "해산물 풍미", "얼큰한 국물"],
        ["해물 풍미", "얼큰함", "짬뽕 맛 재현"],
        ["호불호 있음", "해산물 싫어하면 비추"]),
      ProductInfo("맛있는라면",
        ["기본에 충실", "담백한 맛", "가성비 제품"],
        ["저렴한 가격", "담백한 맛", "무난함"],
        ["특색이 없음", "밋밋할 수 있음"]),
      ProductInfo("틈새라면",
        ["매운맛 라면", "빨간 국물", "강렬한 맛"],
        ["매운맛 강렬", "중독성", "라면 마니아 선호"],
        ["너무 매움", "초보자 비추"]),
      ProductInfo("꼬꼬면",
        ["닭고기 육수", "흰 국물 라면", "담백한 맛"],
        ["담백한 맛", "느끼하지 않음", "순한 맛"],
        ["자극적인 맛 원하면 부족", "호불호 있음"]),
      ProductInfo("일품해물라면",
        ["해물 풍미", "진한 국물", "푸짐한 건더기"],
        ["해물 맛", "국물 진함", "푸짐함"],
        ["해산물 싫어하면 비추", "가격 높음"])
  ]

  const CheapPrice: string := "저렴한 가격"
  const HighPrice: string := "다소 높은 가격"
  const WellRated: string := "높은 고객 만족도"
  const PoorlyRated: string := "평점이 다소 낮음"
  const ManyReviews: string := "많은 리뷰로 검증됨"
  const CupType: string := "컵라면 타입"
  const EasyToCook: string := "간편한 조리"
  const BagType: string := "봉지면 타입"
  const GoodValue: string := "가성비 좋음"
  const StillCollecting: string := "상세 정보 수집 중"
  const NeedsAnalysis: string := "추가 분석 필요"
  const NotFound: string := "제품 정보를 찾을 수 없습니다"

  /** `s.replace(" ", "")`: every space character dropped. */
  function RemoveSpaces(s: string): (r: string)
    ensures ' ' !in r
    ensures |r| <= |s|
  {
    if s == [] then [] else (if s[0] == ' ' then [] else [s[0]]) + RemoveSpaces(s[1..])
  }

  /** A text without ' ' is left as it is; a single ' ' goes. */
  lemma {:induction false} RemoveSpacesPlain(s: string)
    ensures ' ' !in s ==> RemoveSpaces(s) == s
    ensures |s| == 1 ==> RemoveSpaces(s) == (if s[0] == ' ' then [] else s)
    decreases |s|
  {
    if s != [] {
      RemoveSpacesPlain(s[1..]);
      assert s == [s[0]] + s[1..];
    }
  }

  /**
   * Removal works piece by piece; with `RemoveSpacesPlain` on single characters this pins it down:
   * the characters of `s` other than ' ', in their order.
   */
  lemma {:induction false} RemoveSpacesAppend(a: string, b: string)
    ensures RemoveSpaces(a + b) == RemoveSpaces(a) + RemoveSpaces(b)
    decreases |a|
  {
    if a == [] {
      assert a + b == b;
    } else {
      RemoveSpacesAppend(a[1..], b);
      RemoveSpacesHead(a, b);
    }
  }

  /** The step of `RemoveSpacesAppend`: the first character of `a` is handled alike in `a + b`. */
  lemma RemoveSpacesHead(a: string, b: string)
    requires a != []
    requires RemoveSpaces(a[1..] + b) == RemoveSpaces(a[1..]) + RemoveSpaces(b)
    ensures RemoveSpaces(a + b) == RemoveSpaces(a) + RemoveSpaces(b)
  {
    var h := if a[0] == ' ' then [] else [a[0]];
    TailOfConcat(a, b);
    RemoveSpacesCons(a + b);
    RemoveSpacesCons(a);
    ConcatAssoc(h, RemoveSpaces(a[1..]), RemoveSpaces(b));
  }

  lemma RemoveSpacesCons(s: string)
    requires s != []
    ensures RemoveSpaces(s) == (if s[0] == ' ' then [] else [s[0]]) + RemoveSpaces(s[1..])
  {
  }

  /** Every character other than ' ' keeps its number of occurrences. */
  lemma {:induction false} RemoveSpacesCounts(s: string, c: char)
    requires c != ' '
    ensures multiset(RemoveSpaces(s))[c] == multiset(s)[c]
    decreases |s|
  {
    if s != [] {
      assert s == [s[0]] + s[1..];
      RemoveSpacesCounts(s[1..], c);
    }
  }

  /** The table's test for a name: contained in the title, as is or with spaces removed from both. */
  predicate Mentions(title: string, name: string) {
    Contains(title, name) || Contains(RemoveSpaces(title), RemoveSpaces(name))
  }

  /** The position of the first table entry the title mentions, if any. */
  function FirstMention(title: string, table: seq<ProductInfo>): (r: Option<nat>)
    ensures r.Some? ==> r.value < |table| && Mentions(title, table[r.value].name)
    ensures forall j | 0 <= j < |table| && (r.None? || j < r.value) :: !Mentions(title, table[j].name)
  {
    if table == [] then None
    else if Mentions(title, table[0].name) then Some(0)
    else match FirstMention(title, table[1..])
      case None => None
      case Some(k) => Some(k + 1)
  }

  /** `s[:n]` */
  function Take<T>(s: seq<T>, n: nat): (r: seq<T>)
    ensures |r| <= n && r <= s
    ensures |s| <= n ==> r == s
    ensures |s| > n ==> |r| == n
  {
    if |s| <= n then s else s[..n]
  }

  function Strings(s: seq<string>): (r: seq<Note>)
    ensures |r| == |s| && forall i | 0 <= i < |s| :: r[i] == Says(s[i])
  {
    seq(|s|, i requires 0 <= i < |s| => Says(s[i]))
  }

  /** No entry is a plain text; the offer-based entries all carry numbers. */
  predicate NoTexts(s: seq<Note>) {
    forall i | 0 <= i < |s| :: !s[i].Says?
  }

  /**
   * The entries drawn from the offer itself: the price, rating and review-count rules, each
   * adding at most one entry to each list, in that order.
   */
  function OfferNotes(offer: Offer): Digest
  {
    Then(Then(PriceNotes(offer), RatingNotes(offer)), ReviewNotes(offer))
  }

  /** Each list of `a` followed by the same list of `b`. */
  function Then(a: Digest, b: Digest): Digest {
    Digest(a.keyFeatures + b.keyFeatures, a.pros + b.pros, a.cons + b.cons, a.evidence + b.evidence)
  }

  /** A present non-zero price: its note, and a pro below 700 or a con above 1500. */
  function PriceNotes(offer: Offer): Digest {
    if offer.priceKrw.Some? && offer.priceKrw.value != 0 then
      var price := offer.priceKrw.value;
      Digest([LowestPrice(price)],
             if price < 700 then [Says(CheapPrice)] else [],
             if price < 700 then [] else if price > 1500 then [Says(HighPrice)] else [],
             [])
    else Digest([], [], [], [])
  }

  /** A present rating: its note, and a pro from 4.5 up or a con below 3.5. */
  function RatingNotes(offer: Offer): Digest {
    if offer.rating.Some? then
      var rating := offer.rating.value;
      Digest([RatingOutOfFive(rating)],
             if rating >= 4.5 then [Says(WellRated)] else [],
             if rating >= 4.5 then [] else if rating < 3.5 then [Says(PoorlyRated)] else [],
             [])
    else Digest([], [], [], [])
  }

  /** A present non-zero review count: its note, and a pro from 1000 reviews up. */
  function ReviewNotes(offer: Offer): Digest {
    if offer.reviewCount.Some? && offer.reviewCount.value != 0 then
      Digest([ReviewTotal(offer.reviewCount.value)],
             if offer.reviewCount.value >= 1000 then [Says(ManyReviews)] else [], [], [])
    else Digest([], [], [], [])
  }

  /** The offer rules' list bounds; their key features are all numeric notes. */
  lemma OfferNotesBounds(offer: Offer)
    ensures var d := OfferNotes(offer);
      && |d.keyFeatures| <= 3 && |d.pros| <= 3 && |d.cons| <= 2 && d.evidence == []
      && NoTexts(d.keyFeatures)
      && (offer.priceKrw.None? || offer.priceKrw.value == 0 ==>
            forall i | 0 <= i < |d.keyFeatures| :: !d.keyFeatures[i].LowestPrice?)
  {
    var p, r, v := PriceNotes(offer), RatingNotes(offer), ReviewNotes(offer);
    assert NoTexts(p.keyFeatures) && NoTexts(r.keyFeatures) && NoTexts(v.keyFeatures);
    assert NoPriceNote(r.keyFeatures) && NoPriceNote(v.keyFeatures);
    assert offer.priceKrw.None? || offer.priceKrw.value == 0 ==> p.keyFeatures == [];
    JoinBounds(p, r, v);
  }

  /** No entry is a price note. */
  predicate NoPriceNote(s: seq<Note>) {
    forall i | 0 <= i < |s| :: !s[i].LowestPrice?
  }

  lemma NotesConcat(a: seq<Note>, b: seq<Note>)
    ensures NoTexts(a) && NoTexts(b) ==> NoTexts(a + b)
    ensures NoPriceNote(a) && NoPriceNote(b) ==> NoPriceNote(a + b)
  {
    forall i | |a| <= i < |a + b| ensures (a + b)[i] == b[i - |a|] {
    }
  }

  /** Three rule outputs of at most one entry per list, joined. */
  lemma JoinBounds(p: Digest, r: Digest, v: Digest)
    requires |p.keyFeatures| <= 1 && |p.pros| <= 1 && |p.cons| <= 1 && p.evidence == []
    requires |r.keyFeatures| <= 1 && |r.pros| <= 1 && |r.cons| <= 1 && r.evidence == []
    requires |v.keyFeatures| <= 1 && |v.pros| <= 1 && v.cons == [] && v.evidence == []
    requires NoTexts(p.keyFeatures) && NoTexts(r.keyFeatures) && NoTexts(v.keyFeatures)
    requires NoPriceNote(r.keyFeatures) && NoPriceNote(v.keyFeatures)
    ensures var d := Then(Then(p, r), v);
      && |d.keyFeatures| <= 3 && |d.pros| <= 3 && |d.cons| <= 2 && d.evidence == []
      && NoTexts(d.keyFeatures)
      && (p.keyFeatures == [] ==> NoPriceNote(d.keyFeatures))
  {
    NotesConcat(p.keyFeatures, r.keyFeatures);
    NotesConcat(p.keyFeatures + r.keyFeatures, v.keyFeatures);
    assert v.cons == [] && p.evidence + r.evidence + v.evidence == [];
  }

  /** Where the price, rating and review entries land in the offer rules' lists. */
  lemma OfferNotesRules(offer: Offer)
    ensures var d := OfferNotes(offer);
      && (offer.priceKrw.Some? && offer.priceKrw.value != 0 ==>
        d.keyFeatures != [] && d.keyFeatures[0] == LowestPrice(offer.priceKrw.value)
        && (offer.priceKrw.value < 700 ==> d.pros != [] && d.pros[0] == Says(CheapPrice))
        && (offer.priceKrw.value > 1500 ==> d.cons != [] && d.cons[0] == Says(HighPrice)))
      && (offer.rating.Some? ==> RatingOutOfFive(offer.rating.value) in d.keyFeatures)
      && (offer.rating.Some? && offer.rating.value >= 4.5 ==> Says(WellRated) in d.pros)
      && (offer.rating.Some? && offer.rating.value < 3.5 ==> Says(PoorlyRated) in d.cons)
      && (offer.reviewCount.Some? && offer.reviewCount.value != 0 ==> ReviewTotal(offer.reviewCount.value) in d.keyFeatures)
      && (offer.reviewCount.Some? && offer.reviewCount.value >= 1000 ==> Says(ManyReviews) in d.pros)
  {
    var p, r, v := PriceNotes(offer), RatingNotes(offer), ReviewNotes(offer);
    var d := OfferNotes(offer);
    assert d.keyFeatures == (p.keyFeatures + r.keyFeatures) + v.keyFeatures;
    assert d.pros == (p.pros + r.pros) + v.pros;
    assert d.cons == (p.cons + r.cons) + v.cons;
  }

  /** Each verdict of the offer rules is given exactly under its own condition. */
  lemma OfferVerdicts(offer: Offer)
    ensures var d := OfferNotes(offer);
      var price, rating, reviews := offer.priceKrw, offer.rating, offer.reviewCount;
      && (Says(CheapPrice) in d.pros <==> price.Some? && price.value != 0 && price.value < 700)
      && (Says(HighPrice) in d.cons <==> price.Some? && price.value > 1500)
      && (Says(WellRated) in d.pros <==> rating.Some? && rating.value >= 4.5)
      && (Says(PoorlyRated) in d.cons <==> rating.Some? && rating.value < 3.5)
      && (Says(ManyReviews) in d.pros <==> reviews.Some? && reviews.value >= 1000)
  {
    var p, r, v := PriceNotes(offer), RatingNotes(offer), ReviewNotes(offer);
    var d := OfferNotes(offer);
    assert d.pros == (p.pros + r.pros) + v.pros;
    assert d.cons == (p.cons + r.cons) + v.cons;
  }

  /** The title names a cup noodle: it contains 컵 or 사발. */
  predicate CupWords(title: string) {
    Contains(title, "컵") || Contains(title, "사발")
  }

  /** The title names a bag noodle: it contains 봉지. */
  predicate BagWord(title: string) {
    Contains(title, "봉지")
  }

  /**
   * The entries drawn from the table row the title matched (its first two features, three
   * pros and two cons) or, without a match, from whether the title names a cup (`cup`)
   * or a bag (`bag`).
   */
  function TableNotes(matched: Option<ProductInfo>, cup: bool, bag: bool): Digest
  {
    match matched
    case Some(info) =>
      Digest(Strings(Take(info.features, 2)), Strings(Take(info.pros, 3)), Strings(Take(info.cons, 2)),
             [ProductMatch(info.name)])
    case None =>
      var packet := bag || !cup;
      Digest((if cup then [Says(CupType)] else []) + (if packet then [Says(BagType)] else []),
             (if cup then [Says(EasyToCook)] else []) + (if packet then [Says(GoodValue)] else []),
             [], [])
  }

  /** The table rules: list bounds, evidence, and the cup and bag entries. */
  lemma TableNotesFacts(matched: Option<ProductInfo>, cup: bool, bag: bool)
    ensures var d := TableNotes(matched, cup, bag); |d.keyFeatures| <= 2 && |d.pros| <= 3 && |d.cons| <= 2
    ensures var d := TableNotes(matched, cup, bag); d.evidence == if matched.Some? then [ProductMatch(matched.value.name)] else []
    ensures var d := TableNotes(matched, cup, bag); forall i | 0 <= i < |d.keyFeatures| :: d.keyFeatures[i].Says?
    ensures var d := TableNotes(matched, cup, bag); matched.Some? ==> d.keyFeatures == Strings(Take(matched.value.features, 2))
    ensures var d := TableNotes(matched, cup, bag); matched.None? ==>
      && d.keyFeatures != [] && d.pros != []
      && (Says(CupType) in d.keyFeatures <==> cup)
      && (Says(BagType) in d.keyFeatures <==> bag || !cup)
  {
  }

  /** A list with a placeholder standing in for nothing. */
  function OrElse(s: seq<Note>, placeholder: Note): (r: seq<Note>)
    ensures r != [] && (s != [] ==> r == s)
    ensures s == [] ==> r == [placeholder]
  {
    if s == [] then [placeholder] else s
  }

  /**
   * The summary of an offer whose lowercased title is `title` and which matched the table
   * row `matched` (if any): offer entries first, then table entries, placeholders for empty
   * key features and pros, each list cut to its bound.
   */
  function Compose(offer: Offer, title: string, matched: Option<ProductInfo>): Digest
  {
    Assemble(OfferNotes(offer), TableNotes(matched, CupWords(title), BagWord(title)))
  }

  /** Offer entries `o` first, then table entries `t`, placeholders for nothing, each list cut to its bound. */
  function Assemble(o: Digest, t: Digest): Digest {
    Digest(Take(OrElse(o.keyFeatures + t.keyFeatures, Says(StillCollecting)), 5),
           Take(OrElse(o.pros + t.pros, Says(NeedsAnalysis)), 4),
           Take(o.cons + t.cons, 3),
           Take(t.evidence, 3))
  }

  /** Empty key features become the one "still collecting" entry, empty pros the one "needs analysis" entry. */
  lemma AssemblePlaceholders(o: Digest, t: Digest)
    ensures o.keyFeatures == [] && t.keyFeatures == [] ==> Assemble(o, t).keyFeatures == [Says(StillCollecting)]
    ensures o.pros == [] && t.pros == [] ==> Assemble(o, t).pros == [Says(NeedsAnalysis)]
  {
  }

  lemma AssembleShape(o: Digest, t: Digest)
    requires |t.evidence| <= 1
    ensures var d := Assemble(o, t);
      && |d.keyFeatures| <= 5 && |d.pros| <= 4 && |d.cons| <= 3
      && d.keyFeatures != [] && d.pros != [] && d.evidence == t.evidence
  {
  }

  /** Every finished summary keeps the bounds 5, 4, 3 and 1, never lacks key features or pros, and cites the matched row. */
  lemma ComposeShape(offer: Offer, title: string, matched: Option<ProductInfo>)
    ensures var d := Compose(offer, title, matched); |d.keyFeatures| <= 5 && |d.pros| <= 4 && |d.cons| <= 3 && |d.evidence| <= 1
    ensures var d := Compose(offer, title, matched); d.keyFeatures != [] && d.pros != []
    ensures var d := Compose(offer, title, matched); d.evidence == if matched.Some? then [ProductMatch(matched.value.name)] else []
  {
    TableNotesFacts(matched, CupWords(title), BagWord(title));
    AssembleShape(OfferNotes(offer), TableNotes(matched, CupWords(title), BagWord(title)));
  }

  /** The front `a` of a list survives the cut to `n` entries when it is no longer than `n`. */
  lemma TakeKeepsFront(a: seq<Note>, b: seq<Note>, n: nat)
    requires |a| <= n
    ensures forall x | x in a :: x in Take(a + b, n)
    ensures a != [] ==> Take(a + b, n)[0] == a[0]
  {
    var r := Take(a + b, n);
    forall x | x in a ensures x in r {
      var i :| 0 <= i < |a| && a[i] == x;
      assert r[i] == (a + b)[i];
    }
    if a != [] {
      assert r[0] == (a + b)[0];
    }
  }

  /** The price, rating and review rules, as they show in the finished summary. */
  lemma ComposeOfferRules(offer: Offer, title: string, matched: Option<ProductInfo>)
    ensures var d := Compose(offer, title, matched);
      && (offer.priceKrw.Some? && offer.priceKrw.value != 0 ==>
        d.keyFeatures[0] == LowestPrice(offer.priceKrw.value)
        && (offer.priceKrw.value < 700 ==> d.pros[0] == Says(CheapPrice))
        && (offer.priceKrw.value > 1500 ==> d.cons[0] == Says(HighPrice)))
      && (offer.rating.Some? ==> RatingOutOfFive(offer.rating.value) in d.keyFeatures)
      && (offer.rating.Some? && offer.rating.value >= 4.5 ==> Says(WellRated) in d.pros)
      && (offer.rating.Some? && offer.rating.value < 3.5 ==> Says(PoorlyRated) in d.cons)
      && (offer.reviewCount.Some? && offer.reviewCount.value != 0 ==> ReviewTotal(offer.reviewCount.value) in d.keyFeatures)
      && (offer.reviewCount.Some? && offer.reviewCount.value >= 1000 ==> Says(ManyReviews) in d.pros)
  {
    OfferNotesBounds(offer);
    OfferNotesRules(offer);
    AssembleKeepsFront(OfferNotes(offer), TableNotes(matched, CupWords(title), BagWord(title)));
  }

  /** Offer entries within the bounds survive into the summary, the first one first. */
  lemma AssembleKeepsFront(o: Digest, t: Digest)
    requires |o.keyFeatures| <= 5 && |o.pros| <= 4 && |o.cons| <= 3
    ensures var d := Assemble(o, t);
      && (forall x | x in o.keyFeatures :: x in d.keyFeatures)
      && (forall x | x in o.pros :: x in d.pros)
      && (forall x | x in o.cons :: x in d.cons)
      && (o.keyFeatures != [] ==> d.keyFeatures[0] == o.keyFeatures[0])
      && (o.pros != [] ==> d.pros[0] == o.pros[0])
      && (o.cons != [] ==> d.cons[0] == o.cons[0])
  {
    TakeKeepsFront(o.keyFeatures, t.keyFeatures, 5);
    TakeKeepsFront(o.pros, t.pros, 4);
    TakeKeepsFront(o.cons, t.cons, 3);
    if o.keyFeatures != [] {
      assert OrElse(o.keyFeatures + t.keyFeatures, Says(StillCollecting)) == o.keyFeatures + t.keyFeatures;
    }
    if o.pros != [] {
      assert OrElse(o.pros + t.pros, Says(NeedsAnalysis)) == o.pros + t.pros;
    }
  }

  /** Without a price (or with price 0) the summary carries no price entry. */
  lemma ComposeUnpriced(offer: Offer, title: string, matched: Option<ProductInfo>)
    requires offer.priceKrw.None? || offer.priceKrw.value == 0
    ensures var d := Compose(offer, title, matched);
      forall i | 0 <= i < |d.keyFeatures| :: !d.keyFeatures[i].LowestPrice?
  {
    OfferNotesBounds(offer);
    TableNotesFacts(matched, CupWords(title), BagWord(title));
    AssembleNoPrice(OfferNotes(offer), TableNotes(matched, CupWords(title), BagWord(title)));
  }

  /** A price of 0 counts as no price at all: the summary is the one of the same offer unpriced. */
  lemma ComposeZeroPrice(offer: Offer, title: string, matched: Option<ProductInfo>)
    requires offer.priceKrw == Some(0)
    ensures Compose(offer, title, matched) == Compose(offer.(priceKrw := None), title, matched)
  {
    var unpriced := offer.(priceKrw := None);
    assert PriceNotes(offer) == PriceNotes(unpriced);
    assert RatingNotes(offer) == RatingNotes(unpriced);
    assert ReviewNotes(offer) == ReviewNotes(unpriced);
  }

  /** No price entry among the offer's or the table's key features: none in the summary either. */
  lemma AssembleNoPrice(o: Digest, t: Digest)
    requires forall i | 0 <= i < |o.keyFeatures| :: !o.keyFeatures[i].LowestPrice?
    requires forall i | 0 <= i < |t.keyFeatures| :: t.keyFeatures[i].Says?
    ensures var d := Assemble(o, t);
      forall i | 0 <= i < |d.keyFeatures| :: !d.keyFeatures[i].LowestPrice?
  {
    var all := o.keyFeatures + t.keyFeatures;
    forall i | 0 <= i < |all| ensures !all[i].LowestPrice? {
      if i >= |o.keyFeatures| { assert all[i] == t.keyFeatures[i - |o.keyFeatures|]; }
    }
    var full := OrElse(all, Says(StillCollecting));
    var kf := Take(full, 5);
    forall i | 0 <= i < |kf| ensures !kf[i].LowestPrice? {
      assert kf[i] == full[i];
    }
  }

  /** Plain-text entries of `o + t` are those of `t` when `o` has none. */
  lemma TextsFromBack(o: seq<Note>, t: seq<Note>)
    requires NoTexts(o)
    ensures forall x: Note | x.Says? :: x in o + t <==> x in t
  {
    forall x: Note | x.Says? ensures x in o + t <==> x in t {
      if x in o + t {
        var i :| 0 <= i < |o + t| && (o + t)[i] == x;
        assert i >= |o|;
        assert t[i - |o|] == x;
      }
      if x in t {
        var i :| 0 <= i < |t| && t[i] == x;
        assert (o + t)[|o| + i] == x;
      }
    }
  }

  /** The key features end with the table entries, uncut. */
  lemma ComposeKeepsTableFeatures(offer: Offer, title: string, matched: Option<ProductInfo>)
    ensures var t := TableNotes(matched, CupWords(title), BagWord(title));
      var d := Compose(offer, title, matched);
      t.keyFeatures != [] ==> forall x: Note | x.Says? :: x in d.keyFeatures <==> x in t.keyFeatures
  {
    OfferNotesBounds(offer);
    OfferNotesRules(offer);
    TableNotesFacts(matched, CupWords(title), BagWord(title));
    var o := OfferNotes(offer);
    var t := TableNotes(matched, CupWords(title), BagWord(title));
    var all := o.keyFeatures + t.keyFeatures;
    if t.keyFeatures != [] {
      assert OrElse(all, Says(StillCollecting)) == all;
      assert Take(all, 5) == all;
      TextsFromBack(o.keyFeatures, t.keyFeatures);
    }
  }

  /**
   * The table rules, as they show in the finished summary: a matched row's first two
   * features are there; without a match the cup entry is there exactly when the title
   * names a cup, the bag entry exactly when it names a bag or does not name a cup.
   */
  lemma ComposeTableRules(offer: Offer, title: string, matched: Option<ProductInfo>)
    ensures var d := Compose(offer, title, matched);
      && (matched.Some? ==> forall f | f in Take(matched.value.features, 2) :: Says(f) in d.keyFeatures)
      && (matched.None? ==>
        && (Says(CupType) in d.keyFeatures <==> CupWords(title))
        && (Says(BagType) in d.keyFeatures <==> BagWord(title) || !CupWords(title)))
  {
    TableNotesFacts(matched, CupWords(title), BagWord(title));
    ComposeKeepsTableFeatures(offer, title, matched);
    var t := TableNotes(matched, CupWords(title), BagWord(title));
    if matched.Some? {
      forall f | f in Take(matched.value.features, 2) ensures Says(f) in t.keyFeatures {
        var i :| 0 <= i < |Take(matched.value.features, 2)| && Take(matched.value.features, 2)[i] == f;
        assert t.keyFeatures[i] == Says(f);
      }
    }
  }

  /** The row of `table` a lowercased title picks: the first one it mentions. */
  function MatchedRow(title: string, table: seq<ProductInfo>): Option<ProductInfo> {
    match FirstMention(title, table)
    case None => None
    case Some(i) => Some(table[i])
  }

  /** `_generate_fallback_summary(offer)`, as a value. */
  function FallbackDigest(offer: Offer): Digest {
    var title := Lower(offer.title);
    Compose(offer, title, MatchedRow(title, Catalogue))
  }

  /** Appending two optional entries one by one appends them together. */
  lemma AppendOptional(s: seq<Note>, p: bool, x: Note, q: bool, y: Note)
    ensures (s + (if p then [x] else [])) + (if q then [y] else [])
         == s + ((if p then [x] else []) + (if q then [y] else []))
  {
  }

  /**
   * The product loop of `_generate_fallback_summary`: tries the rows of `table` in order
   * and stops at the first one the title mentions, recording its name as evidence.
   */
  method FindProduct(title: string, table: seq<ProductInfo>) returns (matched: Option<ProductInfo>, evidence: seq<Note>)
    ensures matched == MatchedRow(title, table)
    ensures evidence == if matched.Some? then [ProductMatch(matched.value.name)] else []
  {
    matched := None;
    evidence := [];
    var i := 0;
    while i < |table|
      invariant 0 <= i <= |table|
      invariant matched == None && evidence == []
      invariant forall j | 0 <= j < i :: !Mentions(title, table[j].name)
    {
      if Mentions(title, table[i].name) {
        assert FirstMention(title, table) == Some(i);
        matched := Some(table[i]);
        evidence := evidence + [ProductMatch(table[i].name)];
        break;
      }
      i := i + 1;
    }
  }

  /**
   * `_generate_fallback_summary`: tries the table rows in order and stops at the first one
   * the title mentions, then appends the price, rating and review entries, the row's
   * (or the cup/bag) entries and the placeholders, and truncates each list.
   */
  method GenerateFallbackSummary(offer: Offer) returns (d: Digest)
    ensures d == FallbackDigest(offer)
  {
    d := SummarizeWith(offer, Catalogue);
  }

  /** The body of `_generate_fallback_summary`, for any product table in place of the built-in one. */
  method SummarizeWith(offer: Offer, table: seq<ProductInfo>) returns (d: Digest)
    ensures d == Compose(offer, Lower(offer.title), MatchedRow(Lower(offer.title), table))
  {
    var titleLower := Lower(offer.title);
    var matched, evidence := FindProduct(titleLower, table);
    var keyFeatures, pros, cons := AddOfferNotes(offer);
    keyFeatures, pros, cons := AddTableNotes(keyFeatures, pros, cons, titleLower, matched);
    if keyFeatures == [] {
      keyFeatures := [Says(StillCollecting)];
    }
    if pros == [] {
      pros := [Says(NeedsAnalysis)];
    }
    d := Digest(Take(keyFeatures, 5), Take(pros, 4), Take(cons, 3), Take(evidence, 3));
  }

  /** The price, rating and review steps of `_generate_fallback_summary`, from empty lists. */
  method AddOfferNotes(offer: Offer) returns (keyFeatures: seq<Note>, pros: seq<Note>, cons: seq<Note>)
    ensures keyFeatures == OfferNotes(offer).keyFeatures
    ensures pros == OfferNotes(offer).pros && cons == OfferNotes(offer).cons
  {
    keyFeatures, pros, cons := [], [], [];
    if offer.priceKrw.Some? && offer.priceKrw.value != 0 {
      var price := offer.priceKrw.value;
      keyFeatures := keyFeatures + [LowestPrice(price)];
      if price < 700 {
        pros := pros + [Says(CheapPrice)];
      } else if price > 1500 {
        cons := cons + [Says(HighPrice)];
      }
    }
    ghost var p := PriceNotes(offer);
    assert keyFeatures == p.keyFeatures && pros == p.pros && cons == p.cons;
    if offer.rating.Some? {
      var rating := offer.rating.value;
      keyFeatures := keyFeatures + [RatingOutOfFive(rating)];
      if rating >= 4.5 {
        pros := pros + [Says(WellRated)];
      } else if rating < 3.5 {
        cons := cons + [Says(PoorlyRated)];
      }
    }
    ghost var pr := Then(p, RatingNotes(offer));
    assert keyFeatures == pr.keyFeatures && pros == pr.pros && cons == pr.cons;
    if offer.reviewCount.Some? && offer.reviewCount.value != 0 {
      keyFeatures := keyFeatures + [ReviewTotal(offer.reviewCount.value)];
      if offer.reviewCount.value >= 1000 {
        pros := pros + [Says(ManyReviews)];
      }
    }
  }

  /** The table step of `_generate_fallback_summary`: the matched row's entries, or the cup and bag entries. */
  method AddTableNotes(keyFeatures0: seq<Note>, pros0: seq<Note>, cons0: seq<Note>, titleLower: string,
                       matched: Option<ProductInfo>)
    returns (keyFeatures: seq<Note>, pros: seq<Note>, cons: seq<Note>)
    ensures var t := TableNotes(matched, CupWords(titleLower), BagWord(titleLower));
      keyFeatures == keyFeatures0 + t.keyFeatures && pros == pros0 + t.pros && cons == cons0 + t.cons
  {
    keyFeatures, pros, cons := keyFeatures0, pros0, cons0;
    if matched.Some? {
      keyFeatures := keyFeatures + Strings(Take(matched.value.features, 2));
      pros := pros + Strings(Take(matched.value.pros, 3));
      cons := cons + Strings(Take(matched.value.cons, 2));
    } else {
      var cup := CupWords(titleLower);
      if cup {
        keyFeatures := keyFeatures + [Says(CupType)];
        pros := pros + [Says(EasyToCook)];
      }
      if BagWord(titleLower) || !cup {
        keyFeatures := keyFeatures + [Says(BagType)];
        pros := pros + [Says(GoodValue)];
      }
      AppendOptional(keyFeatures0, cup, Says(CupType), BagWord(titleLower) || !cup, Says(BagType));
      AppendOptional(pros0, cup, Says(EasyToCook), BagWord(titleLower) || !cup, Says(GoodValue));
      assert cons == cons0 + [];
    }
  }

  /** The row picked is the first row the title mentions, and there is none exactly when no row is mentioned. */
  lemma {:induction false} MatchedRowIsFirst(title: string, table: seq<ProductInfo>)
    ensures MatchedRow(title, table).None? <==> forall j | 0 <= j < |table| :: !Mentions(title, table[j].name)
    ensures MatchedRow(title, table).Some? ==>
      exists i | 0 <= i < |table| :: MatchedRow(title, table) == Some(table[i])
        && Mentions(title, table[i].name) && forall j | 0 <= j < i :: !Mentions(title, table[j].name)
  {
    match FirstMention(title, table)
    case None =>
    case Some(i) =>
      assert MatchedRow(title, table) == Some(table[i]);
      assert Mentions(title, table[i].name);
  }

  /**
   * `enrich_product_summary`, with `answer` standing for what the model call returned.
   * Without a best offer only the key features change, to the not-found note; with one, the
   * four lists are replaced by the answer's. Brand, query, offers and sentiment are kept.
   */
  function EnrichProductSummary(summary: ProductSummary, answer: Digest): (r: ProductSummary)
    ensures r.brand == summary.brand && r.query == summary.query && r.bestOffer == summary.bestOffer
    ensures r.offers == summary.offers && r.sentiment == summary.sentiment
    ensures summary.bestOffer.None? ==>
      r.keyFeatures == [Says(NotFound)]
      && r.pros == summary.pros && r.cons == summary.cons && r.evidence == summary.evidence
    ensures summary.bestOffer.Some? ==>
      r.keyFeatures == answer.keyFeatures && r.pros == answer.pros
      && r.cons == answer.cons && r.evidence == answer.evidence
  {
    if summary.bestOffer.None? then summary.(keyFeatures := [Says(NotFound)])
    else summary.(keyFeatures := answer.keyFeatures, pros := answer.pros, cons := answer.cons,
                  evidence := answer.evidence)
  }

  /** A summary enriched with the fallback answer for its best offer keeps the fallback's bounds. */
  lemma EnrichedByFallback(summary: ProductSummary, offer: Offer)
    requires summary.bestOffer == Some(offer)
    ensures var r := EnrichProductSummary(summary, FallbackDigest(offer));
      && 1 <= |r.keyFeatures| <= 5 && 1 <= |r.pros| <= 4 && |r.cons| <= 3 && |r.evidence| <= 1
  {
    var title := Lower(offer.title);
    ComposeShape(offer, title, MatchedRow(title, Catalogue));
  }
}

/** The personalised feed: product scores, and the interleaving of discoveries with top products. */
module Feed {
  import opened Common

  // ---- What a score is made of -------------------------------------------------------------------

  type NonNegative = x: real | x >= 0.0 witness 0.0
  type Positive = x: real | x > 0.0 witness 1.0

  /** The taste profile of a user, where there is one, against the product. Closeness of the price to the
      purchasing power compares logarithms and is taken as given. */
  datatype Profile = Profile(budgetMin: nat, budgetMax: nat, nearPower: bool, sameProvince: bool, commonStyles: nat)

  /** The recent browsing of the user: nothing, or events with the visits to this category, the average price
      seen and whether they showed high intent. */
  datatype Browsing =
    | NoEvents(longSession: bool)
    | Events(visits: nat, averagePrice: Option<Positive>, highIntent: bool)

  datatype Badge = Elite | Trusted | OtherBadge
  datatype Trust = Trust(score: NonNegative, badge: Badge)

  /** What the user did with the product before. */
  datatype Past = Bounced | Viewed | Untouched

  /** All that the score of one product for one user depends on. */
  datatype Signals = Signals(
    purchased: bool, wishlisted: bool, returned: bool,
    price: real, profile: Option<Profile>,
    categoryTaste: real, brandTaste: real, sellerTaste: real, followed: bool,
    browsing: Browsing,
    rightHour: bool, rightDay: bool, paydayPrice: bool,
    trust: Option<Trust>, views: nat, wishes: nat, carts: nat, featured: bool, boosted: bool,
    flashSale: bool, lowStock: bool, quantity: nat, priceDrop: bool, compareAt: Option<Positive>, ageHours: real,
    lucky: bool, past: Past)

  function Clamp(x: real): real {
    if x < 0.0 then 0.0 else if x > 10.0 then 10.0 else x
  }

  function Least(a: real, b: real): real {
    if a < b then a else b
  }

  function Bonus(condition: bool, amount: real): real {
    if condition then amount else 0.0
  }

  // A budget of zero counts as not set.
  const NO_BUDGET := 999999999

  function Budget(p: Profile): nat {
    if p.budgetMax == 0 then NO_BUDGET else p.budgetMax
  }

  function UserDna(s: Signals): real {
    match s.profile
    case None => 5.0
    case Some(p) =>
      Clamp(5.0
            + (if p.budgetMin as real <= s.price <= Budget(p) as real then 3.0
               else if s.price > Budget(p) as real then -2.0 else 0.0)
            + Bonus(p.nearPower, 2.0) + Bonus(p.sameProvince, 3.0))
  }

  function TasteGraph(s: Signals): real {
    Clamp(s.categoryTaste / 100.0 * 6.0 + s.brandTaste / 100.0 * 3.0 + s.sellerTaste / 100.0 * 2.0
          + Bonus(s.followed, 3.0)
          + (if s.profile.Some? then Least(s.profile.value.commonStyles as real * 0.5, 2.0) else 0.0))
  }

  function Abs(x: real): real {
    if x < 0.0 then -x else x
  }

  /** How far the price is from the prices seen, in relation to them. */
  function PriceGap(price: real, average: Positive): real {
    Abs(price - average) / (if average > 1.0 then average else 1.0)
  }

  /** The behavioural layer answers early, and unclamped, for a user without recent events. */
  function BehaviouralIntent(s: Signals): real {
    match s.browsing
    case NoEvents(longSession) => 3.0 + Bonus(longSession, 1.0)
    case Events(visits, average, highIntent) =>
      Clamp(3.0 + Least(visits as real * 1.5, 5.0)
            + (if average.None? then 0.0
               else if PriceGap(s.price, average.value) < 0.3 then 2.0
               else if PriceGap(s.price, average.value) < 0.6 then 1.0 else 0.0)
            + Bonus(highIntent, 2.0))
  }

  /** The hours of the day do not overlap, so at most one of them can match the category. */
  function Contextual(s: Signals): real {
    Clamp(3.0 + Bonus(s.rightHour, 3.0) + Bonus(s.rightDay, 2.0) + Bonus(s.paydayPrice && s.price > 50000.0, 1.5))
  }

  function TrustBonus(trust: Option<Trust>): real {
    match trust
    case None => 0.0
    case Some(t) => t.score / 100.0 * 4.0
                    + (match t.badge case Elite => 2.0 case Trusted => 1.0 case OtherBadge => 0.0)
  }

  function Popularity(views: nat, wishes: nat, carts: nat): real {
    Least(views as real * 0.002, 3.0) + Least(wishes as real * 0.1, 2.0) + Least(carts as real * 0.15, 3.0)
  }

  function SocialProof(s: Signals): real {
    Clamp(3.0 + TrustBonus(s.trust) + Popularity(s.views, s.wishes, s.carts)
          + Bonus(s.featured, 1.0) + Bonus(s.boosted, 0.5))
  }

  /** The part of the comparison price that is saved. */
  function Discount(price: real, compareAt: Positive): real {
    (compareAt - price) / compareAt
  }

  function DropBonus(price: real, priceDrop: bool, compareAt: Option<Positive>): real {
    if priceDrop && compareAt.Some? && price < compareAt.value
    then Least(Discount(price, compareAt.value) * 10.0, 3.0) else 0.0
  }

  function CartRate(carts: nat, views: nat): real {
    carts as real / (if views > 1 then views as real else 1.0)
  }

  function CartBonus(carts: nat, views: nat): real {
    if CartRate(carts, views) > 0.1 then Least(CartRate(carts, views) * 10.0, 2.0) else 0.0
  }

  function MarketDynamics(s: Signals): real {
    Clamp(3.0 + Bonus(s.flashSale, 4.0)
          + (if !s.lowStock then 0.0 else if s.quantity <= 2 then 3.0 else if s.quantity <= 5 then 2.0 else 0.0)
          + DropBonus(s.price, s.priceDrop, s.compareAt)
          + (if s.ageHours < 24.0 then 2.0 else if s.ageHours < 72.0 then 1.5 else if s.ageHours < 168.0 then 1.0
             else 0.0)
          + CartBonus(s.carts, s.views))
  }

  /** Slightly above the budget. */
  predicate Aspirational(s: Signals) {
    && s.profile.Some? && s.profile.value.budgetMax > 0
    && s.profile.value.budgetMax as real < s.price <= s.profile.value.budgetMax as real * 1.5
  }

  function Serendipity(s: Signals): real {
    Clamp(3.0 + (if s.categoryTaste != 0.0 then 0.0 else if s.lucky then 3.0 else -2.0) + Bonus(Aspirational(s), 1.5))
  }

  function AntiPatterns(s: Signals): real {
    match s.past
    case Bounced => -5.0
    case Viewed => 1.0
    case Untouched => 0.0
  }

  predicate Excluded(s: Signals) {
    (s.purchased && !s.wishlisted) || s.returned
  }

  function Score(s: Signals): real {
    if Excluded(s) then -999.0
    else 0.30 * TasteGraph(s) + 0.25 * BehaviouralIntent(s) + 0.15 * Contextual(s)
         + 0.10 * SocialProof(s) + 0.10 * MarketDynamics(s) + 0.05 * UserDna(s)
         + 0.04 * Serendipity(s) + 0.01 * AntiPatterns(s)
  }

  // ---- The range of scores -----------------------------------------------------------------------

  lemma DiscountIsPositive(price: real, compareAt: Positive)
    requires price < compareAt
    ensures Discount(price, compareAt) > 0.0
  {
    var saved := compareAt - price;
    assert saved > 0.0;
  }

  lemma MarketRange(s: Signals)
    ensures 3.0 <= MarketDynamics(s) <= 10.0
    ensures MarketDynamics(s) == 3.0 <==>
            && !s.flashSale && (s.lowStock ==> s.quantity > 5)
            && (s.priceDrop && s.compareAt.Some? ==> s.price >= s.compareAt.value)
            && s.ageHours >= 168.0 && CartRate(s.carts, s.views) <= 0.1
  {
    if s.compareAt.Some? && s.price < s.compareAt.value {
      DiscountIsPositive(s.price, s.compareAt.value);
    }
  }

  lemma SocialRange(s: Signals)
    ensures 3.0 <= SocialProof(s) <= 10.0
    ensures SocialProof(s) == 3.0 <==>
            && (s.trust.Some? ==> s.trust.value == Trust(0.0, OtherBadge))
            && s.views == 0 && s.wishes == 0 && s.carts == 0 && !s.featured && !s.boosted
  {
  }

  lemma BehaviouralRange(s: Signals)
    ensures 3.0 <= BehaviouralIntent(s) <= 10.0
    ensures BehaviouralIntent(s) == 3.0 <==>
            match s.browsing
            case NoEvents(longSession) => !longSession
            case Events(visits, average, highIntent) =>
              visits == 0 && !highIntent && (average.Some? ==> PriceGap(s.price, average.value) >= 0.6)
  {
  }

  lemma DnaAndSerendipityRange(s: Signals)
    ensures 3.0 <= UserDna(s) <= 10.0 && 1.0 <= Serendipity(s) <= 7.5
    ensures 0.05 * UserDna(s) + 0.04 * Serendipity(s) <= 0.74
    ensures UserDna(s) == 3.0 <==>
            s.profile.Some? && s.price > Budget(s.profile.value) as real
            && !s.profile.value.nearPower && !s.profile.value.sameProvince
    ensures Serendipity(s) == 1.0 <==> s.categoryTaste == 0.0 && !s.lucky && !Aspirational(s)
  {
  }

  /** Every score that is not a hard exclusion lies between 1.94 and 9.675, so the -100 filter drops exactly the
      hard-excluded products and every product that is kept scores above zero. */
  lemma ScoreRange(s: Signals)
    ensures !Excluded(s) ==> 1.94 <= Score(s) <= 9.675
    ensures Score(s) > -100.0 <==> !Excluded(s)
    ensures Score(s) > 0.0 <==> !Excluded(s)
  {
    MarketRange(s);
    SocialRange(s);
    BehaviouralRange(s);
    DnaAndSerendipityRange(s);
  }

  /** Nothing speaks for the product: the conditions under which each layer stays at its least value. */
  predicate NothingSpeaksForIt(s: Signals) {
    && TasteGraph(s) == 0.0 && s.categoryTaste == 0.0 && !s.lucky && !Aspirational(s)
    && BehaviouralIntent(s) == 3.0 && Contextual(s) == 3.0 && SocialProof(s) == 3.0 && MarketDynamics(s) == 3.0
    && s.profile.Some? && s.price > Budget(s.profile.value) as real
    && !s.profile.value.nearPower && !s.profile.value.sameProvince
    && s.past == Bounced
  }

  /** The lower bound is attained, by exactly the products nothing speaks for. */
  lemma LeastScoreIff(s: Signals)
    ensures Score(s) == 1.94 <==> !Excluded(s) && NothingSpeaksForIt(s)
  {
    MarketRange(s);
    SocialRange(s);
    BehaviouralRange(s);
    DnaAndSerendipityRange(s);
  }

  /** There are such products: an old one without any reaction, priced beyond one and a half times the budget of
      a user who bounced off it and has no taste for its category. */
  lemma LeastScoreIsReached(s: Signals)
    requires !Excluded(s) && s.past == Bounced && !s.followed && !s.lucky
    requires s.categoryTaste == s.brandTaste == s.sellerTaste == 0.0 && s.browsing == NoEvents(false)
    requires s.profile.Some? && s.profile.value == Profile(0, s.profile.value.budgetMax, false, false, 0)
    requires s.profile.value.budgetMax > 0 && s.price > s.profile.value.budgetMax as real * 1.5
    requires !s.rightHour && !s.rightDay && !s.paydayPrice && s.trust.None?
    requires s.views == s.wishes == s.carts == 0 && !s.featured && !s.boosted
    requires !s.flashSale && !s.lowStock && !s.priceDrop && s.ageHours >= 168.0
    ensures Score(s) == 1.94
  {
    MarketRange(s);
    assert CartRate(s.carts, s.views) == 0.0;
    LeastScoreIff(s);
  }

  /** The upper bound is attained too: by a new product on flash sale of a trusted seller, much wanted, in the
      price range, hour and day of a user who follows the store and is new to the category. */
  lemma GreatestScoreIsReached(s: Signals)
    requires !Excluded(s) && s.past == Viewed && s.followed && s.lucky
    requires s.categoryTaste == 0.0 && s.brandTaste >= 100.0 && s.sellerTaste >= 100.0
    requires s.profile.Some? && s.profile.value.nearPower && s.profile.value.commonStyles >= 4
    requires s.profile.value.budgetMin as real <= s.price <= s.profile.value.budgetMax as real && s.price > 50000.0
    requires s.browsing == Events(4, Some(s.price), true) && s.rightHour && s.rightDay && s.paydayPrice
    requires s.trust == Some(Trust(100.0, Elite)) && s.views >= 1500 && s.featured
    requires s.flashSale && s.lowStock && s.quantity <= 2 && s.ageHours < 24.0
    ensures Score(s) == 9.675
  {
    MarketRange(s);
    assert PriceGap(s.price, s.price) == 0.0;
    if s.compareAt.Some? && s.price < s.compareAt.value {
      DiscountIsPositive(s.price, s.compareAt.value);
    }
  }

  // ---- The feed -----------------------------------------------------------------------------

  type ProductId = string

  datatype Candidate = Candidate(id: ProductId, signals: Signals)
  datatype Item = Item(id: ProductId, score: real)

  const TOP_SCORE := 4.0
  const TOP_RUN := 7

  /** The candidates that survive the filter, scored, in candidate order. */
  function Scored(cs: seq<Candidate>): seq<Item> {
    if cs == [] then []
    else
      var c := cs[|cs| - 1];
      Scored(cs[..|cs| - 1]) + (if Score(c.signals) > -100.0 then [Item(c.id, Score(c.signals))] else [])
  }

  /** Puts an item behind every item that scores at least as much: a stable descending sort. */
  function Insert(sorted: seq<Item>, x: Item): seq<Item> {
    if sorted == [] || sorted[|sorted| - 1].score >= x.score then sorted + [x]
    else Insert(sorted[..|sorted| - 1], x) + [sorted[|sorted| - 1]]
  }

  function SortDescending(xs: seq<Item>): seq<Item> {
    if xs == [] then [] else Insert(SortDescending(xs[..|xs| - 1]), xs[|xs| - 1])
  }

  function Tops(xs: seq<Item>): seq<Item> {
    if xs == [] then []
    else Tops(xs[..|xs| - 1]) + (if xs[|xs| - 1].score >= TOP_SCORE then [xs[|xs| - 1]] else [])
  }

  function Discoveries(xs: seq<Item>): seq<Item> {
    if xs == [] then []
    else Discoveries(xs[..|xs| - 1]) + (if 0.0 < xs[|xs| - 1].score < TOP_SCORE then [xs[|xs| - 1]] else [])
  }

  function Prefix(xs: seq<Item>, n: nat): (r: seq<Item>)
    ensures |r| <= n && r <= xs
  {
    if |xs| <= n then xs else xs[..n]
  }

  function Min(a: nat, b: nat): nat { if a < b then a else b }

  /** How many discoveries fit: one after each full run of seven top items. */
  function Placed(top: seq<Item>, found: seq<Item>): nat {
    Min(|found|, |top| / TOP_RUN)
  }

  /** The item at position `j` of the interleaving: every eighth place belongs to a discovery as long
      as there are any. */
  function Slot(top: seq<Item>, found: seq<Item>, j: nat): Item
    requires j < |top| + Placed(top, found)
  {
    var n := Placed(top, found);
    if j % 8 == 7 && j / 8 < n then found[j / 8] else top[j - Min(n, j / 8)]
  }

  function Interleaved(top: seq<Item>, found: seq<Item>): (r: seq<Item>)
    ensures |r| == |top| + Placed(top, found)
  {
    seq(|top| + Placed(top, found), j requires 0 <= j < |top| + Placed(top, found) => Slot(top, found, j))
  }

  /** The feed made from scored candidates. */
  function FeedFrom(scored: seq<Item>, limit: nat): seq<Item> {
    var ranked := SortDescending(scored);
    Prefix(Interleaved(Prefix(Tops(ranked), limit), Discoveries(ranked)), limit)
  }

  /** Scores, filters, sorts, splits, and interleaves with a moving discovery index. */
  method BuildFeed(cs: seq<Candidate>, limit: nat) returns (feed: seq<Item>)
    ensures feed == FeedFrom(Scored(cs), limit)
  {
    var scored := [];
    for i := 0 to |cs|
      invariant scored == Scored(cs[..i])
    {
      assert cs[..i + 1][..i] == cs[..i];
      var score := Score(cs[i].signals);
      if score > -100.0 {
        scored := scored + [Item(cs[i].id, score)];
      }
    }
    assert cs[..|cs|] == cs;
    var ranked := SortDescending(scored);
    feed := Interleave(Prefix(Tops(ranked), limit), Discoveries(ranked));
    feed := Prefix(feed, limit);
  }

  method Interleave(top: seq<Item>, found: seq<Item>) returns (final: seq<Item>)
    ensures final == Interleaved(top, found)
  {
    final := [];
    var next := 0;
    for i := 0 to |top|
      invariant next == Min(|found|, i / TOP_RUN)
      invariant |final| == i + next
      invariant forall j :: 0 <= j < |final| ==> final[j] == Slot(top, found, j)
    {
      final := final + [top[i]];
      if (i + 1) % TOP_RUN == 0 && next < |found| {
        final := final + [found[next]];
        next := next + 1;
      }
    }
  }
}

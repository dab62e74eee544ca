/** What each signal is worth in the score of a product: how the score moves when that signal alone changes. A
    layer stops at ten, so a signal counts as far as its layer has room. */
module FeedScores {
  import opened Common
  import opened Feed

  /** Points, as far as a layer of this weight has room below ten. */
  function Gain(weight: real, layer: real, points: real): real {
    if points <= weight * (10.0 - layer) then points else weight * (10.0 - layer)
  }

  /** One if it holds, zero otherwise. */
  function One(b: bool): real {
    if b then 1.0 else 0.0
  }

  /** A count, of which no more than `most` matter. */
  function UpTo(count: nat, most: nat): real {
    if count <= most then count as real else most as real
  }

  // ---- Layers and their weights -----------------------------------------------------------------------

  /** The score is linear in its eight layers. */
  lemma ScoreDifference(s: Signals, t: Signals)
    requires !Excluded(s) && !Excluded(t)
    ensures Score(t) - Score(s)
         == 0.30 * (TasteGraph(t) - TasteGraph(s)) + 0.25 * (BehaviouralIntent(t) - BehaviouralIntent(s))
          + 0.15 * (Contextual(t) - Contextual(s)) + 0.10 * (SocialProof(t) - SocialProof(s))
          + 0.10 * (MarketDynamics(t) - MarketDynamics(s)) + 0.05 * (UserDna(t) - UserDna(s))
          + 0.04 * (Serendipity(t) - Serendipity(s)) + 0.01 * (AntiPatterns(t) - AntiPatterns(s))
  {
  }

  lemma PersonalInputs(s: Signals, t: Signals)
    requires t.price == s.price
    ensures (t.categoryTaste, t.brandTaste, t.sellerTaste) == (s.categoryTaste, s.brandTaste, s.sellerTaste) ==>
              (t.followed, t.profile) == (s.followed, s.profile) ==> TasteGraph(t) == TasteGraph(s)
    ensures t.profile == s.profile ==> UserDna(t) == UserDna(s)
    ensures (t.categoryTaste, t.lucky, t.profile) == (s.categoryTaste, s.lucky, s.profile) ==>
              Serendipity(t) == Serendipity(s)
    ensures t.past == s.past ==> AntiPatterns(t) == AntiPatterns(s)
  {
  }

  lemma MomentInputs(s: Signals, t: Signals)
    requires t.price == s.price
    ensures t.browsing == s.browsing ==> BehaviouralIntent(t) == BehaviouralIntent(s)
    ensures (t.rightHour, t.rightDay, t.paydayPrice) == (s.rightHour, s.rightDay, s.paydayPrice) ==>
              Contextual(t) == Contextual(s)
  {
  }

  lemma ProductInputs(s: Signals, t: Signals)
    requires t.price == s.price
    ensures (t.trust, t.views, t.wishes, t.carts) == (s.trust, s.views, s.wishes, s.carts) ==>
              (t.featured, t.boosted) == (s.featured, s.boosted) ==> SocialProof(t) == SocialProof(s)
    ensures (t.flashSale, t.lowStock, t.quantity, t.priceDrop) == (s.flashSale, s.lowStock, s.quantity, s.priceDrop) ==>
              (t.compareAt, t.ageHours, t.carts, t.views) == (s.compareAt, s.ageHours, s.carts, s.views) ==>
                MarketDynamics(t) == MarketDynamics(s)
  {
  }

  /** Who the user is moves the taste, profile, luck and past layers only. */
  lemma OnlyPersonal(s: Signals, t: Signals)
    requires t == s.(categoryTaste := t.categoryTaste, brandTaste := t.brandTaste, sellerTaste := t.sellerTaste,
                     followed := t.followed, profile := t.profile, lucky := t.lucky, past := t.past)
    requires !Excluded(s)
    ensures Score(t) - Score(s)
         == 0.30 * (TasteGraph(t) - TasteGraph(s)) + 0.05 * (UserDna(t) - UserDna(s))
          + 0.04 * (Serendipity(t) - Serendipity(s)) + 0.01 * (AntiPatterns(t) - AntiPatterns(s))
  {
    ScoreDifference(s, t);
    MomentInputs(s, t);
    ProductInputs(s, t);
  }

  /** What the user is doing moves the browsing and the context layer only. */
  lemma OnlyMoment(s: Signals, t: Signals)
    requires t == s.(browsing := t.browsing, rightHour := t.rightHour, rightDay := t.rightDay,
                     paydayPrice := t.paydayPrice)
    requires !Excluded(s)
    ensures Score(t) - Score(s)
         == 0.25 * (BehaviouralIntent(t) - BehaviouralIntent(s)) + 0.15 * (Contextual(t) - Contextual(s))
  {
    ScoreDifference(s, t);
    PersonalInputs(s, t);
    ProductInputs(s, t);
  }

  /** How the product is doing moves the social and the market layer only. */
  lemma OnlyProduct(s: Signals, t: Signals)
    requires t == s.(trust := t.trust, views := t.views, wishes := t.wishes, carts := t.carts,
                     featured := t.featured, boosted := t.boosted, flashSale := t.flashSale, lowStock := t.lowStock,
                     quantity := t.quantity, priceDrop := t.priceDrop, ageHours := t.ageHours)
    requires !Excluded(s)
    ensures Score(t) - Score(s)
         == 0.10 * (SocialProof(t) - SocialProof(s)) + 0.10 * (MarketDynamics(t) - MarketDynamics(s))
  {
    ScoreDifference(s, t);
    PersonalInputs(s, t);
    MomentInputs(s, t);
  }

  // ---- Taste ----------------------------------------------------------------------------------------

  predicate TastesPositive(s: Signals) {
    s.categoryTaste >= 0.0 && s.brandTaste >= 0.0 && s.sellerTaste >= 0.0
  }

  /** A point of category taste is worth 0.018, of brand taste 0.009, of seller taste 0.006, and following
      the store 0.9. */
  lemma TastePoints(s: Signals, t: Signals)
    requires t == s.(categoryTaste := t.categoryTaste, brandTaste := t.brandTaste, sellerTaste := t.sellerTaste,
                     followed := t.followed)
    requires !Excluded(s) && s.categoryTaste != 0.0 && t.categoryTaste != 0.0
    requires TastesPositive(s) && TastesPositive(t) && TasteGraph(s) < 10.0
    ensures Score(t) - Score(s)
            == Gain(0.3, TasteGraph(s),
                    0.018 * (t.categoryTaste - s.categoryTaste) + 0.009 * (t.brandTaste - s.brandTaste)
                    + 0.006 * (t.sellerTaste - s.sellerTaste) + 0.9 * (One(t.followed) - One(s.followed)))
  {
    OnlyPersonal(s, t);
    PersonalInputs(s, t);
  }

  /** Distaste costs nothing: without any taste for it, no further distaste lowers the score of a product. */
  lemma DistasteCostsNothing(s: Signals, t: Signals)
    requires t == s.(brandTaste := 0.0, sellerTaste := 0.0) && !Excluded(s)
    requires s.categoryTaste <= 0.0 && s.brandTaste <= 0.0 && s.sellerTaste <= 0.0 && !s.followed
    requires s.profile.Some? ==> s.profile.value.commonStyles == 0
    ensures Score(t) == Score(s)
  {
    OnlyPersonal(s, t);
    PersonalInputs(s, t);
  }

  /** A product of a category the user has no taste for gets 0.12 if it is drawn by lot and loses 0.08 if not. */
  lemma NewCategoryPoints(s: Signals, taste: real)
    requires !Excluded(s) && s.categoryTaste == 0.0 && taste > 0.0
    requires TastesPositive(s) && TasteGraph(s) < 10.0
    ensures Score(s.(categoryTaste := taste)) - Score(s)
            == Gain(0.3, TasteGraph(s), 0.018 * taste) - (if s.lucky then 0.12 else -0.08)
  {
    OnlyPersonal(s, s.(categoryTaste := taste));
    PersonalInputs(s, s.(categoryTaste := taste));
  }

  lemma StyleInputs(s: Signals, t: Signals)
    requires s.profile.Some? && t.profile.Some?
    requires t == s.(profile := Some(s.profile.value.(commonStyles := t.profile.value.commonStyles)))
    ensures UserDna(t) == UserDna(s) && Serendipity(t) == Serendipity(s) && AntiPatterns(t) == AntiPatterns(s)
  {
  }

  /** Each style in common is worth 0.15, up to four of them. */
  lemma StylePoints(s: Signals, t: Signals)
    requires !Excluded(s) && s.profile.Some? && t.profile.Some?
    requires t == s.(profile := Some(s.profile.value.(commonStyles := t.profile.value.commonStyles)))
    requires TastesPositive(s) && TasteGraph(s) < 10.0
    ensures Score(t) - Score(s)
            == Gain(0.3, TasteGraph(s),
                    0.15 * (UpTo(t.profile.value.commonStyles, 4) - UpTo(s.profile.value.commonStyles, 4)))
  {
    OnlyPersonal(s, t);
    StyleInputs(s, t);
  }

  // ---- Recent browsing ------------------------------------------------------------------------------

  /** The first three visits to the category are worth 0.375 each, the fourth 0.125, and no further one. */
  lemma VisitPoints(s: Signals, visits: nat)
    requires !Excluded(s) && s.browsing.Events? && s.browsing.visits == visits && BehaviouralIntent(s) < 10.0
    ensures Score(s.(browsing := s.browsing.(visits := visits + 1))) - Score(s)
            == Gain(0.25, BehaviouralIntent(s), if visits < 3 then 0.375 else if visits == 3 then 0.125 else 0.0)
  {
    var t := s.(browsing := s.browsing.(visits := visits + 1));
    OnlyMoment(s, t);
    MomentInputs(s, t);
  }

  function Seen(s: Signals, average: Positive): Signals
    requires s.browsing.Events?
  {
    s.(browsing := s.browsing.(averagePrice := Some(average)))
  }

  function Distance(a: real, b: real): real {
    if a < b then b - a else a - b
  }

  /** A price within thirty per cent of the average price seen is worth 0.5, within sixty per cent 0.25; below an
      average of one the per cent are of one. */
  lemma PriceGapPoints(s: Signals, average: Positive)
    requires !Excluded(s) && s.browsing.Events? && s.browsing.averagePrice.None? && BehaviouralIntent(s) < 10.0
    ensures var gap, whole := Distance(s.price, average), if average > 1.0 then average else 1.0;
            Score(Seen(s, average)) - Score(s)
            == Gain(0.25, BehaviouralIntent(s),
                    if gap < 0.3 * whole then 0.5 else if gap < 0.6 * whole then 0.25 else 0.0)
  {
    OnlyMoment(s, Seen(s, average));
    MomentInputs(s, Seen(s, average));
    var gap, whole := Distance(s.price, average), if average > 1.0 then average else 1.0;
    Ratio(gap, whole, 0.3);
    Ratio(gap, whole, 0.6);
  }

  lemma Ratio(part: real, whole: real, share: real)
    requires whole > 0.0
    ensures part / whole < share <==> part < share * whole
    ensures part / whole <= share <==> part <= share * whole
  {
    assert part == (part / whole) * whole;
  }

  /** High intent is worth 0.5. */
  lemma IntentPoints(s: Signals)
    requires !Excluded(s) && s.browsing.Events? && !s.browsing.highIntent && BehaviouralIntent(s) < 10.0
    ensures Score(s.(browsing := s.browsing.(highIntent := true))) == Score(s) + Gain(0.25, BehaviouralIntent(s), 0.5)
  {
    var t := s.(browsing := s.browsing.(highIntent := true));
    OnlyMoment(s, t);
    MomentInputs(s, t);
  }

  /** A long session without events is worth 0.25; events that match nothing count as none. */
  lemma SessionPoints(s: Signals, t: Signals)
    requires !Excluded(s) && s.browsing == NoEvents(false) && t == s.(browsing := t.browsing)
    ensures t.browsing == NoEvents(true) ==> Score(t) == Score(s) + 0.25
    ensures t.browsing == Events(0, None, false) ==> Score(t) == Score(s)
  {
    OnlyMoment(s, t);
    MomentInputs(s, t);
  }

  // ---- Hour, day and payday -------------------------------------------------------------------------

  /** The right hour is worth 0.45, the right day 0.3, and the days around payday 0.225 for a price above
      50000; these never reach the bound. */
  lemma ContextPoints(s: Signals, t: Signals)
    requires !Excluded(s) && t == s.(rightHour := t.rightHour, rightDay := t.rightDay, paydayPrice := t.paydayPrice)
    ensures Score(t) - Score(s)
            == 0.45 * (One(t.rightHour) - One(s.rightHour)) + 0.3 * (One(t.rightDay) - One(s.rightDay))
               + (if s.price > 50000.0 then 0.225 * (One(t.paydayPrice) - One(s.paydayPrice)) else 0.0)
  {
    OnlyMoment(s, t);
    MomentInputs(s, t);
  }

  // ---- Trust and popularity -------------------------------------------------------------------------

  /** At most one view in ten led to a cart. */
  predicate FewCarts(s: Signals) {
    10 * s.carts <= s.views || (s.views == 0 && s.carts == 0)
  }

  lemma FewCartsRate(s: Signals)
    ensures FewCarts(s) <==> CartRate(s.carts, s.views) <= 0.1
  {
    Ratio(s.carts as real, if s.views > 1 then s.views as real else 1.0, 0.1);
  }

  lemma ViewsInMarket(s: Signals, t: Signals)
    requires t == s.(views := t.views) && FewCarts(s) && FewCarts(t)
    ensures MarketDynamics(t) == MarketDynamics(s)
  {
    FewCartsRate(s);
    FewCartsRate(t);
  }

  lemma ViewsInSocial(s: Signals, t: Signals)
    requires t == s.(views := t.views) && SocialProof(s) < 10.0
    ensures 0.1 * (SocialProof(t) - SocialProof(s))
            == Gain(0.1, SocialProof(s), 0.0002 * (UpTo(t.views, 1500) - UpTo(s.views, 1500)))
  {
  }

  /** Each view is worth 0.0002, up to 1500 of them. */
  lemma ViewPoints(s: Signals, t: Signals)
    requires !Excluded(s) && t == s.(views := t.views) && FewCarts(s) && FewCarts(t)
    requires SocialProof(s) < 10.0
    ensures Score(t) - Score(s)
            == Gain(0.1, SocialProof(s), 0.0002 * (UpTo(t.views, 1500) - UpTo(s.views, 1500)))
  {
    OnlyProduct(s, t);
    ViewsInMarket(s, t);
    ViewsInSocial(s, t);
  }

  lemma WishesInSocial(s: Signals, t: Signals)
    requires t == s.(wishes := t.wishes, featured := t.featured, boosted := t.boosted)
    requires SocialProof(s) < 10.0
    ensures 0.1 * (SocialProof(t) - SocialProof(s))
            == Gain(0.1, SocialProof(s),
                    0.01 * (UpTo(t.wishes, 20) - UpTo(s.wishes, 20)) + 0.1 * (One(t.featured) - One(s.featured))
                    + 0.05 * (One(t.boosted) - One(s.boosted)))
  {
  }

  /** Each wish is worth 0.01, up to twenty of them; being featured 0.1 and being boosted 0.05. */
  lemma WishPoints(s: Signals, t: Signals)
    requires !Excluded(s) && t == s.(wishes := t.wishes, featured := t.featured, boosted := t.boosted)
    requires SocialProof(s) < 10.0
    ensures Score(t) - Score(s)
            == Gain(0.1, SocialProof(s),
                    0.01 * (UpTo(t.wishes, 20) - UpTo(s.wishes, 20)) + 0.1 * (One(t.featured) - One(s.featured))
                    + 0.05 * (One(t.boosted) - One(s.boosted)))
  {
    OnlyProduct(s, t);
    ProductInputs(s, t);
    WishesInSocial(s, t);
  }

  /** A point of trust is worth 0.004, the badge of a trusted seller 0.1 and of an elite one 0.2. */
  lemma TrustPoints(s: Signals, trust: Trust)
    requires !Excluded(s) && s.trust.None? && SocialProof(s) < 10.0
    ensures Score(s.(trust := Some(trust))) - Score(s)
            == Gain(0.1, SocialProof(s),
                    0.004 * trust.score + 0.1 * One(trust.badge == Trusted) + 0.2 * One(trust.badge == Elite))
  {
    OnlyProduct(s, s.(trust := Some(trust)));
    ProductInputs(s, s.(trust := Some(trust)));
  }

  /** What the share of views that led to a cart is worth: nothing up to a tenth, then itself, from a fifth on
      0.2. */
  function CartShare(carts: nat, views: nat): real {
    var seen := if views == 0 then 1 else views;
    if 10 * carts <= seen then 0.0 else if 5 * carts >= seen then 0.2 else carts as real / seen as real
  }

  lemma CartRatePoints(s: Signals)
    ensures CartBonus(s.carts, s.views) == 10.0 * CartShare(s.carts, s.views)
  {
    var seen := if s.views == 0 then 1 else s.views;
    assert CartRate(s.carts, s.views) == s.carts as real / seen as real;
    Ratio(s.carts as real, seen as real, 0.1);
    Ratio(s.carts as real, seen as real, 0.2);
  }

  lemma CartsInMarket(s: Signals, t: Signals)
    requires t == s.(carts := t.carts) && MarketDynamics(s) < 10.0
    ensures 0.1 * (MarketDynamics(t) - MarketDynamics(s))
            == Gain(0.1, MarketDynamics(s), CartShare(t.carts, t.views) - CartShare(s.carts, s.views))
  {
    CartRatePoints(s);
    CartRatePoints(t);
  }

  lemma CartsInSocial(s: Signals, t: Signals)
    requires t == s.(carts := t.carts) && SocialProof(s) < 10.0
    ensures 0.1 * (SocialProof(t) - SocialProof(s))
            == Gain(0.1, SocialProof(s), 0.015 * (UpTo(t.carts, 20) - UpTo(s.carts, 20)))
  {
  }

  /** Each cart is worth 0.015, up to twenty of them, besides what their share is worth. */
  lemma CartPoints(s: Signals, t: Signals)
    requires !Excluded(s) && t == s.(carts := t.carts)
    requires SocialProof(s) < 10.0 && MarketDynamics(s) < 10.0
    ensures Score(t) - Score(s)
            == Gain(0.1, SocialProof(s), 0.015 * (UpTo(t.carts, 20) - UpTo(s.carts, 20)))
               + Gain(0.1, MarketDynamics(s), CartShare(t.carts, t.views) - CartShare(s.carts, s.views))
  {
    OnlyProduct(s, t);
    CartsInMarket(s, t);
    CartsInSocial(s, t);
  }

  // ---- The market -----------------------------------------------------------------------------------

  /** A flash sale is worth 0.4; the last two pieces 0.3, the last five 0.2. */
  lemma StockPoints(s: Signals, t: Signals)
    requires !Excluded(s) && t == s.(flashSale := t.flashSale, lowStock := t.lowStock, quantity := t.quantity)
    requires !s.flashSale && !s.lowStock && MarketDynamics(s) < 10.0
    ensures Score(t) - Score(s)
            == Gain(0.1, MarketDynamics(s),
                    0.4 * One(t.flashSale)
                    + if !t.lowStock || t.quantity > 5 then 0.0 else if t.quantity > 2 then 0.2 else 0.3)
  {
    OnlyProduct(s, t);
    ProductInputs(s, t);
  }

  /** The first day is worth 0.2, the first three days 0.15, the first week 0.1. */
  lemma AgePoints(s: Signals, t: Signals)
    requires !Excluded(s) && t == s.(ageHours := t.ageHours) && s.ageHours >= 168.0
    requires MarketDynamics(s) < 10.0
    ensures Score(t) - Score(s)
            == Gain(0.1, MarketDynamics(s),
                    if t.ageHours < 24.0 then 0.2 else if t.ageHours < 72.0 then 0.15
                    else if t.ageHours < 168.0 then 0.1 else 0.0)
  {
    OnlyProduct(s, t);
    ProductInputs(s, t);
  }

  /** A price drop is worth a tenth of its bonus. */
  lemma DropPoints(s: Signals, t: Signals)
    requires !Excluded(s) && !s.priceDrop && t == s.(priceDrop := true) && MarketDynamics(s) < 10.0
    ensures Score(t) - Score(s) == Gain(0.1, MarketDynamics(s), 0.1 * DropBonus(s.price, true, s.compareAt))
  {
    OnlyProduct(s, t);
    ProductInputs(s, t);
  }

  /** The bonus is ten times the part of the comparison price that is saved, up to three tenths of it. */
  lemma DropWorth(price: real, compareAt: Positive, bonus: real)
    requires bonus == DropBonus(price, true, Some(compareAt))
    ensures if price >= compareAt then bonus == 0.0
            else if price <= 0.7 * compareAt then bonus == 3.0
            else bonus * compareAt == 10.0 * (compareAt - price)
  {
    if price < compareAt {
      Ratio(compareAt - price, compareAt, 0.3);
      assert compareAt - price == Discount(price, compareAt) * compareAt;
    }
  }

  // ---- The profile ----------------------------------------------------------------------------------

  function WithProfile(s: Signals, p: Profile): Signals {
    s.(profile := Some(p))
  }

  /** A price near the purchasing power is worth 0.1, a seller in the same province 0.15. */
  lemma AffinityPoints(s: Signals, p: Profile, q: Profile)
    requires !Excluded(s) && q == p.(nearPower := q.nearPower, sameProvince := q.sameProvince)
    requires UserDna(WithProfile(s, p)) < 10.0
    ensures Score(WithProfile(s, q)) - Score(WithProfile(s, p))
            == Gain(0.05, UserDna(WithProfile(s, p)),
                    0.1 * (One(q.nearPower) - One(p.nearPower)) + 0.15 * (One(q.sameProvince) - One(p.sameProvince)))
  {
    var a, b := WithProfile(s, p), WithProfile(s, q);
    OnlyPersonal(a, b);
  }

  /** A price within the budget is worth 0.15; one above it costs 0.1, of which 0.06 are given back up to one
      and a half times the budget. A budget of zero means 999999999. All this is against no profile at all. */
  lemma BudgetPoints(s: Signals, p: Profile)
    requires !Excluded(s) && s.profile.None? && p == Profile(p.budgetMin, p.budgetMax, false, false, 0)
    ensures var budget := if p.budgetMax > 0 then p.budgetMax as real else 999999999.0;
            Score(WithProfile(s, p)) - Score(s)
            == if p.budgetMax > 0 && budget < s.price <= 1.5 * budget then -0.04
               else if s.price > budget then -0.1
               else if s.price >= p.budgetMin as real then 0.15
               else 0.0
  {
    OnlyPersonal(s, WithProfile(s, p));
  }

  // ---- Luck and the past ----------------------------------------------------------------------------

  /** A view without a bounce is worth 0.01, a bounce costs 0.05; the lot of a new category decides over 0.2. */
  lemma PastPoints(s: Signals, t: Signals)
    requires !Excluded(s) && t == s.(past := t.past, lucky := t.lucky)
    ensures Score(t) - Score(s)
            == 0.01 * (One(t.past == Viewed) - One(s.past == Viewed))
               - 0.05 * (One(t.past == Bounced) - One(s.past == Bounced))
               + (if s.categoryTaste == 0.0 then 0.2 * (One(t.lucky) - One(s.lucky)) else 0.0)
  {
    OnlyPersonal(s, t);
    PersonalInputs(s, t);
  }

  /** Hard exclusions: what was returned, and what was bought unless it is on the wish list again. */
  lemma ExcludedIff(s: Signals)
    ensures Score(s) < 0.0 <==> s.returned || (s.purchased && !s.wishlisted)
    ensures s.returned || (s.purchased && !s.wishlisted) ==> Score(s) == -999.0
  {
    ScoreRange(s);
  }
}

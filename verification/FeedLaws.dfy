/** What a built feed looks like, for every list of candidates and every limit. */
module FeedLaws {
  import opened Common
  import opened Feed

  ghost predicate Descending(xs: seq<Item>) {
    forall i, k :: 0 <= i < k < |xs| ==> xs[i].score >= xs[k].score
  }

  ghost predicate Distinct(xs: seq<Item>) {
    forall i, k :: 0 <= i < k < |xs| ==> xs[i].id != xs[k].id
  }

  /** The items of one score, in order. */
  function WithScore(xs: seq<Item>, v: real): seq<Item> {
    if xs == [] then []
    else WithScore(xs[..|xs| - 1], v) + (if xs[|xs| - 1].score == v then [xs[|xs| - 1]] else [])
  }

  // ---- The ranking ----------------------------------------------------------------------------

  lemma WithScoreAppend(xs: seq<Item>, x: Item, v: real)
    ensures WithScore(xs + [x], v) == WithScore(xs, v) + (if x.score == v then [x] else [])
  {
    assert (xs + [x])[..|xs|] == xs;
  }

  lemma {:induction false} InsertSorts(xs: seq<Item>, x: Item)
    requires Descending(xs)
    ensures Descending(Insert(xs, x)) && |Insert(xs, x)| == |xs| + 1
    ensures forall y :: y in Insert(xs, x) <==> y in xs || y == x
  {
    if xs != [] && xs[|xs| - 1].score < x.score {
      var init := xs[..|xs| - 1];
      InsertSorts(init, x);
      assert xs == init + [xs[|xs| - 1]];
      forall y | y in Insert(init, x)
        ensures y.score >= xs[|xs| - 1].score
      {
        assert y in init || y == x;
      }
    }
  }

  lemma {:induction false} InsertIsStable(xs: seq<Item>, x: Item, v: real)
    requires Descending(xs)
    ensures WithScore(Insert(xs, x), v) == WithScore(xs, v) + (if x.score == v then [x] else [])
  {
    if xs == [] || xs[|xs| - 1].score >= x.score {
      WithScoreAppend(xs, x, v);
    } else {
      var init, last := xs[..|xs| - 1], xs[|xs| - 1];
      InsertIsStable(init, x, v);
      WithScoreAppend(Insert(init, x), last, v);
      if x.score == v {
        assert last.score != v;
      }
    }
  }

  /** The ranking is in descending order and keeps, score by score, the candidate order: it is the
      stable sort, and so a rearrangement of what was scored. */
  lemma {:induction false} RankingIsStableSort(xs: seq<Item>, v: real)
    ensures Descending(SortDescending(xs))
    ensures WithScore(SortDescending(xs), v) == WithScore(xs, v)
    ensures |SortDescending(xs)| == |xs|
    ensures forall y :: y in SortDescending(xs) <==> y in xs
  {
    RankingSorts(xs);
    if xs != [] {
      var init, x := xs[..|xs| - 1], xs[|xs| - 1];
      RankingIsStableSort(init, v);
      InsertIsStable(SortDescending(init), x, v);
    }
  }

  lemma {:induction false} RankingSorts(xs: seq<Item>)
    ensures Descending(SortDescending(xs)) && |SortDescending(xs)| == |xs|
    ensures forall y :: y in SortDescending(xs) <==> y in xs
  {
    if xs != [] {
      var init, x := xs[..|xs| - 1], xs[|xs| - 1];
      RankingSorts(init);
      InsertSorts(SortDescending(init), x);
      assert xs == init + [x];
    }
  }

  lemma {:induction false} InsertKeepsDistinct(xs: seq<Item>, x: Item)
    requires Distinct(xs) && forall y :: y in xs ==> y.id != x.id
    ensures Distinct(Insert(xs, x))
    ensures forall y :: y in Insert(xs, x) ==> y in xs || y == x
  {
    if xs != [] && xs[|xs| - 1].score < x.score {
      var init, last := xs[..|xs| - 1], xs[|xs| - 1];
      Beyond(xs);
      InsertKeepsDistinct(init, x);
      assert last in xs;
      AppendKeeps(Insert(init, x), last);
    }
  }

  lemma RankedLists(scored: seq<Item>, limit: nat)
    ensures var ranked := SortDescending(scored);
            Descending(Prefix(Tops(ranked), limit)) && Descending(Discoveries(ranked))
  {
    RankingIsStableSort(scored, 0.0);
    TopsInOrder(SortDescending(scored));
    DiscoveriesInOrder(SortDescending(scored));
  }

  lemma {:induction false} RankingKeepsDistinct(xs: seq<Item>)
    requires Distinct(xs)
    ensures Distinct(SortDescending(xs))
  {
    if xs != [] {
      var init, x := xs[..|xs| - 1], xs[|xs| - 1];
      RankingKeepsDistinct(init);
      RankingIsStableSort(init, 0.0);
      forall y | y in SortDescending(init)
        ensures y.id != x.id
      {
        assert y in init;
        var i :| 0 <= i < |init| && init[i] == y;
        assert xs[i] == y;
      }
      InsertKeepsDistinct(SortDescending(init), x);
    }
  }

  /** Exactly the candidates that are not hard-excluded are kept, in their order. */
  lemma ScoredAppend(cs: seq<Candidate>, c: Candidate)
    ensures Scored(cs + [c]) == Scored(cs) + (if Excluded(c.signals) then [] else [Item(c.id, Score(c.signals))])
  {
    assert (cs + [c])[..|cs|] == cs;
    assert Scored(cs) + [] == Scored(cs);
    ScoreRange(c.signals);
  }

  ghost predicate KeptCandidate(cs: seq<Candidate>, id: ProductId) {
    exists i :: 0 <= i < |cs| && cs[i].id == id && !Excluded(cs[i].signals)
  }

  lemma KeptAppend(cs: seq<Candidate>, c: Candidate, id: ProductId)
    ensures KeptCandidate(cs + [c], id) <==> KeptCandidate(cs, id) || (c.id == id && !Excluded(c.signals))
  {
    var all := cs + [c];
    assert all[|cs|] == c;
    if KeptCandidate(cs, id) {
      var i :| 0 <= i < |cs| && cs[i].id == id && !Excluded(cs[i].signals);
      assert all[i] == cs[i];
    }
  }

  ghost predicate HasId(xs: seq<Item>, id: ProductId) {
    exists y :: y in xs && y.id == id
  }

  lemma HasIdAppend(xs: seq<Item>, x: Item, id: ProductId)
    ensures HasId(xs + [x], id) <==> HasId(xs, id) || x.id == id
  {
    assert x in xs + [x];
    if HasId(xs, id) {
      var y :| y in xs && y.id == id;
      assert y in xs + [x];
    }
  }

  lemma {:induction false} ScoredHasKept(cs: seq<Candidate>, id: ProductId)
    ensures HasId(Scored(cs), id) <==> KeptCandidate(cs, id)
  {
    if cs != [] {
      var init, c := cs[..|cs| - 1], cs[|cs| - 1];
      assert cs == init + [c];
      ScoredHasKept(init, id);
      ScoredAppend(init, c);
      KeptAppend(init, c, id);
      HasIdAppend(Scored(init), Item(c.id, Score(c.signals)), id);
    }
  }

  lemma {:induction false} ScoredKeepsDistinct(cs: seq<Candidate>)
    requires forall i, k :: 0 <= i < k < |cs| ==> cs[i].id != cs[k].id
    ensures Distinct(Scored(cs))
  {
    if cs != [] {
      var init, c := cs[..|cs| - 1], cs[|cs| - 1];
      assert cs == init + [c];
      ScoredKeepsDistinct(init);
      ScoredAppend(init, c);
      ScoredHasKept(init, c.id);
      AppendKeeps(Scored(init), Item(c.id, Score(c.signals)));
    }
  }

  // ---- Top items and discoveries ----------------------------------------------------------------

  /** Appending an item that belongs last keeps a list in order. */
  lemma AppendKeeps(xs: seq<Item>, x: Item)
    ensures Descending(xs) && (forall y :: y in xs ==> y.score >= x.score) ==> Descending(xs + [x])
    ensures Distinct(xs) && (forall y :: y in xs ==> y.id != x.id) ==> Distinct(xs + [x])
  {
    assert forall i :: 0 <= i < |xs| ==> xs[i] in xs;
  }

  /** The last item of a list against the ones before it. */
  lemma Beyond(xs: seq<Item>)
    requires xs != []
    ensures forall y :: y in xs[..|xs| - 1] ==> y in xs
    ensures Descending(xs) ==> forall y :: y in xs[..|xs| - 1] ==> y.score >= xs[|xs| - 1].score
    ensures Distinct(xs) ==> forall y :: y in xs[..|xs| - 1] ==> y.id != xs[|xs| - 1].id
  {
    forall y | y in xs[..|xs| - 1]
      ensures Descending(xs) ==> y.score >= xs[|xs| - 1].score
      ensures Distinct(xs) ==> y.id != xs[|xs| - 1].id
    {
      var i :| 0 <= i < |xs| - 1 && xs[..|xs| - 1][i] == y;
      assert xs[i] == y;
    }
  }

  lemma {:induction false} TopMembers(xs: seq<Item>)
    ensures forall y :: y in Tops(xs) <==> y in xs && y.score >= TOP_SCORE
  {
    if xs != [] {
      TopMembers(xs[..|xs| - 1]);
      assert xs == xs[..|xs| - 1] + [xs[|xs| - 1]];
    }
  }

  lemma {:induction false} DiscoveryMembers(xs: seq<Item>)
    ensures forall y :: y in Discoveries(xs) <==> y in xs && 0.0 < y.score < TOP_SCORE
  {
    if xs != [] {
      DiscoveryMembers(xs[..|xs| - 1]);
      assert xs == xs[..|xs| - 1] + [xs[|xs| - 1]];
    }
  }

  /** Both selections keep the order of the ranking and introduce no repeats. */
  lemma {:induction false} TopsInOrder(xs: seq<Item>)
    ensures Descending(xs) ==> Descending(Tops(xs))
    ensures Distinct(xs) ==> Distinct(Tops(xs))
  {
    if xs != [] {
      var init := xs[..|xs| - 1];
      TopsInOrder(init);
      TopMembers(init);
      Beyond(xs);
      AppendKeeps(Tops(init), xs[|xs| - 1]);
    }
  }

  lemma {:induction false} DiscoveriesInOrder(xs: seq<Item>)
    ensures Descending(xs) ==> Descending(Discoveries(xs))
    ensures Distinct(xs) ==> Distinct(Discoveries(xs))
  {
    if xs != [] {
      var init := xs[..|xs| - 1];
      DiscoveriesInOrder(init);
      DiscoveryMembers(init);
      Beyond(xs);
      AppendKeeps(Discoveries(init), xs[|xs| - 1]);
    }
  }

  lemma SameIdSameItem(xs: seq<Item>, a: Item, b: Item)
    requires Distinct(xs) && a in xs && b in xs && a.id == b.id
    ensures a == b
  {
    var i :| 0 <= i < |xs| && xs[i] == a;
    var k :| 0 <= k < |xs| && xs[k] == b;
    assert i == k;
  }

  lemma {:induction false} ScoresArePositive(cs: seq<Candidate>)
    ensures forall y :: y in Scored(cs) ==> y.score > 0.0
  {
    if cs != [] {
      var init, c := cs[..|cs| - 1], cs[|cs| - 1];
      assert cs == init + [c];
      ScoresArePositive(init);
      ScoredAppend(init, c);
      ScoreRange(c.signals);
    }
  }

  lemma {:induction false} PositiveItemsSplit(xs: seq<Item>)
    requires forall y :: y in xs ==> y.score > 0.0
    ensures |Tops(xs)| + |Discoveries(xs)| == |xs|
  {
    if xs != [] {
      assert xs == xs[..|xs| - 1] + [xs[|xs| - 1]];
      PositiveItemsSplit(xs[..|xs| - 1]);
    }
  }

  /** Nothing falls between the two selections: the lower bound of the discoveries drops no product, so every
      candidate that is kept is a top item or a discovery, and none is both. */
  lemma NothingFallsThrough(cs: seq<Candidate>)
    ensures var ranked := SortDescending(Scored(cs));
            && |Tops(ranked)| + |Discoveries(ranked)| == |Scored(cs)|
            && forall y :: y in Scored(cs) ==> (y in Tops(ranked) <==> y !in Discoveries(ranked))
  {
    var ranked := SortDescending(Scored(cs));
    RankingIsStableSort(Scored(cs), 0.0);
    ScoresArePositive(cs);
    PositiveItemsSplit(ranked);
    TopMembers(ranked);
    DiscoveryMembers(ranked);
  }

  // ---- The finished feed ------------------------------------------------------------------------

  /** The discovery places of a feed: index 8k+7 for the k-th discovery, as long as there is one. */
  predicate IsDiscoveryPlace(scored: seq<Item>, limit: nat, j: nat) {
    var ranked := SortDescending(scored);
    j % 8 == 7 && j / 8 < Placed(Prefix(Tops(ranked), limit), Discoveries(ranked))
  }

  lemma FeedIsSlots(scored: seq<Item>, limit: nat, top: seq<Item>, found: seq<Item>, j: nat)
    requires j < |FeedFrom(scored, limit)|
    requires top == Prefix(Tops(SortDescending(scored)), limit) && found == Discoveries(SortDescending(scored))
    ensures j < |top| + Placed(top, found) && FeedFrom(scored, limit)[j] == Slot(top, found, j)
  {
  }

  /** Every place holds a discovery or a top item, by its index alone. */
  lemma SlotKind(top: seq<Item>, found: seq<Item>, j: nat)
    requires j < |top| + Placed(top, found)
    ensures if j % 8 == 7 && j / 8 < Placed(top, found)
            then j / 8 < |found| && Slot(top, found, j) == found[j / 8] && Slot(top, found, j) in found
            else Slot(top, found, j) in top
  {
  }

  /** A feed has at most `limit` items: as many top items as fit, and one discovery behind each full run of seven
      of them, as long as there are any. */
  lemma FeedSize(scored: seq<Item>, limit: nat)
    ensures var ranked := SortDescending(scored);
            var top := Min(|Tops(ranked)|, limit);
            |FeedFrom(scored, limit)| == Min(limit, top + Min(|Discoveries(ranked)|, top / 7))
  {
  }

  /** The k-th discovery stands at index 8k+7 and nowhere else, as long as there is one and a full run of seven top
      items stands before it; every other place holds a top item; all of them were scored. */
  lemma FeedLayout(scored: seq<Item>, limit: nat, j: nat)
    requires j < |FeedFrom(scored, limit)|
    ensures |FeedFrom(scored, limit)| <= limit
    ensures IsDiscoveryPlace(scored, limit, j) <==> FeedFrom(scored, limit)[j].score < 4.0
    ensures var ranked := SortDescending(scored);
            IsDiscoveryPlace(scored, limit, j) <==>
              j % 8 == 7 && j / 8 < Min(|Discoveries(ranked)|, Min(|Tops(ranked)|, limit) / 7)
    ensures var found := Discoveries(SortDescending(scored));
            IsDiscoveryPlace(scored, limit, j) ==> j / 8 < |found| && FeedFrom(scored, limit)[j] == found[j / 8]
    ensures FeedFrom(scored, limit)[j].score > 0.0 && FeedFrom(scored, limit)[j] in scored
  {
    var ranked := SortDescending(scored);
    RankingIsStableSort(scored, 0.0);
    TopMembers(ranked);
    DiscoveryMembers(ranked);
    var top, found := Prefix(Tops(ranked), limit), Discoveries(ranked);
    FeedIsSlots(scored, limit, top, found, j);
    SlotKind(top, found, j);
    assert forall y :: y in top ==> y in Tops(ranked);
  }

  lemma SlotOrder(top: seq<Item>, found: seq<Item>, i: nat, j: nat)
    requires i < j < |top| + Placed(top, found) && Descending(top) && Descending(found)
    requires var n := Placed(top, found); (i % 8 == 7 && i / 8 < n) == (j % 8 == 7 && j / 8 < n)
    ensures Slot(top, found, i).score >= Slot(top, found, j).score
  {
    var n := Placed(top, found);
    if i % 8 == 7 && i / 8 < n {
    } else {
      assert i - Min(n, i / 8) <= j - Min(n, j / 8);
    }
  }

  /** Top items appear in descending score order, and so do the discoveries between them. */
  lemma FeedOrder(scored: seq<Item>, limit: nat, i: nat, j: nat)
    requires i < j < |FeedFrom(scored, limit)|
    requires IsDiscoveryPlace(scored, limit, i) == IsDiscoveryPlace(scored, limit, j)
    ensures FeedFrom(scored, limit)[i].score >= FeedFrom(scored, limit)[j].score
  {
    var ranked := SortDescending(scored);
    RankedLists(scored, limit);
    var top, found := Prefix(Tops(ranked), limit), Discoveries(ranked);
    FeedIsSlots(scored, limit, top, found, i);
    FeedIsSlots(scored, limit, top, found, j);
    SlotOrder(top, found, i, j);
  }

  /** Two places of the same kind hold different entries of the same list. */
  lemma SameKindDistinct(top: seq<Item>, found: seq<Item>, i: nat, j: nat)
    requires i < j < |top| + Placed(top, found) && Distinct(top) && Distinct(found)
    requires var n := Placed(top, found); (i % 8 == 7 && i / 8 < n) == (j % 8 == 7 && j / 8 < n)
    ensures Slot(top, found, i).id != Slot(top, found, j).id
  {
    var n := Placed(top, found);
    if !(i % 8 == 7 && i / 8 < n) {
      assert i - Min(n, i / 8) < j - Min(n, j / 8);
    }
  }

  lemma SlotsDistinct(xs: seq<Item>, top: seq<Item>, found: seq<Item>, i: nat, j: nat)
    requires Distinct(xs) && Distinct(top) && Distinct(found)
    requires forall y :: y in top ==> y in xs && y.score >= TOP_SCORE
    requires forall y :: y in found ==> y in xs && y.score < TOP_SCORE
    requires i < j < |top| + Placed(top, found)
    ensures Slot(top, found, i).id != Slot(top, found, j).id
  {
    var n := Placed(top, found);
    if (i % 8 == 7 && i / 8 < n) == (j % 8 == 7 && j / 8 < n) {
      SameKindDistinct(top, found, i, j);
    } else {
      SlotKind(top, found, i);
      SlotKind(top, found, j);
      if Slot(top, found, i).id == Slot(top, found, j).id {
        SameIdSameItem(xs, Slot(top, found, i), Slot(top, found, j));
      }
    }
  }

  lemma ArrangedDistinct(scored: seq<Item>, limit: nat)
    requires Distinct(scored)
    ensures Distinct(FeedFrom(scored, limit))
  {
    var ranked := SortDescending(scored);
    RankingKeepsDistinct(scored);
    TopMembers(ranked);
    TopsInOrder(ranked);
    DiscoveryMembers(ranked);
    DiscoveriesInOrder(ranked);
    var top, found := Prefix(Tops(ranked), limit), Discoveries(ranked);
    assert forall y :: y in top ==> y in Tops(ranked);
    forall i, j | 0 <= i < j < |FeedFrom(scored, limit)|
      ensures FeedFrom(scored, limit)[i].id != FeedFrom(scored, limit)[j].id
    {
      FeedIsSlots(scored, limit, top, found, i);
      FeedIsSlots(scored, limit, top, found, j);
      SlotsDistinct(ranked, top, found, i, j);
    }
  }

  /** No product appears twice when the candidates are distinct. */
  lemma FeedHasNoRepeats(cs: seq<Candidate>, limit: nat)
    requires forall i, k :: 0 <= i < k < |cs| ==> cs[i].id != cs[k].id
    ensures Distinct(FeedFrom(Scored(cs), limit))
  {
    ScoredKeepsDistinct(cs);
    ArrangedDistinct(Scored(cs), limit);
  }

  /** How many of the first `j` places hold discoveries. */
  function Before(top: seq<Item>, found: seq<Item>, j: nat): nat {
    Min(Placed(top, found), j / 8)
  }

  /** Place `j` continues either the discoveries or the top items where the first `j` places left off. */
  lemma SlotContinues(top: seq<Item>, found: seq<Item>, j: nat)
    requires j < |top| + Placed(top, found)
    ensures var d := Before(top, found, j);
            && d <= j
            && if j % 8 == 7 && j / 8 < Placed(top, found)
               then d < |found| && Slot(top, found, j) == found[d] && Before(top, found, j + 1) == d + 1
               else j - d < |top| && Slot(top, found, j) == top[j - d] && Before(top, found, j + 1) == d
  {
  }

  lemma SplitAppend(xs: seq<Item>, y: Item)
    ensures Tops(xs + [y]) == if y.score >= TOP_SCORE then Tops(xs) + [y] else Tops(xs)
    ensures Discoveries(xs + [y]) == if 0.0 < y.score < TOP_SCORE then Discoveries(xs) + [y] else Discoveries(xs)
  {
    assert (xs + [y])[..|xs|] == xs;
  }

  /** The items `xs` are the first `t` of `top` and the first `d` of `found`, somehow interleaved. */
  ghost predicate Splits(xs: seq<Item>, top: seq<Item>, found: seq<Item>, t: int, d: int) {
    && 0 <= t <= |top| && 0 <= d <= |found|
    && Tops(xs) == top[..t] && Discoveries(xs) == found[..d]
  }

  lemma TopContinues(xs: seq<Item>, top: seq<Item>, found: seq<Item>, t: nat, d: nat)
    requires Splits(xs, top, found, t, d) && t < |top| && top[t].score >= TOP_SCORE
    ensures Splits(xs + [top[t]], top, found, t + 1, d)
  {
    SplitAppend(xs, top[t]);
  }

  lemma DiscoveryContinues(xs: seq<Item>, top: seq<Item>, found: seq<Item>, t: nat, d: nat)
    requires Splits(xs, top, found, t, d) && d < |found| && 0.0 < found[d].score < TOP_SCORE
    ensures Splits(xs + [found[d]], top, found, t, d + 1)
  {
    SplitAppend(xs, found[d]);
  }

  /** `xs` is made of a beginning of `top` and one of `found`, the latter as long as its length tells. */
  ghost predicate SplitsEvenly(xs: seq<Item>, top: seq<Item>, found: seq<Item>) {
    Splits(xs, top, found, |xs| - Before(top, found, |xs|), Before(top, found, |xs|))
  }

  lemma OneMoreSplits(xs: seq<Item>, top: seq<Item>, found: seq<Item>, y: Item, d: nat, d': nat)
    requires forall x :: x in top ==> x.score >= TOP_SCORE
    requires forall x :: x in found ==> 0.0 < x.score < TOP_SCORE
    requires Splits(xs, top, found, |xs| - d, d)
    requires if d' > d then d' == d + 1 <= |found| && y == found[d]
             else d' == d <= |xs| < |top| + d && y == top[|xs| - d]
    ensures Splits(xs + [y], top, found, |xs| + 1 - d', d')
  {
    if d' > d {
      DiscoveryContinues(xs, top, found, |xs| - d, d);
    } else {
      TopContinues(xs, top, found, |xs| - d, d);
    }
  }

  lemma SlotSplits(xs: seq<Item>, top: seq<Item>, found: seq<Item>)
    requires forall y :: y in top ==> y.score >= TOP_SCORE
    requires forall y :: y in found ==> 0.0 < y.score < TOP_SCORE
    requires |xs| < |top| + Placed(top, found)
    requires SplitsEvenly(xs, top, found)
    ensures SplitsEvenly(xs + [Slot(top, found, |xs|)], top, found)
  {
    var j := |xs|;
    SlotContinues(top, found, j);
    OneMoreSplits(xs, top, found, Slot(top, found, j), Before(top, found, j), Before(top, found, j + 1));
  }

  lemma OneMoreSlot(xs: seq<Item>, top: seq<Item>, found: seq<Item>)
    requires xs != [] && xs <= Interleaved(top, found)
    ensures xs == xs[..|xs| - 1] + [Slot(top, found, |xs| - 1)]
  {
  }

  /** Every beginning of an interleaving is made of a beginning of the top items and one of the
      discoveries. */
  lemma {:induction false} InterleavingSplitsBack(top: seq<Item>, found: seq<Item>, xs: seq<Item>)
    requires forall y :: y in top ==> y.score >= TOP_SCORE
    requires forall y :: y in found ==> 0.0 < y.score < TOP_SCORE
    requires xs <= Interleaved(top, found)
    ensures SplitsEvenly(xs, top, found)
  {
    if xs != [] {
      InterleavingSplitsBack(top, found, xs[..|xs| - 1]);
      SlotSplits(xs[..|xs| - 1], top, found);
      OneMoreSlot(xs, top, found);
    }
  }

  /** Reading a feed back: its top items are the best ones without a gap, its discoveries the best
      discoveries without a gap. */
  lemma FeedSkipsNothing(scored: seq<Item>, limit: nat)
    ensures Tops(FeedFrom(scored, limit)) <= Tops(SortDescending(scored))
    ensures Discoveries(FeedFrom(scored, limit)) <= Discoveries(SortDescending(scored))
  {
    var ranked := SortDescending(scored);
    TopMembers(ranked);
    DiscoveryMembers(ranked);
    var top, found := Prefix(Tops(ranked), limit), Discoveries(ranked);
    assert forall y :: y in top ==> y in Tops(ranked);
    InterleavingSplitsBack(top, found, FeedFrom(scored, limit));
  }

  /** A feed is empty exactly when nothing may be shown or no candidate reaches the top score:
      discoveries alone never make a feed. */
  lemma FeedIsEmptyIff(scored: seq<Item>, limit: nat)
    ensures FeedFrom(scored, limit) == [] <==> limit == 0 || forall y :: y in scored ==> y.score < 4.0
  {
    var ranked := SortDescending(scored);
    RankingIsStableSort(scored, 0.0);
    TopMembers(ranked);
    if Tops(ranked) != [] {
      assert Tops(ranked)[0] in Tops(ranked);
    }
  }
}

/** Saved-search alerts: each run notifies about the matches that the baseline does not know yet. */
module Alerts {
  import opened Common

  const MAX_BASELINE_SIZE := 200
  const MAX_NEW_IDS := 50

  type ProductId = string

  datatype Delivery = Delivery(products: seq<ProductId>, at: int)

  datatype Search = Search(active: bool, interval: nat, baseline: seq<ProductId>, lastRunAt: int,
                           lastNotifiedAt: Option<int>, deliveries: seq<Delivery>)

  datatype Result = Inactive | NothingNew | RateLimited | Notified

  function Prefix(ids: seq<ProductId>, n: nat): seq<ProductId> {
    if |ids| <= n then ids else ids[..n]
  }

  /** The matches that are not in the baseline, in match order. */
  function Unknown(matches: seq<ProductId>, baseline: seq<ProductId>): (r: seq<ProductId>)
    ensures forall id :: id in r <==> id in matches && id !in baseline
  {
    if matches == [] then []
    else Unknown(matches[..|matches| - 1], baseline)
         + (if matches[|matches| - 1] in baseline then [] else [matches[|matches| - 1]])
  }

  function NewIds(s: Search, matches: seq<ProductId>): seq<ProductId> {
    Prefix(Unknown(matches, s.baseline), MAX_NEW_IDS)
  }

  function Union(a: seq<ProductId>, b: seq<ProductId>): set<ProductId> {
    (set x | x in a) + (set x | x in b)
  }

  /** A search starts from the first matches of the day it is saved. */
  function Saved(matches: seq<ProductId>, interval: nat, now: int): Search {
    Search(true, interval, Prefix(matches, MAX_BASELINE_SIZE), now, None, [])
  }

  predicate CoolingDown(s: Search, now: int) {
    s.lastNotifiedAt.Some? && now - s.lastNotifiedAt.value < s.interval
  }

  ghost predicate AllDistinct(ids: seq<ProductId>) {
    forall i, k :: 0 <= i < k < |ids| ==> ids[i] != ids[k]
  }

  /** A list of the elements of a set in some order, cut to a size. */
  ghost predicate IsTrimmed(ids: seq<ProductId>, all: set<ProductId>, size: nat) {
    && AllDistinct(ids)
    && (forall id :: id in ids ==> id in all)
    && |ids| == if |all| <= size then |all| else size
  }

  /** One run. The order in which a set lists its elements is left open, and with it what a full
      baseline drops. */
  ghost predicate RunStep(s: Search, matches: seq<ProductId>, now: int, s': Search, r: Result) {
    if !s.active then s' == s && r == Inactive
    else if NewIds(s, matches) == [] then s' == s.(lastRunAt := now) && r == NothingNew
    else if CoolingDown(s, now) then s' == s.(lastRunAt := now) && r == RateLimited
    else
      && r == Notified
      && s' == s.(lastRunAt := now, lastNotifiedAt := Some(now), baseline := s'.baseline,
                  deliveries := s.deliveries + [Delivery(NewIds(s, matches), now)])
      && IsTrimmed(s'.baseline, Union(s.baseline, matches), MAX_BASELINE_SIZE)
  }

  class SavedSearch {
    const interval: nat
    var active: bool
    var baseline: seq<ProductId>
    var lastRunAt: int
    var lastNotifiedAt: Option<int>
    var deliveries: seq<Delivery>

    ghost function View(): Search
      reads this
    {
      Search(active, interval, baseline, lastRunAt, lastNotifiedAt, deliveries)
    }

    constructor (matches: seq<ProductId>, interval: nat, now: int)
      ensures View() == Saved(matches, interval, now)
    {
      this.interval := interval;
      active, lastRunAt, lastNotifiedAt, deliveries := true, now, None, [];
      baseline := if |matches| <= MAX_BASELINE_SIZE then matches else matches[..MAX_BASELINE_SIZE];
    }

    method Run(matches: seq<ProductId>, now: int) returns (r: Result)
      modifies this
      ensures RunStep(old(View()), matches, now, View(), r)
    {
      if !active {
        return Inactive;
      }
      var newIds := FilterNew(matches, baseline);
      newIds := if |newIds| <= MAX_NEW_IDS then newIds else newIds[..MAX_NEW_IDS];
      lastRunAt := now;
      if newIds == [] {
        return NothingNew;
      }
      if lastNotifiedAt.Some? && now - lastNotifiedAt.value < interval {
        return RateLimited;
      }
      var trimmed := Trim(Union(baseline, matches), MAX_BASELINE_SIZE);
      deliveries := deliveries + [Delivery(newIds, now)];
      lastNotifiedAt := Some(now);
      baseline := trimmed;
      return Notified;
    }
  }

  method FilterNew(matches: seq<ProductId>, baseline: seq<ProductId>) returns (newIds: seq<ProductId>)
    ensures newIds == Unknown(matches, baseline)
  {
    newIds := [];
    for i := 0 to |matches|
      invariant newIds == Unknown(matches[..i], baseline)
    {
      assert matches[..i + 1][..i] == matches[..i];
      if matches[i] !in baseline {
        newIds := newIds + [matches[i]];
      }
    }
    assert matches[..|matches|] == matches;
  }

  /** Lists a set in whatever order, up to a size. */
  method Trim(all: set<ProductId>, size: nat) returns (ids: seq<ProductId>)
    ensures IsTrimmed(ids, all, size)
  {
    ids := [];
    var rest := all;
    while rest != {} && |ids| < size
      invariant rest <= all && |ids| + |rest| == |all| && |ids| <= size
      invariant forall id :: id in ids ==> id in all && id !in rest
      invariant AllDistinct(ids)
      decreases rest
    {
      var id :| id in rest;
      rest := rest - {id};
      ids := ids + [id];
    }
  }

  // ---- Laws -----------------------------------------------------------------------------------

  lemma {:induction false} DistinctCount(ids: seq<ProductId>)
    requires AllDistinct(ids)
    ensures |set x | x in ids| == |ids|
  {
    if ids != [] {
      var init, last := ids[..|ids| - 1], ids[|ids| - 1];
      DistinctCount(init);
      assert (set x | x in ids) == (set x | x in init) + {last};
      assert last !in init;
    }
  }

  lemma FullSubset(a: set<ProductId>, b: set<ProductId>)
    requires a <= b && |a| == |b|
    ensures a == b
  {
    assert b == a + (b - a);
  }

  /** A notification remembers every known and matched product exactly when they all fit; otherwise
      it forgets at least one. */
  lemma RemembersIffFits(s: Search, matches: seq<ProductId>, now: int, s': Search)
    requires RunStep(s, matches, now, s', Notified)
    ensures (forall id :: id in s.baseline || id in matches ==> id in s'.baseline)
            <==> |Union(s.baseline, matches)| <= 200
  {
    var all := Union(s.baseline, matches);
    var kept := set x | x in s'.baseline;
    DistinctCount(s'.baseline);
    assert kept <= all;
    if |all| <= MAX_BASELINE_SIZE {
      FullSubset(kept, all);
      forall id | id in s.baseline || id in matches
        ensures id in s'.baseline
      {
        assert id in all;
      }
    } else if forall id :: id in s.baseline || id in matches ==> id in s'.baseline {
      assert all <= kept;
      SubsetCount(all, kept);
    }
  }

  /** One run of a search: what matched, when, what was answered and the state it left. */
  datatype Event = Event(matches: seq<ProductId>, at: int, result: Result, after: Search)

  function StateAfter(s: Search, events: seq<Event>): Search {
    if events == [] then s else events[|events| - 1].after
  }

  /** A possible history of a search that starts in state `s`. */
  ghost predicate History(s: Search, events: seq<Event>) {
    events == []
    || (var init, e := events[..|events| - 1], events[|events| - 1];
        History(s, init) && RunStep(StateAfter(s, init), e.matches, e.at, e.after, e.result))
  }

  /** Everything known fits the baseline in each run of the history. */
  ghost predicate Fits(s: Search, events: seq<Event>) {
    events == []
    || (var init, e := events[..|events| - 1], events[|events| - 1];
        Fits(s, init) && |Union(StateAfter(s, init).baseline, e.matches)| <= MAX_BASELINE_SIZE)
  }

  /** Deliveries share no product with each other nor with what was known at the start, and all of
      them stay known. */
  ghost predicate NeverRepeats(known: seq<ProductId>, s: Search) {
    && (forall id :: id in known ==> id in s.baseline)
    && (forall d, id :: d in s.deliveries && id in d.products ==> id in s.baseline && id !in known)
    && (forall i, k, id :: 0 <= i < k < |s.deliveries| && id in s.deliveries[i].products ==>
          id !in s.deliveries[k].products)
  }

  ghost predicate SpacedOut(s: Search) {
    && (s.lastNotifiedAt == if s.deliveries == [] then None else Some(s.deliveries[|s.deliveries| - 1].at))
    && forall i :: 0 < i < |s.deliveries| ==> s.deliveries[i].at - s.deliveries[i - 1].at >= s.interval
  }

  lemma StepNeverRepeats(known: seq<ProductId>, s: Search, matches: seq<ProductId>, now: int, s': Search, r: Result)
    requires NeverRepeats(known, s) && RunStep(s, matches, now, s', r)
    requires |Union(s.baseline, matches)| <= MAX_BASELINE_SIZE
    ensures NeverRepeats(known, s')
  {
    if r == Notified {
      RemembersIffFits(s, matches, now, s');
      var newIds := NewIds(s, matches);
      forall id | id in newIds
        ensures id in matches && id !in s.baseline
      {
        assert id in Unknown(matches, s.baseline);
      }
      forall d, id | d in s'.deliveries && id in d.products
        ensures id in s'.baseline && id !in known
      {
        assert d in s.deliveries || d == Delivery(newIds, now);
      }
      forall i, k, id | 0 <= i < k < |s'.deliveries| && id in s'.deliveries[i].products
        ensures id !in s'.deliveries[k].products
      {
        assert s'.deliveries[i] == s.deliveries[i] && s.deliveries[i] in s.deliveries;
      }
    }
  }

  /** In every history whose known products fit the baseline, no product is announced twice, nor one
      of the baseline the search was created with. */
  lemma {:induction false} DeliveriesAreDisjoint(s: Search, events: seq<Event>)
    requires History(s, events) && Fits(s, events) && s.deliveries == []
    ensures NeverRepeats(s.baseline, StateAfter(s, events))
  {
    if events != [] {
      var init, e := events[..|events| - 1], events[|events| - 1];
      DeliveriesAreDisjoint(s, init);
      StepNeverRepeats(s.baseline, StateAfter(s, init), e.matches, e.at, e.after, e.result);
    }
  }

  lemma StepKeepsSpacing(s: Search, matches: seq<ProductId>, now: int, s': Search, r: Result)
    requires SpacedOut(s) && RunStep(s, matches, now, s', r)
    ensures SpacedOut(s') && s'.interval == s.interval && s.deliveries <= s'.deliveries
  {
  }

  /** Whatever matches, consecutive deliveries are at least the interval apart. */
  lemma {:induction false} DeliveriesAreSpaced(s: Search, events: seq<Event>)
    requires History(s, events) && SpacedOut(s)
    ensures SpacedOut(StateAfter(s, events)) && StateAfter(s, events).interval == s.interval
    ensures s.deliveries <= StateAfter(s, events).deliveries
  {
    if events != [] {
      var init, e := events[..|events| - 1], events[|events| - 1];
      DeliveriesAreSpaced(s, init);
      StepKeepsSpacing(StateAfter(s, init), e.matches, e.at, e.after, e.result);
    }
  }

  /** A rate-limited run absorbs nothing: whatever it held back is still new for the next run. */
  lemma RateLimitedDefers(s: Search, matches: seq<ProductId>, now: int, s': Search, later: seq<ProductId>)
    requires RunStep(s, matches, now, s', RateLimited)
    ensures s'.baseline == s.baseline && s'.deliveries == s.deliveries && s'.lastNotifiedAt == s.lastNotifiedAt
    ensures NewIds(s', later) == NewIds(s, later) && NewIds(s', matches) != []
  {
  }

  // ---- When a run notifies ------------------------------------------------------------------------

  /** Some match is not in the baseline. */
  ghost predicate FindsNew(s: Search, matches: seq<ProductId>) {
    exists i :: 0 <= i < |matches| && matches[i] !in s.baseline
  }

  lemma NewIdsEmptyIff(s: Search, matches: seq<ProductId>)
    ensures NewIds(s, matches) == [] <==> !FindsNew(s, matches)
  {
    var unseen := Unknown(matches, s.baseline);
    if unseen != [] {
      assert unseen[0] in unseen;
    }
    if FindsNew(s, matches) {
      var i :| 0 <= i < |matches| && matches[i] !in s.baseline;
      assert matches[i] in unseen;
    }
  }

  /** The answer of a run, and the only one that adds a delivery. A run notifies if and only if the search is
      active, something new matches, and the user was never notified or the interval has passed since; each of
      the other answers has its own condition. */
  lemma RunNotifiesIff(s: Search, matches: seq<ProductId>, now: int, s': Search, r: Result)
    requires RunStep(s, matches, now, s', r)
    ensures var rested := s.lastNotifiedAt.None? || now >= s.lastNotifiedAt.value + s.interval;
            && (r == Notified <==> s.active && FindsNew(s, matches) && rested)
            && (r == RateLimited <==> s.active && FindsNew(s, matches) && !rested)
            && (r == NothingNew <==> s.active && !FindsNew(s, matches))
            && (r == Inactive <==> !s.active)
    ensures |s'.deliveries| == |s.deliveries| + (if r == Notified then 1 else 0)
    ensures r == Notified ==> s'.lastNotifiedAt == Some(now) && s'.deliveries[|s.deliveries|].at == now
    ensures s'.lastRunAt == (if s.active then now else s.lastRunAt)
  {
    NewIdsEmptyIff(s, matches);
  }

  /** Every run of the history finds something new. */
  ghost predicate EachFindsNew(s: Search, events: seq<Event>) {
    events == []
    || (var init, e := events[..|events| - 1], events[|events| - 1];
        EachFindsNew(s, init) && FindsNew(StateAfter(s, init), e.matches))
  }

  /** Consecutive runs are at least so far apart. */
  ghost predicate RunsSpaced(events: seq<Event>, interval: nat) {
    |events| < 2
    || (RunsSpaced(events[..|events| - 1], interval)
        && events[|events| - 1].at >= events[|events| - 2].at + interval)
  }

  /** A search that finds something new at every run notifies again as soon as its interval has passed: of runs
      spaced by the interval none is held back, so that each adds its delivery. */
  lemma {:induction false} SpacedRunsAllNotify(s: Search, events: seq<Event>)
    requires History(s, events) && s.active && s.lastNotifiedAt.None?
    requires RunsSpaced(events, s.interval) && EachFindsNew(s, events)
    ensures var s' := StateAfter(s, events);
            && s'.active && s'.interval == s.interval && |s'.deliveries| == |s.deliveries| + |events|
            && s'.lastNotifiedAt == if events == [] then None else Some(events[|events| - 1].at)
  {
    if events != [] {
      var init, e := events[..|events| - 1], events[|events| - 1];
      SpacedRunsAllNotify(s, init);
      RunNotifiesIff(StateAfter(s, init), e.matches, e.at, e.after, e.result);
    }
  }

  lemma {:induction false} UnknownInOrder(matches: seq<ProductId>, baseline: seq<ProductId>, a: nat, b: nat,
                                          i: nat, k: nat)
    requires AllDistinct(matches) && a < b < |matches|
    requires i < |Unknown(matches, baseline)| && k < |Unknown(matches, baseline)|
    requires Unknown(matches, baseline)[i] == matches[a] && Unknown(matches, baseline)[k] == matches[b]
    ensures i < k
  {
    var init, last := matches[..|matches| - 1], matches[|matches| - 1];
    var rest := Unknown(init, baseline);
    assert last !in init;
    assert forall m :: 0 <= m < |rest| ==> rest[m] in rest;
    assert Unknown(matches, baseline) == rest + (if last in baseline then [] else [last]);
    if b < |init| {
      assert init[a] == matches[a] && init[b] == matches[b];
      UnknownInOrder(init, baseline, a, b, i, k);
    }
  }

  /** Announced are the first fifty new matches, in match order; fewer only when there are fewer. */
  lemma FirstFiftyAreAnnounced(s: Search, matches: seq<ProductId>, a: nat, b: nat, i: nat, k: nat)
    requires AllDistinct(matches) && a < b < |matches| && matches[a] !in s.baseline
    requires k < |NewIds(s, matches)| && NewIds(s, matches)[k] == matches[b]
    ensures |NewIds(s, matches)| <= 50 && matches[a] in NewIds(s, matches)
    ensures i < |NewIds(s, matches)| && NewIds(s, matches)[i] == matches[a] ==> i < k
  {
    var unseen := Unknown(matches, s.baseline);
    assert matches[a] in unseen;
    var m :| 0 <= m < |unseen| && unseen[m] == matches[a];
    UnknownInOrder(matches, s.baseline, a, b, m, k);
    if i < |NewIds(s, matches)| && NewIds(s, matches)[i] == matches[a] {
      UnknownInOrder(matches, s.baseline, a, b, i, k);
    }
  }

  /** A saved search is active, has delivered nothing, and knows the first two hundred matches. */
  lemma SavedKnowsFirstMatches(matches: seq<ProductId>, interval: nat, now: int)
    ensures var s := Saved(matches, interval, now);
            && s.active && s.deliveries == [] && s.lastNotifiedAt.None? && s.interval == interval && s.lastRunAt == now
            && (forall i :: 0 <= i < |matches| && i < 200 ==> matches[i] in s.baseline)
            && (AllDistinct(matches) ==> forall i :: 200 <= i < |matches| ==> matches[i] !in s.baseline)
  {
    var baseline := Saved(matches, interval, now).baseline;
    forall i | 0 <= i < |matches| && i < 200
      ensures matches[i] in baseline
    {
      assert baseline[i] == matches[i];
    }
  }

  // ---- More than two hundred known products ------------------------------------------------------

  /** The user knows the product: it matched when the search was saved, or was announced since. */
  ghost predicate Told(known: seq<ProductId>, s: Search, id: ProductId) {
    id in known || Delivered(s, id)
  }

  ghost predicate Delivered(s: Search, id: ProductId) {
    exists i :: 0 <= i < |s.deliveries| && id in s.deliveries[i].products
  }

  /** The baseline holds what the user was told, nothing more and nothing less. */
  ghost predicate BaselineIsTold(known: seq<ProductId>, s: Search) {
    forall id :: id in s.baseline <==> Told(known, s, id)
  }

  /** The last delivery of the one state, if it is new, announces nothing the user knew in the other. */
  ghost predicate OnlyNews(known: seq<ProductId>, s: Search, s': Search) {
    forall i, id :: |s.deliveries| <= i < |s'.deliveries| && id in s'.deliveries[i].products ==> !Told(known, s, id)
  }

  lemma AnnouncesAtMostFifty(s: Search, matches: seq<ProductId>, id: ProductId)
    requires |Unknown(matches, s.baseline)| <= MAX_NEW_IDS && id in matches && id !in s.baseline
    ensures id in NewIds(s, matches)
  {
  }

  /** What the user was told after a notification of all new matches. */
  lemma ToldAfter(known: seq<ProductId>, s: Search, matches: seq<ProductId>, now: int, s': Search, id: ProductId)
    requires BaselineIsTold(known, s) && RunStep(s, matches, now, s', Notified)
    requires |Unknown(matches, s.baseline)| <= MAX_NEW_IDS
    ensures Told(known, s', id) <==> id in s.baseline || id in matches
  {
    DeliveredAfter(s, s', Delivery(NewIds(s, matches), now), id);
    if id in matches && id !in s.baseline {
      AnnouncesAtMostFifty(s, matches, id);
    }
    assert id in NewIds(s, matches) ==> id in Unknown(matches, s.baseline);
  }

  lemma DeliveredAfter(s: Search, s': Search, d: Delivery, id: ProductId)
    requires s'.deliveries == s.deliveries + [d]
    ensures Delivered(s', id) <==> Delivered(s, id) || id in d.products
  {
    var n := |s.deliveries|;
    assert s'.deliveries[n] == d;
    if Delivered(s, id) {
      var i :| 0 <= i < n && id in s.deliveries[i].products;
      assert id in s'.deliveries[i].products;
    }
  }

  /** A run of what was forgotten alone: the search is over its interval and the product is announced. */
  lemma ForgottenIsAnnounced(s: Search, id: ProductId, now: int)
    requires s.active && id !in s.baseline && !CoolingDown(s, now) && |s.baseline| == MAX_BASELINE_SIZE
    requires AllDistinct(s.baseline)
    ensures RunStep(s, [id], now, s.(lastRunAt := now, lastNotifiedAt := Some(now),
                                     deliveries := s.deliveries + [Delivery([id], now)]), Notified)
  {
    assert [id][..0] == [];
    assert Unknown([id], s.baseline) == Unknown([], s.baseline) + [id] == [id];
    var all := Union(s.baseline, [id]);
    DistinctCount(s.baseline);
    assert all == (set x | x in s.baseline) + {id};
  }

  /** No next run of the search announces anything the user knows. */
  ghost predicate NextRunIsNews(known: seq<ProductId>, s: Search) {
    forall later, at, s2, r :: RunStep(s, later, at, s2, r) ==> OnlyNews(known, s, s2)
  }

  lemma RememberedIsNews(known: seq<ProductId>, s: Search, matches: seq<ProductId>, now: int, s': Search)
    requires BaselineIsTold(known, s) && RunStep(s, matches, now, s', Notified)
    requires |Unknown(matches, s.baseline)| <= MAX_NEW_IDS
    requires forall id :: id in s.baseline || id in matches ==> id in s'.baseline
    ensures NextRunIsNews(known, s')
  {
    forall later, at, s2, r | RunStep(s', later, at, s2, r)
      ensures OnlyNews(known, s', s2)
    {
      forall i, id | |s'.deliveries| <= i < |s2.deliveries| && id in s2.deliveries[i].products
        ensures !Told(known, s', id)
      {
        assert id in Unknown(later, s'.baseline);
        ToldAfter(known, s, matches, now, s', id);
      }
    }
  }

  lemma ForgottenIsRepeated(known: seq<ProductId>, s: Search, id: ProductId, at: int)
    requires s.active && id !in s.baseline && !CoolingDown(s, at) && |s.baseline| == MAX_BASELINE_SIZE
    requires AllDistinct(s.baseline) && Told(known, s, id)
    ensures !NextRunIsNews(known, s)
  {
    var s2 := s.(lastRunAt := at, lastNotifiedAt := Some(at), deliveries := s.deliveries + [Delivery([id], at)]);
    ForgottenIsAnnounced(s, id, at);
    assert id in s2.deliveries[|s.deliveries|].products;
    assert RunStep(s, [id], at, s2, Notified) && !OnlyNews(known, s, s2);
  }

  /** After a notification of at most fifty new matches, no next run announces anything the user knows, if
      and only if everything known fits the baseline: as soon as it does not, some product the user was
      told about is announced again by a run that matches it once the interval has passed. */
  lemma NextRunRepeatsNothingIff(known: seq<ProductId>, s: Search, matches: seq<ProductId>, now: int, s': Search)
    requires BaselineIsTold(known, s) && RunStep(s, matches, now, s', Notified)
    requires |Unknown(matches, s.baseline)| <= MAX_NEW_IDS
    ensures NextRunIsNews(known, s') <==> |Union(s.baseline, matches)| <= MAX_BASELINE_SIZE
  {
    RemembersIffFits(s, matches, now, s');
    if |Union(s.baseline, matches)| <= MAX_BASELINE_SIZE {
      RememberedIsNews(known, s, matches, now, s');
    } else {
      var id :| (id in s.baseline || id in matches) && id !in s'.baseline;
      ToldAfter(known, s, matches, now, s', id);
      ForgottenIsRepeated(known, s', id, now + s.interval);
    }
  }

  /** Every run of the history finds at most fifty new matches. */
  ghost predicate AtMostFiftyNew(s: Search, events: seq<Event>) {
    events == []
    || (var init, e := events[..|events| - 1], events[|events| - 1];
        AtMostFiftyNew(s, init) && |Unknown(e.matches, StateAfter(s, init).baseline)| <= MAX_NEW_IDS)
  }

  /** Until the baseline overflows, it holds exactly what the user was told. */
  lemma {:induction false} BaselineStaysTold(s: Search, events: seq<Event>)
    requires History(s, events) && Fits(s, events) && AtMostFiftyNew(s, events) && s.deliveries == []
    ensures BaselineIsTold(s.baseline, StateAfter(s, events))
  {
    if events != [] {
      var init, e := events[..|events| - 1], events[|events| - 1];
      var before := StateAfter(s, init);
      BaselineStaysTold(s, init);
      if e.result == Notified {
        RemembersIffFits(before, e.matches, e.at, e.after);
        forall id
          ensures id in e.after.baseline <==> Told(s.baseline, e.after, id)
        {
          ToldAfter(s.baseline, before, e.matches, e.at, e.after, id);
          assert id in e.after.baseline ==> id in Union(before.baseline, e.matches);
        }
      }
    }
  }

  /** The life of a saved search up to its first overflow, and the notification that may overflow it: the next
      run is safe from repeating itself exactly when that notification still fits. */
  lemma SearchRepeatsItselfIff(s: Search, events: seq<Event>)
    requires History(s, events) && Fits(s, events) && AtMostFiftyNew(s, events) && s.deliveries == []
    ensures var before := StateAfter(s, events);
            forall matches, now, s' ::
              RunStep(before, matches, now, s', Notified) && |Unknown(matches, before.baseline)| <= MAX_NEW_IDS ==>
                (NextRunIsNews(s.baseline, s') <==> |Union(before.baseline, matches)| <= MAX_BASELINE_SIZE)
  {
    BaselineStaysTold(s, events);
    var before := StateAfter(s, events);
    forall matches, now, s' | RunStep(before, matches, now, s', Notified)
                              && |Unknown(matches, before.baseline)| <= MAX_NEW_IDS
      ensures NextRunIsNews(s.baseline, s') <==> |Union(before.baseline, matches)| <= MAX_BASELINE_SIZE
    {
      NextRunRepeatsNothingIff(s.baseline, before, matches, now, s');
    }
  }

  // ---- More than fifty new matches ---------------------------------------------------------------

  lemma {:induction false} UnknownKeepsDistinct(matches: seq<ProductId>, baseline: seq<ProductId>)
    requires AllDistinct(matches)
    ensures AllDistinct(Unknown(matches, baseline))
  {
    if matches != [] {
      var init, last := matches[..|matches| - 1], matches[|matches| - 1];
      UnknownKeepsDistinct(init, baseline);
      assert last !in init;
      var rest := Unknown(init, baseline);
      forall i | 0 <= i < |rest|
        ensures rest[i] != last
      {
        assert rest[i] in rest;
      }
      assert Unknown(matches, baseline) == rest + (if last in baseline then [] else [last]);
    }
  }

  /** Every new match is announced if and only if there are at most fifty of them. */
  lemma AllNewAnnouncedIff(s: Search, matches: seq<ProductId>)
    requires AllDistinct(matches)
    ensures (forall id :: id in matches && id !in s.baseline ==> id in NewIds(s, matches))
            <==> |Unknown(matches, s.baseline)| <= 50
  {
    var unseen := Unknown(matches, s.baseline);
    UnknownKeepsDistinct(matches, s.baseline);
    if |unseen| > MAX_NEW_IDS {
      var id := unseen[MAX_NEW_IDS];
      assert id in unseen;
      assert forall i :: 0 <= i < MAX_NEW_IDS ==> unseen[..MAX_NEW_IDS][i] == unseen[i] != id;
    }
  }

  /** What the baseline holds is in no later delivery, over every later history that fits. */
  lemma {:induction false} AbsorbedIsNeverAnnounced(s: Search, events: seq<Event>, id: ProductId)
    requires History(s, events) && Fits(s, events) && id in s.baseline
    ensures var later := StateAfter(s, events);
            && id in later.baseline && s.deliveries <= later.deliveries
            && forall i :: |s.deliveries| <= i < |later.deliveries| ==> id !in later.deliveries[i].products
  {
    if events != [] {
      var init, e := events[..|events| - 1], events[|events| - 1];
      var before := StateAfter(s, init);
      AbsorbedIsNeverAnnounced(s, init, id);
      if e.result == Notified {
        RemembersIffFits(before, e.matches, e.at, e.after);
        assert id !in Unknown(e.matches, before.baseline);
      }
    }
  }

  /** A new match beyond the first fifty is lost: the notification leaves it out and absorbs it, so over the
      whole life of the search, as long as the baseline fits, no delivery ever contains it. */
  lemma BeyondFiftyIsNeverAnnounced(known: seq<ProductId>, s: Search, matches: seq<ProductId>, now: int, s': Search,
                                    events: seq<Event>, id: ProductId)
    requires NeverRepeats(known, s) && RunStep(s, matches, now, s', Notified)
    requires |Union(s.baseline, matches)| <= MAX_BASELINE_SIZE && History(s', events) && Fits(s', events)
    requires id in matches && id !in s.baseline && id !in NewIds(s, matches)
    ensures forall d :: d in StateAfter(s', events).deliveries ==> id !in d.products
  {
    RemembersIffFits(s, matches, now, s');
    AbsorbedIsNeverAnnounced(s', events, id);
    var later := StateAfter(s', events);
    forall i | 0 <= i < |later.deliveries|
      ensures id !in later.deliveries[i].products
    {
      if i < |s'.deliveries| {
        assert later.deliveries[i] == s'.deliveries[i];
        assert i < |s.deliveries| ==> s'.deliveries[i] in s.deliveries;
      }
    }
  }
}

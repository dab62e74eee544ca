/** What the edge rate limiter guarantees over every run of requests of one address. */
module RateLimits {
  import opened Common
  import opened RateLimiter

  // ---- One band -----------------------------------------------------------------------------

  /** The accepted arrivals of one fixed bucket. */
  function InBucket(log: seq<int>, window: nat, bucket: int): nat {
    InWindow(log, bucket * window - 1, bucket * window + window - 1)
  }

  /** The pruned sorted set still holds every recorded arrival of the last window, every accepted
      arrival closed a window with at most `limit` arrivals; a bucket counter is the number of recorded
      arrivals of its bucket, and no bucket accepted more than it recorded, nor more than `limit`. */
  ghost predicate BandInvariant(b: Band, store: Store, log: seq<int>, accepted: seq<int>, last: int) {
    && b.window > 0
    && (forall t :: t in log ==> t <= last)
    && (forall t :: t in accepted ==> t in log)
    && match store
       case Sorted(members) =>
         && (forall t :: t in members ==> t in log)
         && (forall t :: t in log && t > last - b.window ==> t in members)
         && (forall a :: a in accepted ==> |TicksIn(log, a - b.window, a)| <= b.limit)
       case Buckets(counts) =>
         forall k :: && CountIn(counts, k) == InBucket(log, b.window, k)
                     && InBucket(accepted, b.window, k) <= InBucket(log, b.window, k)
                     && InBucket(accepted, b.window, k) <= b.limit
  }

  /** After an arrival the sorted set is exactly the set of recorded arrivals in (now - W, now], and the
      count is its size. */
  lemma SortedSetIsWindow(b: Band, store: Store, log: seq<int>, accepted: seq<int>, last: int, now: int)
    requires BandInvariant(b, store, log, accepted, last) && store.Sorted? && last <= now
    ensures Hit(store, b.window, now).0 == Sorted(TicksIn(log + [now], now - b.window, now))
    ensures Hit(store, b.window, now).1 == |TicksIn(log + [now], now - b.window, now)|
  {
    var kept := (set t | t in store.members && t > now - b.window) + {now};
    assert kept == TicksIn(log + [now], now - b.window, now);
  }

  lemma EarlierWindowsUnmoved(b: Band, log: seq<int>, accepted: seq<int>, last: int, now: int, a: int)
    requires a in log && (forall t :: t in log ==> t <= last) && last <= now
    ensures TicksIn(log + [now], a - b.window, a) == TicksIn(log, a - b.window, a) || a == now
    ensures b.window > 0 && a == now ==> TicksIn(log + [now], a - b.window, a) == TicksIn(log, a - b.window, a)
  {
    TicksAppend(log, now, a - b.window, a);
    if a == now && b.window > 0 {
      assert now in TicksIn(log, a - b.window, a);
    }
  }

  lemma HitKeepsBand(b: Band, store: Store, log: seq<int>, accepted: seq<int>, last: int, now: int)
    requires BandInvariant(b, store, log, accepted, last) && last <= now
    ensures BandInvariant(b, Hit(store, b.window, now).0, log + [now], accepted, now)
  {
    if store.Sorted? {
      SortedSetIsWindow(b, store, log, accepted, last, now);
      forall a | a in accepted
        ensures |TicksIn(log + [now], a - b.window, a)| <= b.limit
      {
        EarlierWindowsUnmoved(b, log, accepted, last, now, a);
      }
    } else {
      BucketsRecount(b, store, log, now);
    }
  }

  lemma BucketsRecount(b: Band, store: Store, log: seq<int>, now: int)
    requires b.window > 0 && store.Buckets? && forall k :: CountIn(store.counts, k) == InBucket(log, b.window, k)
    ensures forall k :: CountIn(Hit(store, b.window, now).0.counts, k) == InBucket(log + [now], b.window, k)
    ensures forall k :: InBucket(log, b.window, k) <= InBucket(log + [now], b.window, k)
    ensures Hit(store, b.window, now).1 == InBucket(log + [now], b.window, now / b.window)
  {
    forall k
      ensures CountIn(Hit(store, b.window, now).0.counts, k) == InBucket(log + [now], b.window, k)
      ensures InBucket(log, b.window, k) <= InBucket(log + [now], b.window, k)
    {
      BucketAppend(b, log, now, k);
    }
  }

  lemma BucketAppend(b: Band, accepted: seq<int>, now: int, k: int)
    requires b.window > 0
    ensures InBucket(accepted + [now], b.window, k)
        == InBucket(accepted, b.window, k) + (if now / b.window == k then 1 else 0)
  {
    TicksAppend(accepted, now, k * b.window - 1, k * b.window + b.window - 1);
    BucketOf(now, b.window, k);
  }

  lemma BucketOf(now: int, w: nat, k: int)
    requires w > 0
    ensures k * w - 1 < now <= k * w + w - 1 <==> now / w == k
  {
    var q := now / w;
    assert q * w <= now < q * w + w;
    if q < k {
      assert (q + 1) * w <= k * w;
    } else if q > k {
      assert (k + 1) * w <= q * w;
    }
  }

  lemma AcceptKeepsBand(b: Band, store: Store, log: seq<int>, accepted: seq<int>, last: int, now: int)
    requires BandInvariant(b, store, log, accepted, last) && last <= now
    requires Hit(store, b.window, now).1 <= b.limit
    ensures BandInvariant(b, Hit(store, b.window, now).0, log + [now], accepted + [now], now)
  {
    HitKeepsBand(b, store, log, accepted, last, now);
    if store.Sorted? {
      SortedSetIsWindow(b, store, log, accepted, last, now);
    } else {
      forall k
        ensures InBucket(accepted + [now], b.window, k) <= InBucket(log + [now], b.window, k)
        ensures InBucket(accepted + [now], b.window, k) <= b.limit
      {
        BucketAppend(b, accepted, now, k);
        BucketAppend(b, log, now, k);
      }
    }
  }

  /** With sorted sets no window of length W, wherever it starts, contains more than `limit` accepted
      ticks; so when arrivals have distinct ticks, no more than `limit` accepted requests. */
  lemma SortedBandBound(b: Band, store: Store, log: seq<int>, accepted: seq<int>, last: int, lo: int)
    requires BandInvariant(b, store, log, accepted, last) && store.Sorted?
    ensures |TicksIn(accepted, lo, lo + b.window)| <= b.limit
    ensures NoTiesIn(accepted, lo, lo + b.window) ==> InWindow(accepted, lo, lo + b.window) <= b.limit
  {
    var inside := TicksIn(accepted, lo, lo + b.window);
    if inside != {} {
      var a := Greatest(inside);
      assert inside <= TicksIn(log, a - b.window, a);
      SubsetCount(inside, TicksIn(log, a - b.window, a));
    }
    TicksVersusCount(accepted, lo, lo + b.window);
  }

  /** With fixed buckets a window of length W meets at most two of them, so it contains at most twice
      the limit. */
  lemma BucketBandBound(b: Band, store: Store, log: seq<int>, accepted: seq<int>, last: int, lo: int)
    requires BandInvariant(b, store, log, accepted, last) && store.Buckets?
    ensures InWindow(accepted, lo, lo + b.window) <= 2 * b.limit
  {
    var w, k := b.window, (lo + 1) / b.window;
    assert k * w <= lo + 1 < k * w + w;
    assert (k + 1) * w == k * w + w;
    WindowMeetsTwoBuckets(accepted, lo, lo + w, k * w - 1, k * w + w - 1, k * w + 2 * w - 1);
    assert InBucket(accepted, w, k) <= b.limit && InBucket(accepted, w, k + 1) <= b.limit;
  }

  lemma {:induction false} WindowMeetsTwoBuckets(log: seq<int>, lo: int, hi: int, x: int, y: int, z: int)
    requires x <= lo && hi <= z && x <= y <= z
    ensures InWindow(log, lo, hi) <= InWindow(log, x, y) + InWindow(log, y, z)
  {
    if log != [] {
      WindowMeetsTwoBuckets(log[..|log| - 1], lo, hi, x, y, z);
    }
  }

  // ---- Runs of the two-band limiter --------------------------------------------------------------

  /** A run remembered in full: what each band recorded, what was accepted and refused, and every ban
      with its expiry. */
  datatype Trace = Trace(s: State, burstLog: seq<int>, sustainedLog: seq<int>, accepted: seq<int>,
                         refused: seq<int>, bans: seq<(int, int)>, last: int)

  function Begin(sortedSets: bool, start: int): Trace {
    Trace(Start(sortedSets), [], [], [], [], [], start)
  }

  function Observe(cfg: Config, tr: Trace, now: int): Trace
    requires cfg.banWindow > 0
  {
    var (s', v) := Step(cfg, tr.s, now);
    var refusal := v.BurstExceeded? || v.SustainedExceeded?;
    Trace(s',
          if Enabled(cfg.burst) && !v.BannedAddress? then tr.burstLog + [now] else tr.burstLog,
          if Enabled(cfg.sustained) && (v.Accepted? || v.SustainedExceeded?) then tr.sustainedLog + [now]
          else tr.sustainedLog,
          if v.Accepted? then tr.accepted + [now] else tr.accepted,
          if refusal then tr.refused + [now] else tr.refused,
          if refusal && InBucket(tr.refused + [now], cfg.banWindow, now / cfg.banWindow) >= cfg.banThreshold
          then tr.bans + [(now, now + cfg.banDuration)] else tr.bans,
          now)
  }

  function Serve(cfg: Config, tr: Trace, arrivals: seq<int>): Trace
    requires cfg.banWindow > 0
  {
    if arrivals == [] then tr
    else Observe(cfg, Serve(cfg, tr, arrivals[..|arrivals| - 1]), arrivals[|arrivals| - 1])
  }

  ghost predicate BansRespected(tr: Trace) {
    && (forall b :: b in tr.bans ==> b.0 <= tr.last && b.1 <= tr.s.bannedUntil)
    && (forall b, a :: b in tr.bans && a in tr.accepted ==> a <= b.0 || b.1 <= a)
  }

  /** The reject counters hold the true number of refusals, and the address is banned until the
      expiry of its last ban. */
  ghost predicate BansJustified(cfg: Config, tr: Trace)
    requires cfg.banWindow > 0
  {
    && (forall k :: CountIn(tr.s.rejects, k) == InBucket(tr.refused, cfg.banWindow, k))
    && tr.s.bannedUntil == if tr.bans == [] then 0 else tr.bans[|tr.bans| - 1].1
  }

  ghost predicate TraceInvariant(cfg: Config, tr: Trace)
    requires cfg.banWindow > 0
  {
    && (Enabled(cfg.burst) ==> BandInvariant(cfg.burst, tr.s.burst, tr.burstLog, tr.accepted, tr.last))
    && (Enabled(cfg.sustained) ==> BandInvariant(cfg.sustained, tr.s.sustained, tr.sustainedLog, tr.accepted, tr.last))
    && (forall a :: a in tr.accepted ==> a <= tr.last)
    && BansRespected(tr)
    && BansJustified(cfg, tr)
  }

  lemma ObserveKeepsBurst(cfg: Config, tr: Trace, now: int)
    requires cfg.banWindow > 0 && TraceInvariant(cfg, tr) && tr.last <= now && Enabled(cfg.burst)
    ensures var tr' := Observe(cfg, tr, now);
            BandInvariant(cfg.burst, tr'.s.burst, tr'.burstLog, tr'.accepted, now)
  {
    var v := Step(cfg, tr.s, now).1;
    if v.Accepted? {
      AcceptKeepsBand(cfg.burst, tr.s.burst, tr.burstLog, tr.accepted, tr.last, now);
    } else if !v.BannedAddress? {
      HitKeepsBand(cfg.burst, tr.s.burst, tr.burstLog, tr.accepted, tr.last, now);
    }
  }

  lemma ObserveKeepsSustained(cfg: Config, tr: Trace, now: int)
    requires cfg.banWindow > 0 && TraceInvariant(cfg, tr) && tr.last <= now && Enabled(cfg.sustained)
    ensures var tr' := Observe(cfg, tr, now);
            BandInvariant(cfg.sustained, tr'.s.sustained, tr'.sustainedLog, tr'.accepted, now)
  {
    var v := Step(cfg, tr.s, now).1;
    if v.Accepted? {
      AcceptKeepsBand(cfg.sustained, tr.s.sustained, tr.sustainedLog, tr.accepted, tr.last, now);
    } else if v.SustainedExceeded? {
      HitKeepsBand(cfg.sustained, tr.s.sustained, tr.sustainedLog, tr.accepted, tr.last, now);
    }
  }

  /** A request at `now` fits a band, counted over everything the band ever recorded: the sliding window with
      sorted sets, the bucket of `now` without them. */
  ghost predicate Fits(b: Band, sortedSets: bool, log: seq<int>, now: int) {
    Enabled(b) ==>
      if sortedSets then |TicksIn(log + [now], now - b.window, now)| <= b.limit
      else InBucket(log + [now], b.window, now / b.window) <= b.limit
  }

  lemma HitTellsWhetherItFits(b: Band, store: Store, log: seq<int>, accepted: seq<int>, last: int, now: int)
    requires BandInvariant(b, store, log, accepted, last) && last <= now && Enabled(b)
    ensures Hit(store, b.window, now).1 <= b.limit <==> Fits(b, store.Sorted?, log, now)
  {
    if store.Sorted? {
      SortedSetIsWindow(b, store, log, accepted, last, now);
    } else {
      BucketsRecount(b, store, log, now);
    }
  }

  lemma VerdictIsExact(cfg: Config, tr: Trace, now: nat)
    requires cfg.banWindow > 0 && TraceInvariant(cfg, tr) && tr.last <= now
    ensures Step(cfg, tr.s, now).1 == Accepted <==>
            && (forall b :: b in tr.bans ==> b.1 <= now)
            && Fits(cfg.burst, tr.s.burst.Sorted?, tr.burstLog, now)
            && Fits(cfg.sustained, tr.s.sustained.Sorted?, tr.sustainedLog, now)
    ensures Step(cfg, tr.s, now).1 == BannedAddress <==> exists b :: b in tr.bans && now < b.1
    ensures Step(cfg, tr.s, now).1 == BurstExceeded <==>
            && (forall b :: b in tr.bans ==> b.1 <= now)
            && !Fits(cfg.burst, tr.s.burst.Sorted?, tr.burstLog, now)
  {
    if Enabled(cfg.burst) {
      HitTellsWhetherItFits(cfg.burst, tr.s.burst, tr.burstLog, tr.accepted, tr.last, now);
    }
    if Enabled(cfg.sustained) {
      HitTellsWhetherItFits(cfg.sustained, tr.s.sustained, tr.sustainedLog, tr.accepted, tr.last, now);
    }
    if tr.bans != [] {
      assert tr.bans[|tr.bans| - 1] in tr.bans;
    }
  }

  lemma ObserveRespectsBans(cfg: Config, tr: Trace, now: int)
    requires cfg.banWindow > 0 && BansRespected(tr) && BansJustified(cfg, tr) && tr.last <= now
    requires forall a :: a in tr.accepted ==> a <= tr.last
    ensures BansRespected(Observe(cfg, tr, now))
  {
    var tr' := Observe(cfg, tr, now);
    RefusalCounted(cfg, tr, now);
    ObservedBan(cfg, tr, now);
    forall b, a | b in tr'.bans && a in tr'.accepted
      ensures a <= b.0 || b.1 <= a
    {
      assert b in tr.bans || b == (now, now + cfg.banDuration);
      assert a in tr.accepted || a == now;
    }
  }

  /** The bans an observation adds, and what it accepts. */
  lemma ObservedBan(cfg: Config, tr: Trace, now: int)
    requires cfg.banWindow > 0
    requires CountIn(tr.s.rejects, now / cfg.banWindow) + 1
          == InBucket(tr.refused + [now], cfg.banWindow, now / cfg.banWindow)
    ensures var tr' := Observe(cfg, tr, now);
            && tr'.s.bannedUntil >= tr.s.bannedUntil
            && (tr'.accepted == tr.accepted || (tr'.accepted == tr.accepted + [now] && now >= tr.s.bannedUntil))
            && (tr'.bans == tr.bans
                || (tr'.bans == tr.bans + [(now, now + cfg.banDuration)] && tr'.accepted == tr.accepted
                    && tr'.s.bannedUntil == now + cfg.banDuration))
  {
    StepRejects(cfg, tr.s, now);
  }

  /** What an accepted request leaves in a trace. */
  lemma AcceptedObserve(cfg: Config, tr: Trace, now: int)
    requires cfg.banWindow > 0 && Step(cfg, tr.s, now).1 == Accepted
    ensures var tr' := Observe(cfg, tr, now);
            && tr'.accepted == tr.accepted + [now] && tr'.bans == tr.bans
            && tr'.burstLog == (if Enabled(cfg.burst) then tr.burstLog + [now] else tr.burstLog)
            && tr'.sustainedLog == (if Enabled(cfg.sustained) then tr.sustainedLog + [now] else tr.sustainedLog)
  {
  }

  lemma StepExtendsBan(cfg: Config, s: State, now: int)
    requires cfg.banWindow > 0
    ensures Step(cfg, s, now).0.bannedUntil >= s.bannedUntil
  {
    StepRejects(cfg, s, now);
  }

  /** The counter a refusal bumps stands at the true number of refusals of its ban window. */
  lemma RefusalCounted(cfg: Config, tr: Trace, now: int)
    requires cfg.banWindow > 0 && BansJustified(cfg, tr)
    ensures CountIn(tr.s.rejects, now / cfg.banWindow) + 1
        == InBucket(tr.refused + [now], cfg.banWindow, now / cfg.banWindow)
  {
    BucketAppend(Band(0, cfg.banWindow), tr.refused, now, now / cfg.banWindow);
  }

  /** The effect of one request on the reject counters and the ban. */
  lemma StepRejects(cfg: Config, s: State, now: int)
    requires cfg.banWindow > 0
    ensures var (s', v) := Step(cfg, s, now);
            var bucket, n := now / cfg.banWindow, CountIn(s.rejects, now / cfg.banWindow) + 1;
            if v.BurstExceeded? || v.SustainedExceeded? then
              && s'.rejects == s.rejects[bucket := n]
              && s'.bannedUntil == if n >= cfg.banThreshold then now + cfg.banDuration else s.bannedUntil
            else s'.rejects == s.rejects && s'.bannedUntil == s.bannedUntil
  {
  }

  lemma RefusalsRecounted(rejects: map<int, nat>, refused: seq<int>, w: nat, now: int)
    requires w > 0 && forall k :: CountIn(rejects, k) == InBucket(refused, w, k)
    ensures forall k :: CountIn(rejects[now / w := CountIn(rejects, now / w) + 1], k) == InBucket(refused + [now], w, k)
  {
    forall k
      ensures CountIn(rejects[now / w := CountIn(rejects, now / w) + 1], k) == InBucket(refused + [now], w, k)
    {
      BucketAppend(Band(0, w), refused, now, k);
    }
  }

  lemma ObserveJustifiesBans(cfg: Config, tr: Trace, now: int)
    requires cfg.banWindow > 0 && BansJustified(cfg, tr)
    ensures BansJustified(cfg, Observe(cfg, tr, now))
  {
    StepRejects(cfg, tr.s, now);
    RefusalCounted(cfg, tr, now);
    RefusalsRecounted(tr.s.rejects, tr.refused, cfg.banWindow, now);
  }

  /** Every observation keeps the invariant of the run. */
  lemma {:induction false} ServeKeepsInvariant(cfg: Config, sortedSets: bool, start: int, arrivals: seq<int>)
    requires cfg.banWindow > 0 && Ordered(start, arrivals)
    ensures TraceInvariant(cfg, Serve(cfg, Begin(sortedSets, start), arrivals))
    ensures Serve(cfg, Begin(sortedSets, start), arrivals).last
         == if arrivals == [] then start else arrivals[|arrivals| - 1]
  {
    if arrivals != [] {
      var init := arrivals[..|arrivals| - 1];
      ServeKeepsInvariant(cfg, sortedSets, start, init);
      if Enabled(cfg.burst) {
        ObserveKeepsBurst(cfg, Serve(cfg, Begin(sortedSets, start), init), arrivals[|arrivals| - 1]);
      }
      if Enabled(cfg.sustained) {
        ObserveKeepsSustained(cfg, Serve(cfg, Begin(sortedSets, start), init), arrivals[|arrivals| - 1]);
      }
      ObserveRespectsBans(cfg, Serve(cfg, Begin(sortedSets, start), init), arrivals[|arrivals| - 1]);
      ObserveJustifiesBans(cfg, Serve(cfg, Begin(sortedSets, start), init), arrivals[|arrivals| - 1]);
    }
  }

  /** The clock is monotonic: it never runs backwards, but two arrivals may read the same tick. */
  ghost predicate Ordered(start: int, arrivals: seq<int>) {
    && (forall i :: 0 <= i < |arrivals| ==> start <= arrivals[i])
    && (forall i, j :: 0 <= i < j < |arrivals| ==> arrivals[i] <= arrivals[j])
  }

  lemma StepKeepsBackend(cfg: Config, s: State, now: int)
    requires cfg.banWindow > 0
    ensures var s' := Step(cfg, s, now).0;
            s'.burst.Sorted? == s.burst.Sorted? && s'.sustained.Sorted? == s.sustained.Sorted?
  {
  }

  /** Which kind of store a cache offers never changes. */
  lemma {:induction false} BackendFixed(cfg: Config, sortedSets: bool, start: int, arrivals: seq<int>)
    requires cfg.banWindow > 0
    ensures var s := Serve(cfg, Begin(sortedSets, start), arrivals).s;
            s.burst.Sorted? == sortedSets && s.sustained.Sorted? == sortedSets
  {
    if arrivals != [] {
      BackendFixed(cfg, sortedSets, start, arrivals[..|arrivals| - 1]);
      StepKeepsBackend(cfg, Serve(cfg, Begin(sortedSets, start), arrivals[..|arrivals| - 1]).s,
                       arrivals[|arrivals| - 1]);
    }
  }

  lemma {:induction false} AcceptedIncreasing(cfg: Config, sortedSets: bool, start: int, arrivals: seq<int>)
    requires cfg.banWindow > 0 && Increasing(arrivals)
    ensures var accepted := Serve(cfg, Begin(sortedSets, start), arrivals).accepted;
            && Increasing(accepted)
            && (forall t :: t in accepted ==> t in arrivals)
  {
    if arrivals != [] {
      var init := arrivals[..|arrivals| - 1];
      AcceptedIncreasing(cfg, sortedSets, start, init);
      var before := Serve(cfg, Begin(sortedSets, start), init).accepted;
      forall i | 0 <= i < |before|
        ensures before[i] < arrivals[|arrivals| - 1]
      {
        assert before[i] in before;
        assert before[i] in init;
      }
    }
  }

  /** The bands of a configuration that are switched on. */
  predicate BandOf(cfg: Config, b: Band) {
    (b == cfg.burst || b == cfg.sustained) && Enabled(b)
  }

  /** With sorted sets and arrivals at distinct ticks, no window of a band's length, wherever it lies,
      contains more accepted requests than that band's limit; refused requests that were recorded, and
      burst refusals that skipped the sustained band, included. */
  lemma TwoBandLimit(cfg: Config, start: int, arrivals: seq<int>, b: Band, lo: int)
    requires cfg.banWindow > 0 && Ordered(start, arrivals) && Increasing(arrivals) && BandOf(cfg, b)
    ensures InWindow(Serve(cfg, Begin(true, start), arrivals).accepted, lo, lo + b.window) <= b.limit
  {
    var tr := Serve(cfg, Begin(true, start), arrivals);
    ServeKeepsInvariant(cfg, true, start, arrivals);
    BackendFixed(cfg, true, start, arrivals);
    AcceptedIncreasing(cfg, true, start, arrivals);
    if b == cfg.burst {
      SortedBandBound(b, tr.s.burst, tr.burstLog, tr.accepted, tr.last, lo);
    } else {
      SortedBandBound(b, tr.s.sustained, tr.sustainedLog, tr.accepted, tr.last, lo);
    }
  }

  /** And nothing else is refused: after any run of requests the next one is accepted exactly when every
      ban has expired and, counted over the full logs, it fits the burst and the sustained window. */
  lemma AcceptedExactlyWhenItFits(cfg: Config, sortedSets: bool, start: nat, arrivals: seq<int>, now: nat)
    requires cfg.banWindow > 0 && Ordered(start, arrivals) && start <= now
    requires arrivals != [] ==> arrivals[|arrivals| - 1] <= now
    ensures var tr := Serve(cfg, Begin(sortedSets, start), arrivals);
            Step(cfg, tr.s, now).1 == Accepted <==>
            && (forall b :: b in tr.bans ==> b.1 <= now)
            && Fits(cfg.burst, sortedSets, tr.burstLog, now) && Fits(cfg.sustained, sortedSets, tr.sustainedLog, now)
  {
    ServeKeepsInvariant(cfg, sortedSets, start, arrivals);
    BackendFixed(cfg, sortedSets, start, arrivals);
    VerdictIsExact(cfg, Serve(cfg, Begin(sortedSets, start), arrivals), now);
  }

  /** And when it is not, the answer names the first reason: a ban that has not expired, else the burst band, else
      the sustained band. */
  lemma RefusalNamesFirstReason(cfg: Config, sortedSets: bool, start: nat, arrivals: seq<int>, now: nat)
    requires cfg.banWindow > 0 && Ordered(start, arrivals) && start <= now
    requires arrivals != [] ==> arrivals[|arrivals| - 1] <= now
    ensures var tr := Serve(cfg, Begin(sortedSets, start), arrivals);
            var v := Step(cfg, tr.s, now).1;
            && (v == BannedAddress <==> exists b :: b in tr.bans && now < b.1)
            && (v == BurstExceeded <==>
                  (forall b :: b in tr.bans ==> b.1 <= now) && !Fits(cfg.burst, sortedSets, tr.burstLog, now))
            && (v == SustainedExceeded <==>
                  (forall b :: b in tr.bans ==> b.1 <= now) && Fits(cfg.burst, sortedSets, tr.burstLog, now)
                  && !Fits(cfg.sustained, sortedSets, tr.sustainedLog, now))
  {
    ServeKeepsInvariant(cfg, sortedSets, start, arrivals);
    BackendFixed(cfg, sortedSets, start, arrivals);
    VerdictIsExact(cfg, Serve(cfg, Begin(sortedSets, start), arrivals), now);
  }

  /** Without distinct ticks the bound holds for the ticks, not for the requests. */
  lemma TwoBandLimitOnTicks(cfg: Config, start: int, arrivals: seq<int>, b: Band, lo: int)
    requires cfg.banWindow > 0 && Ordered(start, arrivals) && BandOf(cfg, b)
    ensures |TicksIn(Serve(cfg, Begin(true, start), arrivals).accepted, lo, lo + b.window)| <= b.limit
  {
    var tr := Serve(cfg, Begin(true, start), arrivals);
    ServeKeepsInvariant(cfg, true, start, arrivals);
    BackendFixed(cfg, true, start, arrivals);
    if b == cfg.burst {
      SortedBandBound(b, tr.s.burst, tr.burstLog, tr.accepted, tr.last, lo);
    } else {
      SortedBandBound(b, tr.s.sustained, tr.sustainedLog, tr.accepted, tr.last, lo);
    }
  }

  lemma TieAccepted(cfg: Config, s: State, t: nat)
    requires cfg.banWindow > 0 && Enabled(cfg.burst) && Enabled(cfg.sustained) && s.bannedUntil == 0
    requires s.burst == s.sustained && s.burst in {Sorted({}), Sorted({t})}
    ensures Step(cfg, s, t) == (s.(burst := Sorted({t}), sustained := Sorted({t})), Accepted)
  {
    assert (set x | x in s.burst.members && x > t - cfg.burst.window) + {t} == {t};
    assert (set x | x in s.burst.members && x > t - cfg.sustained.window) + {t} == {t};
  }

  /** Any number of requests that read the same tick is accepted: they share one sorted-set member. */
  lemma {:induction false} TiesAreNotLimited(cfg: Config, t: nat, arrivals: seq<int>)
    requires cfg.banWindow > 0 && (forall i :: 0 <= i < |arrivals| ==> arrivals[i] == t)
    requires Enabled(cfg.burst) && Enabled(cfg.sustained)
    ensures var tr := Serve(cfg, Begin(true, t), arrivals);
            && tr.accepted == arrivals
            && tr.s.bannedUntil == 0
            && tr.s.burst == tr.s.sustained == Sorted(if arrivals == [] then {} else {t})
  {
    if arrivals != [] {
      var init := arrivals[..|arrivals| - 1];
      TiesAreNotLimited(cfg, t, init);
      TieAccepted(cfg, Serve(cfg, Begin(true, t), init).s, t);
      assert arrivals == init + [t];
    }
  }

  // ---- Ties with sorted sets ------------------------------------------------------------------------

  function Times(t: int, n: nat): seq<int> {
    seq(n, _ => t)
  }

  lemma {:induction false} CountOfTimes(t: int, n: nat, lo: int, hi: int)
    ensures InWindow(Times(t, n), lo, hi) == if lo < t <= hi then n else 0
  {
    if n > 0 {
      CountOfTimes(t, n - 1, lo, hi);
      assert Times(t, n)[..n - 1] == Times(t, n - 1);
    }
  }

  lemma {:induction false} CountOfConcat(a: seq<int>, b: seq<int>, lo: int, hi: int)
    ensures InWindow(a + b, lo, hi) == InWindow(a, lo, hi) + InWindow(b, lo, hi)
  {
    if b == [] {
      assert a + b == a;
    } else {
      CountOfConcat(a, b[..|b| - 1], lo, hi);
      assert (a + b)[..|a + b| - 1] == a + b[..|b| - 1];
    }
  }

  function OtherBand(cfg: Config, b: Band): Band {
    if b == cfg.burst then cfg.sustained else cfg.burst
  }

  /** No tick carries more than `m` requests. */
  ghost predicate AtMostPerTick(log: seq<int>, m: nat) {
    forall t :: AtTick(log, t) <= m
  }

  function AtTick(log: seq<int>, t: int): nat {
    InWindow(log, t - 1, t)
  }

  lemma {:induction false} WindowSplits(log: seq<int>, lo: int, mid: int, hi: int)
    requires lo <= mid <= hi
    ensures InWindow(log, lo, hi) == InWindow(log, lo, mid) + InWindow(log, mid, hi)
  {
    if log != [] {
      WindowSplits(log[..|log| - 1], lo, mid, hi);
    }
  }

  lemma {:induction false} EmptyTick(log: seq<int>, t: int)
    ensures AtTick(log, t) > 0 <==> t in log
  {
    if log != [] {
      EmptyTick(log[..|log| - 1], t);
      assert log == log[..|log| - 1] + [log[|log| - 1]];
    }
  }

  lemma TicksSplit(log: seq<int>, lo: int, hi: int)
    requires lo < hi
    ensures |TicksIn(log, lo, hi)| == |TicksIn(log, lo, hi - 1)| + (if hi in log then 1 else 0)
  {
    if hi in log {
      assert TicksIn(log, lo, hi) == TicksIn(log, lo, hi - 1) + {hi};
    } else {
      assert TicksIn(log, lo, hi) == TicksIn(log, lo, hi - 1);
    }
  }

  /** A window has as many ticks as it is long, and each used one counts at most `m` requests. */
  lemma {:induction false} CountByTicks(log: seq<int>, lo: int, hi: int, m: nat)
    requires lo <= hi && AtMostPerTick(log, m)
    ensures |TicksIn(log, lo, hi)| <= hi - lo
    ensures InWindow(log, lo, hi) <= m * |TicksIn(log, lo, hi)|
    decreases hi - lo
  {
    if lo == hi {
      EmptyWindow(log, lo);
      assert TicksIn(log, lo, hi) == {};
    } else {
      CountByTicks(log, lo, hi - 1, m);
      WindowSplits(log, lo, hi - 1, hi);
      TicksSplit(log, lo, hi);
      EmptyTick(log, hi);
      assert AtTick(log, hi) <= m;
      OneMoreTimes(m, |TicksIn(log, lo, hi - 1)|);
    }
  }

  lemma OneMoreTimes(m: nat, n: nat)
    ensures m * (n + 1) == m * n + m
  {
  }

  lemma {:induction false} EmptyWindow(log: seq<int>, lo: int)
    ensures InWindow(log, lo, lo) == 0
  {
    if log != [] {
      EmptyWindow(log[..|log| - 1], lo);
    }
  }

  /** No window accepts more than arrives in it. */
  lemma {:induction false} AcceptedAmongArrivals(cfg: Config, sortedSets: bool, start: int, arrivals: seq<int>, lo: int,
                                                 hi: int)
    requires cfg.banWindow > 0
    ensures InWindow(Serve(cfg, Begin(sortedSets, start), arrivals).accepted, lo, hi) <= InWindow(arrivals, lo, hi)
  {
    if arrivals != [] {
      var init, now := arrivals[..|arrivals| - 1], arrivals[|arrivals| - 1];
      AcceptedAmongArrivals(cfg, sortedSets, start, init, lo, hi);
      TicksAppend(Serve(cfg, Begin(sortedSets, start), init).accepted, now, lo, hi);
    }
  }

  function Least(a: nat, b: nat): nat {
    if a < b then a else b
  }

  lemma TimesGrows(m: nat, a: nat, b: nat)
    requires a <= b
    ensures m * a <= m * b
  {
  }

  /** With sorted sets and at most `m` requests per tick, a window holds at most `m` accepted requests for each
      of its ticks that the limit lets through. */
  lemma TiedLimit(cfg: Config, start: int, arrivals: seq<int>, b: Band, lo: int, m: nat)
    requires cfg.banWindow > 0 && Ordered(start, arrivals) && BandOf(cfg, b) && AtMostPerTick(arrivals, m)
    ensures InWindow(Serve(cfg, Begin(true, start), arrivals).accepted, lo, lo + b.window)
         <= m * Least(b.limit, b.window)
  {
    var accepted := Serve(cfg, Begin(true, start), arrivals).accepted;
    TwoBandLimitOnTicks(cfg, start, arrivals, b, lo);
    forall t
      ensures AtTick(accepted, t) <= m
    {
      AcceptedAmongArrivals(cfg, true, start, arrivals, t - 1, t);
      assert AtTick(arrivals, t) <= m;
    }
    CountByTicks(accepted, lo, lo + b.window, m);
    TimesGrows(m, |TicksIn(accepted, lo, lo + b.window)|, Least(b.limit, b.window));
  }

  /** `m` requests on each of `n` consecutive ticks from `t` on. */
  function Tied(t: int, n: nat, m: nat): seq<int> {
    if n == 0 then [] else Tied(t, n - 1, m) + Times(t + n - 1, m)
  }

  lemma {:induction false} TiedCount(t: int, n: nat, m: nat, lo: int, hi: int)
    requires lo < t && t + n - 1 <= hi
    ensures InWindow(Tied(t, n, m), lo, hi) == m * n
  {
    if n > 0 {
      TiedCount(t, n - 1, m, lo, hi);
      CountOfConcat(Tied(t, n - 1, m), Times(t + n - 1, m), lo, hi);
      CountOfTimes(t + n - 1, m, lo, hi);
      OneMoreTimes(m, n - 1);
    }
  }

  lemma {:induction false} TiedPerTick(t: int, n: nat, m: nat, at: int)
    ensures AtTick(Tied(t, n, m), at) == if t <= at < t + n then m else 0
  {
    if n > 0 {
      TiedPerTick(t, n - 1, m, at);
      CountOfConcat(Tied(t, n - 1, m), Times(t + n - 1, m), at - 1, at);
      CountOfTimes(t + n - 1, m, at - 1, at);
    }
  }

  lemma {:induction false} TiedOrdered(t: int, n: nat, m: nat)
    ensures Ordered(t, Tied(t, n, m))
    ensures forall x :: x in Tied(t, n, m) ==> t <= x < t + n
  {
    if n > 0 {
      var init := Tied(t, n - 1, m);
      TiedOrdered(t, n - 1, m);
      forall i | 0 <= i < |init|
        ensures init[i] <= t + n - 1
      {
        assert init[i] in init;
      }
    }
  }

  function Range(t: int, n: nat): set<int> {
    if n == 0 then {} else Range(t, n - 1) + {t + n - 1}
  }

  lemma {:induction false} RangeSize(t: int, n: nat)
    ensures |Range(t, n)| == n && forall x :: x in Range(t, n) <==> t <= x < t + n
  {
    if n > 0 {
      RangeSize(t, n - 1);
    }
  }

  /** A run that uses no more ticks than the limits of the bands is accepted as a whole. */
  lemma {:induction false} FewTicksAreAccepted(cfg: Config, start: nat, arrivals: seq<int>, ticks: set<int>)
    requires cfg.banWindow > 0 && Ordered(start, arrivals) && (forall t :: t in arrivals ==> t in ticks)
    requires Enabled(cfg.burst) ==> |ticks| <= cfg.burst.limit
    requires Enabled(cfg.sustained) ==> |ticks| <= cfg.sustained.limit
    ensures var tr := Serve(cfg, Begin(true, start), arrivals);
            && tr.accepted == arrivals && tr.bans == []
            && (forall t :: t in tr.burstLog || t in tr.sustainedLog ==> t in ticks)
  {
    if arrivals != [] {
      var init, now := arrivals[..|arrivals| - 1], arrivals[|arrivals| - 1];
      assert arrivals == init + [now];
      assert forall i :: 0 <= i < |init| ==> init[i] == arrivals[i];
      FewTicksAreAccepted(cfg, start, init, ticks);
      FewTicksNext(cfg, start, init, now, ticks);
    }
  }

  lemma FewTicksNext(cfg: Config, start: nat, init: seq<int>, now: int, ticks: set<int>)
    requires cfg.banWindow > 0 && Ordered(start, init + [now]) && now in ticks
    requires Enabled(cfg.burst) ==> |ticks| <= cfg.burst.limit
    requires Enabled(cfg.sustained) ==> |ticks| <= cfg.sustained.limit
    requires var tr := Serve(cfg, Begin(true, start), init);
             tr.accepted == init && tr.bans == [] && (forall t :: t in tr.burstLog || t in tr.sustainedLog ==>
                                                      t in ticks)
    ensures var tr := Observe(cfg, Serve(cfg, Begin(true, start), init), now);
            && tr.accepted == init + [now] && tr.bans == []
            && (forall t :: t in tr.burstLog || t in tr.sustainedLog ==> t in ticks)
  {
    var tr := Serve(cfg, Begin(true, start), init);
    OrderedPrefix(start, init + [now], |init|);
    assert (init + [now])[..|init|] == init && (init + [now])[|init|] == now;
    FewTicksFit(cfg.burst, tr.burstLog, now, ticks);
    FewTicksFit(cfg.sustained, tr.sustainedLog, now, ticks);
    AcceptedExactlyWhenItFits(cfg, true, start, init, now);
    AcceptedObserve(cfg, tr, now);
  }

  lemma FewTicksFit(b: Band, log: seq<int>, now: int, ticks: set<int>)
    requires now in ticks && (forall t :: t in log ==> t in ticks) && (Enabled(b) ==> |ticks| <= b.limit)
    ensures Fits(b, true, log, now)
  {
    SubsetCount(TicksIn(log + [now], now - b.window, now), ticks);
  }

  /** The other band is switched off, or lets at least as many requests through as this one. */
  predicate OtherBandIsNoNarrower(cfg: Config, b: Band) {
    Enabled(OtherBand(cfg, b)) ==> OtherBand(cfg, b).limit >= b.limit
  }

  /** `m` requests on each of no more ticks than the limit are all accepted. */
  lemma TiedIsAccepted(cfg: Config, start: nat, b: Band, t: int, n: nat, m: nat)
    requires cfg.banWindow > 0 && BandOf(cfg, b) && OtherBandIsNoNarrower(cfg, b) && start <= t && n <= b.limit
    ensures Ordered(start, Tied(t, n, m)) && AtMostPerTick(Tied(t, n, m), m)
    ensures Serve(cfg, Begin(true, start), Tied(t, n, m)).accepted == Tied(t, n, m)
  {
    TiedOrdered(t, n, m);
    forall at
      ensures AtTick(Tied(t, n, m), at) <= m
    {
      TiedPerTick(t, n, m, at);
    }
    RangeSize(t, n);
    FewTicksAreAccepted(cfg, start, Tied(t, n, m), Range(t, n));
  }

  /** The bound is reached in every window: `m` requests on each of as many of its first ticks as the limit lets
      through are all accepted. */
  lemma TiedLimitIsReached(cfg: Config, start: nat, b: Band, lo: int, m: nat)
    requires cfg.banWindow > 0 && BandOf(cfg, b) && OtherBandIsNoNarrower(cfg, b) && start <= lo + 1
    ensures var n := Least(b.limit, b.window);
            var arrivals := Tied(lo + 1, n, m);
            && Ordered(start, arrivals) && AtMostPerTick(arrivals, m)
            && InWindow(Serve(cfg, Begin(true, start), arrivals).accepted, lo, lo + b.window) == m * n
  {
    var n := Least(b.limit, b.window);
    TiedIsAccepted(cfg, start, b, lo + 1, n, m);
    TiedCount(lo + 1, n, m, lo, lo + b.window);
  }

  /** The limit holds in this window over every run with at most `m` requests per tick. */
  ghost predicate LimitHoldsWithTies(cfg: Config, b: Band, start: nat, lo: int, m: nat)
    requires cfg.banWindow > 0
  {
    forall arrivals: seq<int> :: Ordered(start, arrivals) && AtMostPerTick(arrivals, m) ==>
      InWindow(Serve(cfg, Begin(true, start), arrivals).accepted, lo, lo + b.window) <= b.limit
  }

  /** With sorted sets the limit of a band holds over every run with at most `m` requests per tick exactly when
      `m` requests on as many ticks as the limit lets through are within it. */
  lemma LimitWithTiesIff(cfg: Config, b: Band, start: nat, lo: int, m: nat)
    requires cfg.banWindow > 0 && BandOf(cfg, b) && OtherBandIsNoNarrower(cfg, b) && start <= lo + 1
    ensures LimitHoldsWithTies(cfg, b, start, lo, m) <==> m * Least(b.limit, b.window) <= b.limit
  {
    TiedLimitIsReached(cfg, start, b, lo, m);
    if m * Least(b.limit, b.window) <= b.limit {
      forall arrivals: seq<int> | Ordered(start, arrivals) && AtMostPerTick(arrivals, m)
        ensures InWindow(Serve(cfg, Begin(true, start), arrivals).accepted, lo, lo + b.window) <= b.limit
      {
        TiedLimit(cfg, start, arrivals, b, lo, m);
      }
    }
  }

  /** For a limit no longer than the window that means: exactly when no two requests share a tick. */
  lemma LimitNeedsDistinctTicks(cfg: Config, b: Band, start: nat, lo: int, m: nat)
    requires cfg.banWindow > 0 && BandOf(cfg, b) && OtherBandIsNoNarrower(cfg, b) && start <= lo + 1
    requires b.limit <= b.window
    ensures LimitHoldsWithTies(cfg, b, start, lo, m) <==> m <= 1
  {
    LimitWithTiesIff(cfg, b, start, lo, m);
    if m > 1 {
      TimesGrows(b.limit, 2, m);
    }
  }

  // ---- The bucket fallback ------------------------------------------------------------------------

  /** With the bucket fallback any window of a band's length contains at most twice the limit, ties or
      not. */
  lemma BucketFallbackLimit(cfg: Config, start: int, arrivals: seq<int>, b: Band, lo: int)
    requires cfg.banWindow > 0 && Ordered(start, arrivals) && BandOf(cfg, b)
    ensures InWindow(Serve(cfg, Begin(false, start), arrivals).accepted, lo, lo + b.window) <= 2 * b.limit
  {
    var tr := Serve(cfg, Begin(false, start), arrivals);
    ServeKeepsInvariant(cfg, false, start, arrivals);
    BackendFixed(cfg, false, start, arrivals);
    if b == cfg.burst {
      BucketBandBound(b, tr.s.burst, tr.burstLog, tr.accepted, tr.last, lo);
    } else {
      BucketBandBound(b, tr.s.sustained, tr.sustainedLog, tr.accepted, tr.last, lo);
    }
  }

  /** The window is one of the buckets. */
  predicate Aligned(b: Band, lo: int)
    requires b.window > 0
  {
    (lo + 1) % b.window == 0
  }

  lemma AlignedBandBound(b: Band, store: Store, log: seq<int>, accepted: seq<int>, last: int, lo: int)
    requires BandInvariant(b, store, log, accepted, last) && store.Buckets? && Aligned(b, lo)
    ensures InWindow(accepted, lo, lo + b.window) <= b.limit
  {
    var k := (lo + 1) / b.window;
    assert k * b.window == lo + 1;
    assert InBucket(accepted, b.window, k) <= b.limit;
  }

  lemma AlignedWindowLimit(cfg: Config, start: int, arrivals: seq<int>, b: Band, lo: int)
    requires cfg.banWindow > 0 && Ordered(start, arrivals) && BandOf(cfg, b) && Aligned(b, lo)
    ensures InWindow(Serve(cfg, Begin(false, start), arrivals).accepted, lo, lo + b.window) <= b.limit
  {
    var tr := Serve(cfg, Begin(false, start), arrivals);
    ServeKeepsInvariant(cfg, false, start, arrivals);
    BackendFixed(cfg, false, start, arrivals);
    if b == cfg.burst {
      AlignedBandBound(b, tr.s.burst, tr.burstLog, tr.accepted, tr.last, lo);
    } else {
      AlignedBandBound(b, tr.s.sustained, tr.sustainedLog, tr.accepted, tr.last, lo);
    }
  }

  /** The part of a run that ends with request `n` is within the limit of the bucket of that request. */
  predicate FitsBucket(b: Band, arrivals: seq<int>, n: nat)
    requires n < |arrivals|
  {
    Enabled(b) ==> InBucket(arrivals[..n + 1], b.window, arrivals[n] / b.window) <= b.limit
  }

  /** A run that was accepted so far, and one more request that fits. */
  lemma FittingNext(cfg: Config, start: nat, init: seq<int>, now: int, arrivals: seq<int>)
    requires cfg.banWindow > 0 && arrivals == init + [now] && Ordered(start, arrivals)
    requires FitsBucket(cfg.burst, arrivals, |init|) && FitsBucket(cfg.sustained, arrivals, |init|)
    requires var tr := Serve(cfg, Begin(false, start), init);
             && tr.accepted == init && tr.bans == []
             && (Enabled(cfg.burst) ==> tr.burstLog == init) && (Enabled(cfg.sustained) ==> tr.sustainedLog == init)
    ensures var tr' := Observe(cfg, Serve(cfg, Begin(false, start), init), now);
            && tr'.accepted == arrivals && tr'.bans == []
            && (Enabled(cfg.burst) ==> tr'.burstLog == arrivals)
            && (Enabled(cfg.sustained) ==> tr'.sustainedLog == arrivals)
  {
    assert arrivals[..|init| + 1] == arrivals && arrivals[|init|] == now;
    OrderedPrefix(start, arrivals, |init|);
    assert arrivals[..|init|] == init;
    AcceptedExactlyWhenItFits(cfg, false, start, init, now);
    AcceptedObserve(cfg, Serve(cfg, Begin(false, start), init), now);
  }

  /** A run none of whose requests exceeds a bucket is accepted as a whole. */
  lemma {:induction false} FittingRunIsAccepted(cfg: Config, start: nat, arrivals: seq<int>)
    requires cfg.banWindow > 0 && Ordered(start, arrivals)
    requires forall n :: 0 <= n < |arrivals| ==> FitsBucket(cfg.burst, arrivals, n)
    requires forall n :: 0 <= n < |arrivals| ==> FitsBucket(cfg.sustained, arrivals, n)
    ensures var tr := Serve(cfg, Begin(false, start), arrivals);
            && tr.accepted == arrivals && tr.bans == []
            && (Enabled(cfg.burst) ==> tr.burstLog == arrivals)
            && (Enabled(cfg.sustained) ==> tr.sustainedLog == arrivals)
  {
    if arrivals != [] {
      var init, now := arrivals[..|arrivals| - 1], arrivals[|arrivals| - 1];
      forall n | 0 <= n < |init|
        ensures FitsBucket(cfg.burst, init, n) && FitsBucket(cfg.sustained, init, n)
      {
        assert init[..n + 1] == arrivals[..n + 1];
        assert FitsBucket(cfg.burst, arrivals, n) && FitsBucket(cfg.sustained, arrivals, n);
      }
      FittingRunIsAccepted(cfg, start, init);
      FittingNext(cfg, start, init, now, arrivals);
    }
  }

  /** `m` requests on the last tick before `t`, then `n` on `t` itself. */
  function Straddling(t: int, m: nat, n: nat): seq<int> {
    Times(t - 1, m) + Times(t, n)
  }

  lemma StraddlingCount(t: int, m: nat, n: nat, lo: int, hi: int)
    ensures InWindow(Straddling(t, m, n), lo, hi) == (if lo < t - 1 <= hi then m else 0)
        + (if lo < t <= hi then n else 0)
  {
    CountOfConcat(Times(t - 1, m), Times(t, n), lo, hi);
    CountOfTimes(t - 1, m, lo, hi);
    CountOfTimes(t, n, lo, hi);
  }

  lemma StraddlingPrefix(t: int, m: nat, n: nat, i: nat)
    requires i < m + n
    ensures var xs := Straddling(t, m, n);
            if i < m then xs[..i + 1] == Straddling(t, i + 1, 0) && xs[i] == t - 1
            else xs[..i + 1] == Straddling(t, m, i + 1 - m) && xs[i] == t
  {
  }

  /** A bucket starts at `t`. */
  predicate Boundary(w: nat, t: int)
    requires w > 0
  {
    t % w == 0
  }

  lemma BoundaryBuckets(w: nat, t: int)
    requires w > 0 && Boundary(w, t)
    ensures var lo := t / w * w - 1;
            lo == t - 1 && (t - 1) / w * w + w - 1 == t - 1
  {
    assert t / w * w == t;
    BucketOf(t - 1, w, t / w - 1);
    assert (t / w - 1) * w == t - w;
  }

  /** Two buckets filled to the limit fit the band itself. */
  lemma StraddlingFitsItself(b: Band, t: int, m: nat, n: nat, i: nat)
    requires Enabled(b) && Boundary(b.window, t) && m <= b.limit && n <= b.limit && i < m + n
    ensures FitsBucket(b, Straddling(t, m, n), i)
  {
    var w := b.window;
    StraddlingPrefix(t, m, n, i);
    BoundaryBuckets(w, t);
    if i < m {
      StraddlingCount(t, i + 1, 0, (t - 1) / w * w - 1, (t - 1) / w * w + w - 1);
    } else {
      StraddlingCount(t, m, i + 1 - m, t / w * w - 1, t / w * w + w - 1);
    }
  }

  /** They fit any other band whose limit covers all of them. */
  lemma StraddlingFitsWider(b: Band, t: int, m: nat, n: nat, i: nat)
    requires (Enabled(b) ==> m + n <= b.limit) && i < m + n
    ensures FitsBucket(b, Straddling(t, m, n), i)
  {
    if Enabled(b) {
      var bucket := Straddling(t, m, n)[i] / b.window;
      StraddlingPrefix(t, m, n, i);
      if i < m {
        StraddlingCount(t, i + 1, 0, bucket * b.window - 1, bucket * b.window + b.window - 1);
      } else {
        StraddlingCount(t, m, i + 1 - m, bucket * b.window - 1, bucket * b.window + b.window - 1);
      }
    }
  }

  /** The other band is switched off, or lets more requests through than this one. */
  predicate OtherBandIsWider(cfg: Config, b: Band) {
    Enabled(OtherBand(cfg, b)) ==> OtherBand(cfg, b).limit > b.limit
  }

  /** All of them are accepted, so a window over the boundary holds `m + n` accepted requests. */
  lemma BoundaryBurstIsAccepted(cfg: Config, b: Band, start: nat, t: int, m: nat, n: nat)
    requires cfg.banWindow > 0 && BandOf(cfg, b) && Boundary(b.window, t) && m <= b.limit && n <= b.limit
    requires Enabled(OtherBand(cfg, b)) ==> m + n <= OtherBand(cfg, b).limit
    requires start <= t - 1
    ensures var arrivals := Straddling(t, m, n);
            Ordered(start, arrivals) && Serve(cfg, Begin(false, start), arrivals).accepted == arrivals
  {
    var arrivals := Straddling(t, m, n);
    forall i | 0 <= i < |arrivals|
      ensures FitsBucket(cfg.burst, arrivals, i) && FitsBucket(cfg.sustained, arrivals, i)
    {
      StraddlingFitsItself(b, t, m, n, i);
      StraddlingFitsWider(OtherBand(cfg, b), t, m, n, i);
    }
    FittingRunIsAccepted(cfg, start, arrivals);
  }

  /** Twice the limit is reached: a full bucket just before a boundary and one just after it, in every window
      over that boundary. */
  lemma TwiceTheLimitIsReached(cfg: Config, b: Band, start: nat, t: int, lo: int)
    requires cfg.banWindow > 0 && BandOf(cfg, b) && Boundary(b.window, t) && start <= t - 1
    requires Enabled(OtherBand(cfg, b)) ==> 2 * b.limit <= OtherBand(cfg, b).limit
    requires lo < t - 1 && t <= lo + b.window
    ensures var arrivals := Straddling(t, b.limit, b.limit);
            InWindow(Serve(cfg, Begin(false, start), arrivals).accepted, lo, lo + b.window) == 2 * b.limit
  {
    BoundaryBurstIsAccepted(cfg, b, start, t, b.limit, b.limit);
    StraddlingCount(t, b.limit, b.limit, lo, lo + b.window);
  }

  /** The limit holds in this window over every run. */
  ghost predicate LimitHolds(cfg: Config, b: Band, start: nat, lo: int)
    requires cfg.banWindow > 0
  {
    forall arrivals: seq<int> :: Ordered(start, arrivals) ==>
      InWindow(Serve(cfg, Begin(false, start), arrivals).accepted, lo, lo + b.window) <= b.limit
  }

  lemma MisalignedWindowExceeds(cfg: Config, b: Band, start: nat, lo: int) returns (arrivals: seq<int>)
    requires cfg.banWindow > 0 && BandOf(cfg, b) && OtherBandIsWider(cfg, b) && start <= lo + 1 && !Aligned(b, lo)
    ensures Ordered(start, arrivals)
    ensures InWindow(Serve(cfg, Begin(false, start), arrivals).accepted, lo, lo + b.window) == b.limit + 1
  {
    var t := NextBoundary(b.window, lo);
    arrivals := Straddling(t, b.limit, 1);
    BoundaryBurstIsAccepted(cfg, b, start, t, b.limit, 1);
    StraddlingCount(t, b.limit, 1, lo, lo + b.window);
  }

  lemma NextBoundary(w: nat, lo: int) returns (t: int)
    requires w > 0 && (lo + 1) % w != 0
    ensures Boundary(w, t) && lo < t - 1 && t <= lo + w
  {
    var k := (lo + 1) / w;
    t := (k + 1) * w;
    assert k * w + (lo + 1) % w == lo + 1;
    assert t == k * w + w;
    BucketOf(t, w, k + 1);
    assert t / w * w + t % w == t;
  }

  /** With the bucket fallback the limit of a band holds in a window over every run exactly when the window is
      aligned with the buckets. */
  lemma FallbackLimitIff(cfg: Config, b: Band, start: nat, lo: int)
    requires cfg.banWindow > 0 && BandOf(cfg, b) && OtherBandIsWider(cfg, b) && start <= lo + 1
    ensures LimitHolds(cfg, b, start, lo) <==> Aligned(b, lo)
  {
    if Aligned(b, lo) {
      forall arrivals: seq<int> | Ordered(start, arrivals)
        ensures InWindow(Serve(cfg, Begin(false, start), arrivals).accepted, lo, lo + b.window) <= b.limit
      {
        AlignedWindowLimit(cfg, start, arrivals, b, lo);
      }
    } else {
      var arrivals := MisalignedWindowExceeds(cfg, b, start, lo);
    }
  }

  // ---- Bans ---------------------------------------------------------------------------------------

  /** The request at position `i` of a run is refused and its refusal is the one that bans the address. */
  ghost predicate BansAt(cfg: Config, tr: Trace, now: int)
    requires cfg.banWindow > 0
  {
    && Step(cfg, tr.s, now).1 in {BurstExceeded, SustainedExceeded}
    && InBucket(tr.refused + [now], cfg.banWindow, now / cfg.banWindow) >= cfg.banThreshold
  }

  lemma ServeStep(cfg: Config, tr: Trace, arrivals: seq<int>, n: nat)
    requires cfg.banWindow > 0 && n < |arrivals|
    ensures Serve(cfg, tr, arrivals[..n + 1]) == Observe(cfg, Serve(cfg, tr, arrivals[..n]), arrivals[n])
  {
    assert arrivals[..n + 1][..n] == arrivals[..n];
  }

  /** A ban is only ever extended. */
  lemma {:induction false} BanNeverShrinks(cfg: Config, sortedSets: bool, start: int, arrivals: seq<int>, i: nat,
                                           j: nat)
    requires cfg.banWindow > 0 && Ordered(start, arrivals) && i <= j <= |arrivals|
    ensures Serve(cfg, Begin(sortedSets, start), arrivals[..i]).s.bannedUntil
         <= Serve(cfg, Begin(sortedSets, start), arrivals[..j]).s.bannedUntil
    decreases j - i
  {
    if i < j {
      BanNeverShrinks(cfg, sortedSets, start, arrivals, i, j - 1);
      ServeStep(cfg, Begin(sortedSets, start), arrivals, j - 1);
      StepExtendsBan(cfg, Serve(cfg, Begin(sortedSets, start), arrivals[..j - 1]).s, arrivals[j - 1]);
    }
  }

  lemma OrderedPrefix(start: int, arrivals: seq<int>, n: nat)
    requires Ordered(start, arrivals) && n <= |arrivals|
    ensures Ordered(start, arrivals[..n])
  {
  }

  /** Once a refusal at position `i` has reached the threshold, every later request before the expiry is
      refused as banned, those on the same tick included. */
  lemma BansHold(cfg: Config, sortedSets: bool, start: int, arrivals: seq<int>, i: nat, j: nat)
    requires cfg.banWindow > 0 && Ordered(start, arrivals) && i < j < |arrivals|
    requires BansAt(cfg, Serve(cfg, Begin(sortedSets, start), arrivals[..i]), arrivals[i])
    requires arrivals[j] < arrivals[i] + cfg.banDuration
    ensures Step(cfg, Serve(cfg, Begin(sortedSets, start), arrivals[..j]).s, arrivals[j]).1 == BannedAddress
  {
    var before := Serve(cfg, Begin(sortedSets, start), arrivals[..i]);
    OrderedPrefix(start, arrivals, i);
    ServeKeepsInvariant(cfg, sortedSets, start, arrivals[..i]);
    RefusalCounted(cfg, before, arrivals[i]);
    StepRejects(cfg, before.s, arrivals[i]);
    ServeStep(cfg, Begin(sortedSets, start), arrivals, i);
    BanNeverShrinks(cfg, sortedSets, start, arrivals, i + 1, j);
  }

  /** And nobody is banned without cause: a request is refused as banned only before the expiry of an earlier
      refusal that reached the threshold. */
  lemma BansHaveCause(cfg: Config, sortedSets: bool, start: nat, arrivals: seq<int>, j: nat) returns (i: nat)
    requires cfg.banWindow > 0 && Ordered(start, arrivals) && j < |arrivals|
    requires Step(cfg, Serve(cfg, Begin(sortedSets, start), arrivals[..j]).s, arrivals[j]).1 == BannedAddress
    ensures i < j && arrivals[j] < arrivals[i] + cfg.banDuration
    ensures BansAt(cfg, Serve(cfg, Begin(sortedSets, start), arrivals[..i]), arrivals[i])
  {
    i := BanIssued(cfg, sortedSets, start, arrivals, j);
  }

  lemma {:induction false} BanIssued(cfg: Config, sortedSets: bool, start: nat, arrivals: seq<int>, n: nat)
      returns (i: nat)
    requires cfg.banWindow > 0 && Ordered(start, arrivals) && n <= |arrivals|
    requires Serve(cfg, Begin(sortedSets, start), arrivals[..n]).s.bannedUntil > 0
    ensures i < n && Serve(cfg, Begin(sortedSets, start), arrivals[..n]).s.bannedUntil == arrivals[i] + cfg.banDuration
    ensures BansAt(cfg, Serve(cfg, Begin(sortedSets, start), arrivals[..i]), arrivals[i])
  {
    assert n > 0;
    var before := Serve(cfg, Begin(sortedSets, start), arrivals[..n - 1]);
    ServeStep(cfg, Begin(sortedSets, start), arrivals, n - 1);
    OrderedPrefix(start, arrivals, n - 1);
    ServeKeepsInvariant(cfg, sortedSets, start, arrivals[..n - 1]);
    RefusalCounted(cfg, before, arrivals[n - 1]);
    StepRejects(cfg, before.s, arrivals[n - 1]);
    if BansAt(cfg, before, arrivals[n - 1]) {
      i := n - 1;
    } else {
      i := BanIssued(cfg, sortedSets, start, arrivals, n - 1);
    }
  }
}

/** The edge rate limiter for one client address. Time is an integer clock in microsecond ticks: the
    resolution at which the sorted-set members are told apart. */
module RateLimiter {
  import opened Common

  datatype Band = Band(limit: nat, window: nat)
  datatype Config = Config(burst: Band, sustained: Band, banThreshold: nat, banWindow: nat, banDuration: nat)

  predicate Enabled(b: Band) {
    b.limit != 0 && b.window != 0
  }

  /** What the cache holds for one band: a sorted set of ticks, or a counter per fixed bucket when the
      cache has no sorted sets. */
  datatype Store = Sorted(members: set<int>) | Buckets(counts: map<int, nat>)

  function CountIn(counts: map<int, nat>, bucket: int): nat {
    if bucket in counts then counts[bucket] else 0
  }

  /** Records an arrival and returns the number of arrivals in the window, this one included. */
  function Hit(store: Store, window: nat, now: int): (r: (Store, nat))
    requires window > 0
  {
    match store
    case Sorted(members) =>
      var kept := (set t | t in members && t > now - window) + {now};
      (Sorted(kept), |kept|)
    case Buckets(counts) =>
      var n := CountIn(counts, now / window) + 1;
      (Buckets(counts[now / window := n]), n)
  }

  datatype Verdict = Accepted | BannedAddress | BurstExceeded | SustainedExceeded

  datatype State = State(burst: Store, sustained: Store, rejects: map<int, nat>, bannedUntil: int)

  /** A 429 bumps the reject counter of the current ban window and bans at the threshold. */
  function Reject(cfg: Config, s: State, now: int): State
    requires cfg.banWindow > 0
  {
    var n := CountIn(s.rejects, now / cfg.banWindow) + 1;
    s.(rejects := s.rejects[now / cfg.banWindow := n],
       bannedUntil := if n >= cfg.banThreshold then now + cfg.banDuration else s.bannedUntil)
  }

  function HitBurst(cfg: Config, s: State, now: int): (State, nat) {
    if Enabled(cfg.burst) then
      var (store, n) := Hit(s.burst, cfg.burst.window, now);
      (s.(burst := store), n)
    else (s, 0)
  }

  function HitSustained(cfg: Config, s: State, now: int): (State, nat) {
    if Enabled(cfg.sustained) then
      var (store, n) := Hit(s.sustained, cfg.sustained.window, now);
      (s.(sustained := store), n)
    else (s, 0)
  }

  function Step(cfg: Config, s: State, now: int): (State, Verdict)
    requires cfg.banWindow > 0
  {
    if now < s.bannedUntil then (s, BannedAddress)
    else
      var (s1, burst) := HitBurst(cfg, s, now);
      if burst > cfg.burst.limit then (Reject(cfg, s1, now), BurstExceeded)
      else
        var (s2, sustained) := HitSustained(cfg, s1, now);
        if sustained > cfg.sustained.limit then (Reject(cfg, s2, now), SustainedExceeded)
        else (s2, Accepted)
  }

  class EdgeRateLimiter {
    const cfg: Config
    var burst: Store
    var sustained: Store
    var rejects: map<int, nat>
    var bannedUntil: int

    ghost function View(): State
      reads this
    {
      State(burst, sustained, rejects, bannedUntil)
    }

    constructor (cfg: Config, sortedSets: bool)
      ensures View() == Start(sortedSets) && this.cfg == cfg
    {
      this.cfg := cfg;
      burst := if sortedSets then Sorted({}) else Buckets(map[]);
      sustained := if sortedSets then Sorted({}) else Buckets(map[]);
      rejects, bannedUntil := map[], 0;
    }

    method BumpRejects(now: int)
      requires cfg.banWindow > 0
      modifies this`rejects, this`bannedUntil
      ensures View() == Reject(cfg, old(View()), now)
    {
      var key := now / cfg.banWindow;
      if key in rejects {
        rejects := rejects[key := rejects[key] + 1];
      } else {
        rejects := rejects[key := 1];
      }
      if rejects[key] >= cfg.banThreshold {
        bannedUntil := now + cfg.banDuration;
      }
    }

    /** One request of this address: short-circuits while banned, then checks burst, then sustained. */
    method Call(now: int) returns (v: Verdict)
      requires cfg.banWindow > 0
      modifies this
      ensures (View(), v) == Step(cfg, old(View()), now)
    {
      if now < bannedUntil {
        return BannedAddress;
      }
      var count: nat;
      if cfg.burst.limit != 0 && cfg.burst.window != 0 {
        burst, count := SlidingWindowCount(burst, cfg.burst.window, now);
        if count > cfg.burst.limit {
          BumpRejects(now);
          return BurstExceeded;
        }
      }
      if cfg.sustained.limit != 0 && cfg.sustained.window != 0 {
        sustained, count := SlidingWindowCount(sustained, cfg.sustained.window, now);
        if count > cfg.sustained.limit {
          BumpRejects(now);
          return SustainedExceeded;
        }
      }
      return Accepted;
    }
  }

  method SlidingWindowCount(store: Store, window: nat, now: int) returns (store': Store, count: nat)
    requires window > 0
    ensures (store', count) == Hit(store, window, now)
  {
    match store {
      case Sorted(members) =>
        var cutoff := now - window;
        var pruned := set t | t in members && t > cutoff;
        pruned := pruned + {now};
        return Sorted(pruned), |pruned|;
      case Buckets(counts) =>
        var bucket := now / window;
        if bucket in counts {
          return Buckets(counts[bucket := counts[bucket] + 1]), counts[bucket] + 1;
        } else {
          return Buckets(counts[bucket := 1]), 1;
        }
    }
  }

  function Start(sortedSets: bool): State {
    var empty := if sortedSets then Sorted({}) else Buckets(map[]);
    State(empty, empty, map[], 0)
  }

  // ---- Counting over logs -------------------------------------------------------------------

  /** How many entries of a log lie in the half-open window (lo, hi]. */
  function InWindow(log: seq<int>, lo: int, hi: int): nat {
    if log == [] then 0
    else InWindow(log[..|log| - 1], lo, hi) + (if lo < log[|log| - 1] <= hi then 1 else 0)
  }

  function TicksIn(log: seq<int>, lo: int, hi: int): set<int> {
    set t | t in log && lo < t <= hi
  }

  ghost predicate NoTiesIn(log: seq<int>, lo: int, hi: int) {
    forall i, j :: 0 <= i < j < |log| && lo < log[i] <= hi ==> log[i] != log[j]
  }

  ghost predicate Increasing(log: seq<int>) {
    forall i, j :: 0 <= i < j < |log| ==> log[i] < log[j]
  }

  lemma TicksAppend(log: seq<int>, t: int, lo: int, hi: int)
    ensures TicksIn(log + [t], lo, hi) == TicksIn(log, lo, hi) + (if lo < t <= hi then {t} else {})
    ensures InWindow(log + [t], lo, hi) == InWindow(log, lo, hi) + (if lo < t <= hi then 1 else 0)
  {
    assert (log + [t])[..|log|] == log;
  }

  lemma NoTiesAppend(log: seq<int>, t: int, lo: int, hi: int)
    ensures NoTiesIn(log + [t], lo, hi) <==> NoTiesIn(log, lo, hi) && !(lo < t <= hi && t in log)
  {
    var more := log + [t];
    assert forall i :: 0 <= i < |log| ==> more[i] == log[i];
    if lo < t <= hi && t in log {
      var i :| 0 <= i < |log| && log[i] == t;
      assert more[i] == more[|log|];
    }
  }

  lemma CountAppend(log: seq<int>, t: int, lo: int, hi: int)
    ensures InWindow(log + [t], lo, hi) == InWindow(log, lo, hi) + (if lo < t <= hi then 1 else 0)
    ensures |TicksIn(log + [t], lo, hi)| == |TicksIn(log, lo, hi)| + (if lo < t <= hi && t !in log then 1 else 0)
  {
    TicksAppend(log, t, lo, hi);
    if lo < t <= hi && t in log {
      assert TicksIn(log + [t], lo, hi) == TicksIn(log, lo, hi);
    }
  }

  /** Counting distinct ticks never overcounts a log, and is exact just when no two arrivals of the
      window share a tick. */
  lemma {:induction false} TicksVersusCount(log: seq<int>, lo: int, hi: int)
    ensures |TicksIn(log, lo, hi)| <= InWindow(log, lo, hi)
    ensures |TicksIn(log, lo, hi)| == InWindow(log, lo, hi) <==> NoTiesIn(log, lo, hi)
  {
    if log != [] {
      var init, t := log[..|log| - 1], log[|log| - 1];
      TicksVersusCount(init, lo, hi);
      NoTiesAppend(init, t, lo, hi);
      CountAppend(init, t, lo, hi);
      assert log == init + [t];
    }
  }
}

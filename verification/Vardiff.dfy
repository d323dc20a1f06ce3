/** Difficulty bounds, the start difficulty and one retarget, on values. Times are nanoseconds; 0 is the zero time. */
module Vardiff {
  import opened Hex
  import opened Reals

  type Time = nat

  datatype DiffConfig = DiffConfig(
    start: real, gpuStart: real, asicStart: real, min: real, max: real, targetTime: int, retargetInterval: int)

  // ----- bounds -----

  function ClampDiff(cfg: DiffConfig, v: real): real {
    var positive := if v <= 0.0 then 1.0 else v;
    var raised := if cfg.min > 0.0 && positive < cfg.min then cfg.min else positive;
    if cfg.max > 0.0 && raised > cfg.max then cfg.max else raised
  }

  /** A difficulty that the bounds leave alone. */
  predicate Fixed(cfg: DiffConfig, v: real) {
    ClampDiff(cfg, v) == v
  }

  /** For bounds that do not cross, the allowed difficulties; if they cross, the upper bound wins. */
  predicate InBounds(cfg: DiffConfig, v: real) {
    if cfg.min > 0.0 && cfg.max > 0.0 && cfg.min > cfg.max then v == cfg.max
    else v > 0.0 && (cfg.min > 0.0 ==> v >= cfg.min) && (cfg.max > 0.0 ==> v <= cfg.max)
  }

  /** Clamping lands in the bounds, moves nothing that is there, and no allowed difficulty is nearer. */
  lemma ClampIsNearest(cfg: DiffConfig, v: real)
    ensures InBounds(cfg, ClampDiff(cfg, v))
    ensures Fixed(cfg, v) <==> InBounds(cfg, v)
    ensures forall u :: v > 0.0 && InBounds(cfg, u) ==> Distance(v, ClampDiff(cfg, v)) <= Distance(v, u)
  {
  }

  /** A value that is not positive counts as 1. */
  lemma NonPositiveCountsAsOne(cfg: DiffConfig, v: real)
    requires v <= 0.0
    ensures ClampDiff(cfg, v) == ClampDiff(cfg, 1.0)
  {
  }

  function Distance(a: real, b: real): real {
    Abs(a - b)
  }

  // ----- the start difficulty -----

  predicate Contains(s: string, part: string) {
    exists i :: 0 <= i <= |s| && part <= s[i..]
  }

  function PickStartDiff(cfg: DiffConfig, worker: string): real {
    var w := Lower(worker);
    if Contains(w, "gpu") then ClampDiff(cfg, if cfg.gpuStart > 0.0 then cfg.gpuStart else 10.0)
    else if Contains(w, "asic") then ClampDiff(cfg, if cfg.asicStart > 0.0 then cfg.asicStart else cfg.start)
    else ClampDiff(cfg, cfg.start)
  }

  /** What a worker named with "gpu", in any case, starts with. */
  lemma GpuStart(cfg: DiffConfig, before: string, gpu: string, after: string)
    requires Lower(gpu) == "gpu"
    ensures PickStartDiff(cfg, before + gpu + after) == ClampDiff(cfg, if cfg.gpuStart > 0.0 then cfg.gpuStart else 10.0)
  {
    LowerHas(before, gpu, after, "gpu");
  }

  lemma LowerHas(before: string, part: string, after: string, low: string)
    requires Lower(part) == low
    ensures Contains(Lower(before + part + after), low)
  {
    var w := Lower(before + part + after);
    assert w[|before|..|before| + |part|] == low;
    assert low <= w[|before|..];
  }

  /** No piece of the name is the word, in any case. */
  ghost predicate Lacks(worker: string, word: string) {
    forall before, part, after :: worker == before + part + after ==> Lower(part) != word
  }

  lemma ContainedIsAPiece(worker: string, word: string)
    requires Contains(Lower(worker), word)
    ensures exists before, part, after :: worker == before + part + after && Lower(part) == word
  {
    var w := Lower(worker);
    var i :| 0 <= i <= |w| && word <= w[i..];
    var before, part, after := worker[..i], worker[i..i + |word|], worker[i + |word|..];
    assert worker == before + part + after;
    assert Lower(part) == w[i..i + |word|] == word;
  }

  lemma LacksIsNotContained(worker: string, word: string)
    requires Lacks(worker, word)
    ensures !Contains(Lower(worker), word)
  {
    if Contains(Lower(worker), word) {
      ContainedIsAPiece(worker, word);
    }
  }

  /** Without it, one named with "asic" starts with the ASIC difficulty if there is one, and all others with the general one. */
  lemma OtherStart(cfg: DiffConfig, worker: string)
    requires Lacks(worker, "gpu")
    ensures Lacks(worker, "asic") ==> PickStartDiff(cfg, worker) == ClampDiff(cfg, cfg.start)
    ensures forall before, asic, after :: worker == before + asic + after && Lower(asic) == "asic" ==>
      PickStartDiff(cfg, worker) == ClampDiff(cfg, if cfg.asicStart > 0.0 then cfg.asicStart else cfg.start)
  {
    LacksIsNotContained(worker, "gpu");
    if Lacks(worker, "asic") {
      LacksIsNotContained(worker, "asic");
    }
    forall before, asic, after | worker == before + asic + after && Lower(asic) == "asic"
      ensures PickStartDiff(cfg, worker) == ClampDiff(cfg, if cfg.asicStart > 0.0 then cfg.asicStart else cfg.start)
    {
      LowerHas(before, asic, after, "asic");
    }
  }

  // ----- retargeting -----

  const SECOND: int := 1_000_000_000

  function Target(cfg: DiffConfig): int {
    if cfg.targetTime <= 0 then 10 else cfg.targetTime
  }

  function Interval(cfg: DiffConfig): (i: int)
    ensures i >= SECOND
  {
    if cfg.retargetInterval <= 0 then 30 * SECOND else cfg.retargetInterval * SECOND
  }

  /** The times after the cutoff, in order. */
  function Recent(times: seq<Time>, cutoff: int): seq<Time> {
    if times == [] then []
    else
      var n := |times| - 1;
      Recent(times[..n], cutoff) + if times[n] > cutoff then [times[n]] else []
  }

  /** A connection's fields under its mutex. */
  datatype ConnState = ConnState(
    worker: string, authorized: bool, diff: real, currentJob: string, submitted: set<string>,
    window: seq<Time>, lastAdjust: Time)

  datatype Change = NoChange | Changed(from: real, to: real)

  /** Whether a share accepted at `now` ends an interval. */
  predicate Due(cfg: DiffConfig, c: ConnState, now: Time) {
    c.lastAdjust != 0 && now - c.lastAdjust >= Interval(cfg)
  }

  /** The share rate over the target rate, limited to [1/4, 4]: `shares` per interval against one per target time. */
  function Factor(cfg: DiffConfig, shares: int): (f: real)
    ensures 0.25 <= f <= 4.0
  {
    var f := (Target(cfg) * SECOND * shares) as real / Interval(cfg) as real;
    if f > 4.0 then 4.0 else if f < 0.25 then 0.25 else f
  }

  function Proposed(cfg: DiffConfig, diff: real, shares: int): real {
    ClampDiff(cfg, Times(diff, Factor(cfg, shares)))
  }

  /** At least a tenth of the old difficulty, which counts as 1 if it is not positive. */
  predicate WorthChanging(before: real, after: real) {
    var base := if before <= 0.0 then 1.0 else before;
    10.0 * Distance(after, base) >= base
  }

  function Adopted(c: ConnState, now: Time, to: real): (ConnState, Change) {
    var c' := c.(window := [], lastAdjust := now);
    if WorthChanging(c.diff, to) then (c'.(diff := to), Changed(if c.diff <= 0.0 then 1.0 else c.diff, to))
    else (c', NoChange)
  }

  /** What accepting a share at `now` does to the difficulty. */
  function Retargeted(cfg: DiffConfig, c: ConnState, now: Time): (ConnState, Change) {
    var window := c.window + [now];
    if c.lastAdjust == 0 then (c.(window := window, lastAdjust := now), NoChange)
    else if !Due(cfg, c, now) then (c.(window := window), NoChange)
    else Adopted(c, now, Proposed(cfg, c.diff, |Recent(window, now - Interval(cfg))|))
  }

  // ----- what the window holds -----

  lemma {:induction false} RecentConcat(a: seq<Time>, b: seq<Time>, cutoff: int)
    ensures Recent(a + b, cutoff) == Recent(a, cutoff) + Recent(b, cutoff)
  {
    if b == [] {
      assert a + b == a;
    } else {
      var n := |b| - 1;
      assert (a + b)[..|a + b| - 1] == a + b[..n];
      RecentConcat(a, b[..n], cutoff);
    }
  }

  lemma {:induction false} NothingRecent(a: seq<Time>, cutoff: int)
    requires NoLater(a, cutoff)
    ensures Recent(a, cutoff) == []
  {
    if a != [] {
      NothingRecent(a[..|a| - 1], cutoff);
    }
  }

  /** The positions of the times in (now - interval, now]. */
  function Within(times: seq<Time>, now: Time, interval: int): set<int> {
    set i | 0 <= i < |times| && now - interval < times[i] <= now
  }

  predicate NoLater(times: seq<Time>, now: int) {
    forall i :: 0 <= i < |times| ==> times[i] <= now
  }

  lemma {:induction false} RecentCounts(times: seq<Time>, now: Time, interval: int)
    requires NoLater(times, now)
    ensures |Recent(times, now - interval)| == |Within(times, now, interval)|
  {
    if times != [] {
      var n := |times| - 1;
      RecentCounts(times[..n], now, interval);
      var before := Within(times[..n], now, interval);
      assert Within(times, now, interval) == before + if times[n] > now - interval then {n} else {};
    }
  }

  /** How a connection's window and last adjustment relate to the times of all shares it ever had accepted. */
  ghost predicate MeterOk(window: seq<Time>, lastAdjust: Time, history: seq<Time>) {
    && (history == [] <==> lastAdjust == 0)
    && exists cut :: CutAt(window, lastAdjust, history, cut)
  }

  /** The window is the history from `cut` on, and nothing before is later than the last adjustment. */
  ghost predicate CutAt(window: seq<Time>, lastAdjust: Time, history: seq<Time>, cut: int) {
    0 <= cut <= |history| && window == history[cut..] && NoLater(history[..cut], lastAdjust)
  }

  lemma WindowHoldsAllRecent(window: seq<Time>, lastAdjust: Time, history: seq<Time>, now: Time, cutoff: int)
    requires MeterOk(window, lastAdjust, history) && lastAdjust <= cutoff
    ensures Recent(window + [now], cutoff) == Recent(history + [now], cutoff)
  {
    var cut :| CutAt(window, lastAdjust, history, cut);
    assert history + [now] == history[..cut] + (window + [now]);
    RecentConcat(history[..cut], window + [now], cutoff);
    NothingRecent(history[..cut], cutoff);
  }

  lemma CountInFullHistory(window: seq<Time>, lastAdjust: Time, history: seq<Time>, now: Time, interval: int)
    requires MeterOk(window, lastAdjust, history) && lastAdjust <= now - interval
    requires NoLater(history, now)
    ensures |Recent(window + [now], now - interval)| == |Within(history + [now], now, interval)|
  {
    WindowHoldsAllRecent(window, lastAdjust, history, now, now - interval);
    assert NoLater(history + [now], now);
    RecentCounts(history + [now], now, interval);
  }

  /** When a retarget is due, the cleared and filtered window counts exactly the shares that the connection had
      accepted in the last interval, over its full history. */
  lemma WindowCountsFullHistory(cfg: DiffConfig, c: ConnState, history: seq<Time>, now: Time)
    requires MeterOk(c.window, c.lastAdjust, history) && Due(cfg, c, now)
    requires NoLater(history, now)
    ensures |Recent(c.window + [now], now - Interval(cfg))| == |Within(history + [now], now, Interval(cfg))|
  {
    CountInFullHistory(c.window, c.lastAdjust, history, now, Interval(cfg));
  }

  lemma MeterAdvances(window: seq<Time>, lastAdjust: Time, history: seq<Time>, now: Time)
    requires MeterOk(window, lastAdjust, history) && now > 0
    requires NoLater(history, now)
    ensures MeterOk([], now, history + [now])
    ensures MeterOk(window + [now], if lastAdjust == 0 then now else lastAdjust, history + [now])
  {
    var all := history + [now];
    var cut :| CutAt(window, lastAdjust, history, cut);
    assert CutAt([], now, all, |all|);
    assert window + [now] == all[cut..];
    assert all[..cut] == history[..cut];
    assert CutAt(window + [now], if lastAdjust == 0 then now else lastAdjust, all, cut);
  }

  lemma RetargetKeepsMeter(cfg: DiffConfig, c: ConnState, history: seq<Time>, now: Time)
    requires MeterOk(c.window, c.lastAdjust, history) && now > 0
    requires NoLater(history, now)
    ensures var c' := Retargeted(cfg, c, now).0; MeterOk(c'.window, c'.lastAdjust, history + [now])
  {
    MeterAdvances(c.window, c.lastAdjust, history, now);
  }

  // ----- what a change can be -----

  function Times(d: real, f: real): real {
    d * f
  }

  lemma TimesMonotone(d: real, f: real, g: real)
    requires d > 0.0 && f <= g
    ensures Times(d, f) <= Times(d, g)
  {
    var gap := g - f;
    assert d * gap >= 0.0;
    assert d * g == d * f + d * gap;
  }

  lemma RealProduct(d: real, f: real)
    requires d > 0.0 && 0.25 <= f <= 4.0
    ensures d / 4.0 <= Times(d, f) <= 4.0 * d
    ensures f >= 1.0 ==> Times(d, f) >= d
    ensures f <= 1.0 ==> Times(d, f) <= d
  {
    TimesMonotone(d, 0.25, f);
    TimesMonotone(d, f, 4.0);
    if f >= 1.0 { TimesMonotone(d, 1.0, f); }
    if f <= 1.0 { TimesMonotone(d, f, 1.0); }
  }

  lemma ClampStaysBetween(cfg: DiffConfig, d: real, x: real)
    requires Fixed(cfg, d) && x > 0.0
    ensures d > 0.0 && Fixed(cfg, ClampDiff(cfg, x))
    ensures d <= ClampDiff(cfg, x) <= x || x <= ClampDiff(cfg, x) <= d
  {
  }

  lemma ClampedMove(cfg: DiffConfig, diff: real, x: real)
    requires Fixed(cfg, diff) && diff / 4.0 <= x <= 4.0 * diff
    ensures diff > 0.0 && Fixed(cfg, ClampDiff(cfg, x))
    ensures diff / 4.0 <= ClampDiff(cfg, x) <= 4.0 * diff
    ensures x >= diff ==> ClampDiff(cfg, x) >= diff
    ensures x <= diff ==> ClampDiff(cfg, x) <= diff
  {
    ClampIsNearest(cfg, diff);
    ClampStaysBetween(cfg, diff, x);
  }

  /** From an allowed difficulty, the proposal stays within a factor of four and moves in the factor's direction. */
  lemma ProposalIsBounded(cfg: DiffConfig, diff: real, shares: int)
    requires Fixed(cfg, diff)
    ensures diff > 0.0 && Fixed(cfg, Proposed(cfg, diff, shares))
    ensures diff / 4.0 <= Proposed(cfg, diff, shares) <= 4.0 * diff
    ensures Factor(cfg, shares) >= 1.0 ==> Proposed(cfg, diff, shares) >= diff
    ensures Factor(cfg, shares) <= 1.0 ==> Proposed(cfg, diff, shares) <= diff
  {
    var f := Factor(cfg, shares);
    ClampIsNearest(cfg, diff);
    RealProduct(diff, f);
    ClampedMove(cfg, diff, Times(diff, f));
  }

  lemma RatioAgainstOne(a: int, b: int)
    requires b > 0
    ensures a as real / b as real > 1.0 <==> a > b
    ensures a as real / b as real < 1.0 <==> a < b
  {
    RealRatioAgainstOne(a as real, b as real);
  }

  lemma RealRatioAgainstOne(a: real, b: real)
    requires b > 0.0
    ensures a / b > 1.0 <==> a > b
    ensures a / b < 1.0 <==> a < b
  {
    var q := a / b;
    assert Times(b, q) == a && Times(b, 1.0) == b;
    if q <= 1.0 { TimesMonotone(b, q, 1.0); }
    if q >= 1.0 { TimesMonotone(b, 1.0, q); }
    assert a == b ==> q == 1.0;
  }

  /** The factor raises the difficulty exactly if shares came faster than one per target time. */
  lemma FactorFollowsTheRate(cfg: DiffConfig, shares: int)
    ensures Factor(cfg, shares) > 1.0 <==> Target(cfg) * SECOND * shares > Interval(cfg)
    ensures Factor(cfg, shares) < 1.0 <==> Target(cfg) * SECOND * shares < Interval(cfg)
  {
    RatioAgainstOne(Target(cfg) * SECOND * shares, Interval(cfg));
  }

  lemma RatioIs(a: int, b: int, s: int)
    requires b > 0 && s > 0
    ensures var q := (a * s) as real / (b * s) as real;
      && q * b as real == a as real
      && (q > 4.0 <==> a > 4 * b) && (q < 0.25 <==> 4 * a < b)
  {
    var x, y, t := a as real, b as real, s as real;
    var q := (x * t) / (y * t);
    assert (a * s) as real == x * t && (b * s) as real == y * t;
    Cancel(q, x, y, t);
    if q > 4.0 { TimesMonotone(y, 4.0, q); } else { TimesMonotone(y, q, 4.0); }
    if q < 0.25 { TimesMonotone(y, q, 0.25); } else { TimesMonotone(y, 0.25, q); }
    AgainstLimits(q, x, y);
  }

  lemma Cancel(q: real, x: real, y: real, t: real)
    requires y > 0.0 && t > 0.0 && q == (x * t) / (y * t)
    ensures q * y == x
  {
    assert y * t > 0.0;
    assert q * (y * t) == x * t;
    assert (q * y - x) * t == 0.0;
  }

  lemma AgainstLimits(q: real, x: real, y: real)
    requires y > 0.0 && q * y == x
    ensures (q > 4.0 <==> x > 4.0 * y) && (q < 0.25 <==> 4.0 * x < y)
  {
    assert (q - 4.0) * y == x - 4.0 * y;
    assert (q - 0.25) * y == x - y / 4.0;
  }

  /** The factor is the number of shares, each worth the target time, over the interval, both with their defaults of ten
      and thirty seconds; beyond 4 and below 1/4 it is cut off. */
  lemma FactorIs(cfg: DiffConfig, shares: nat)
    ensures var target := if cfg.targetTime > 0 then cfg.targetTime else 10;
      var interval := if cfg.retargetInterval > 0 then cfg.retargetInterval else 30;
      && Interval(cfg) == interval * 1_000_000_000
      && (if target * shares > 4 * interval then Factor(cfg, shares) == 4.0
          else if 4 * (target * shares) < interval then Factor(cfg, shares) == 0.25
          else Factor(cfg, shares) * interval as real == (target * shares) as real)
  {
    var target := if cfg.targetTime > 0 then cfg.targetTime else 10;
    var interval := if cfg.retargetInterval > 0 then cfg.retargetInterval else 30;
    assert Target(cfg) == target && Interval(cfg) == interval * SECOND;
    RatioIs(target * shares, interval, SECOND);
    assert Target(cfg) * SECOND * shares == target * shares * SECOND;
  }

  // ----- the arithmetic of the shipped loop -----

  /** Target time over actual time per share is the factor before it is limited. */
  lemma RateAsFactor(target: int, interval: int, shares: int)
    requires interval > 0 && shares > 0
    ensures interval as real / SECOND as real / shares as real > 0.0
    ensures target as real / (interval as real / SECOND as real / shares as real)
      == (target * SECOND * shares) as real / interval as real
  {
    var i, n, s, t := interval as real, shares as real, SECOND as real, target as real;
    var perShare := i / s / n;
    assert perShare * n == i / s;
    assert perShare * n * s == i;
  }

  /** A relative change under a tenth. */
  lemma RelativeChange(d: real, base: real)
    requires base > 0.0
    ensures d / base < 0.1 <==> 10.0 * d < base
  {
    var q := d / base;
    assert q * base == d;
    if q < 0.1 { TimesMonotone(base, q, 0.1); } else { TimesMonotone(base, 0.1, q); }
  }
}

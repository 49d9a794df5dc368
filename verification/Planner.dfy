/** The moving-average network estimator and the deadline planner over it, in exact real arithmetic. */
module Planner {
  import opened Common
  import opened TransferTypes

  datatype Estimate = Estimate(bandwidthBps: real, rttMs: real)

  const INITIAL := Estimate(1_000_000_000.0, 10.0)

  /** One reported transfer; a duration that is not positive, or an absent or non-positive round-trip time, is
      skipped. */
  datatype Sample = Sample(nbytes: nat, durationMs: real, rttMs: Option<real>) {
    predicate Timed() { durationMs > 0.0 }

    predicate HasRtt() { rttMs.Some? && rttMs.value > 0.0 }

    function Throughput(): real
      requires Timed()
    {
      (nbytes as real * 8.0 * 1000.0) / durationMs
    }
  }

  function Blend(alpha: real, measured: real, previous: real): real { alpha * measured + (1.0 - alpha) * previous }

  function Updated(alpha: real, e: Estimate, s: Sample): Estimate {
    Estimate(if s.Timed() then Blend(alpha, s.Throughput(), e.bandwidthBps) else e.bandwidthBps,
             if s.HasRtt() then Blend(alpha, s.rttMs.value, e.rttMs) else e.rttMs)
  }

  function Run(alpha: real, samples: seq<Sample>): Estimate {
    if samples == [] then INITIAL else Updated(alpha, Run(alpha, samples[..|samples| - 1]), samples[|samples| - 1])
  }

  class BandwidthEstimator {
    const alpha: real
    var ewmaBps: real
    var ewmaRttMs: real
    var lastUpdateMs: int
    ghost var history: seq<Sample>

    ghost predicate Valid()
      reads this
    {
      Estimate(ewmaBps, ewmaRttMs) == Run(alpha, history)
    }

    constructor (alpha: real)
      ensures Valid() && this.alpha == alpha && history == []
    {
      this.alpha := alpha;
      ewmaBps, ewmaRttMs, lastUpdateMs := 1_000_000_000.0, 10.0, 0;
      history := [];
    }

    method Update(nbytes: nat, durationMs: real, rttMs: Option<real>, now: int)
      requires Valid()
      modifies this
      ensures Valid() && history == old(history) + [Sample(nbytes, durationMs, rttMs)] && lastUpdateMs == now
    {
      ghost var s, before := Sample(nbytes, durationMs, rttMs), Run(alpha, history);
      if durationMs > 0.0 {
        var measured := (nbytes as real * 8.0 * 1000.0) / durationMs;
        ewmaBps := alpha * measured + (1.0 - alpha) * ewmaBps;
        assert ewmaBps == Blend(alpha, s.Throughput(), before.bandwidthBps);
      }
      if rttMs.Some? && rttMs.value > 0.0 {
        ewmaRttMs := alpha * rttMs.value + (1.0 - alpha) * ewmaRttMs;
        assert ewmaRttMs == Blend(alpha, rttMs.value, before.rttMs);
      }
      hide Blend, Sample.Throughput;
      lastUpdateMs := now;
      history := history + [s];
      assert history[..|history| - 1] == old(history);
    }

    method GetEstimate() returns (e: Estimate)
      requires Valid()
      ensures e == Run(alpha, history)
    {
      e := Estimate(ewmaBps, ewmaRttMs);
    }
  }

  // ---------- The planner ----------

  datatype Settings = Settings(ttftSloMs: int, alpha: real, minPrefixTokens: int) {
    function BudgetMs(): real { ttftSloMs as real * alpha }
  }

  /** Python's int() on a float. */
  function Truncate(x: real): int { if x >= 0.0 then x.Floor else -(-x).Floor }

  function TransferMs(e: Estimate, nbytes: nat): real
    requires e.bandwidthBps != 0.0
  {
    e.rttMs + (nbytes as real * 8.0 * 1000.0) / e.bandwidthBps
  }

  function RecomputePlan(reason: string): TransferPlan {
    TransferPlan(0, [], Recompute, 0, 0, true, reason, 0, 0)
  }

  /** A zero bandwidth estimate raises ZeroDivisionError. */
  function Plan(e: Estimate, m: PrefixManifest, s: Settings, enableRefinement: bool): Result<TransferPlan> {
    var refineNbytes := if m.refinementNbytes.Some? then m.refinementNbytes.value else 0;
    var deadline := Truncate(s.BudgetMs());
    if m.matchedTokens < s.minPrefixTokens then Ok(RecomputePlan("prefix_too_short"))
    else if e.bandwidthBps == 0.0 then Err(ZeroDivision)
    else if TransferMs(e, m.criticalNbytes) < s.BudgetMs() then
      Ok(TransferPlan(m.matchedTokens, m.matchedBlocks, FullFp16, deadline, 0, false,
                      "full_fp16_within_budget", m.criticalNbytes, 0))
    else if TransferMs(e, m.criticalNbytes / 2) >= s.BudgetMs() then Ok(RecomputePlan("deadline_miss_even_with_int8"))
    else if !enableRefinement || refineNbytes == 0 then
      Ok(TransferPlan(m.matchedTokens, m.matchedBlocks, CriticalInt8Only, deadline, 0, true,
                      "int8_only_no_refinement", m.criticalNbytes / 2, 0))
    else
      var third := Truncate(s.ttftSloMs as real * 0.3);
      Ok(TransferPlan(m.matchedTokens, m.matchedBlocks, CriticalInt8ThenFp16, deadline,
                      if third > 100 then third else 100, true,
                      "fallback_to_int8_for_ttft", m.criticalNbytes / 2, refineNbytes))
  }

  function Rank(mode: Mode): nat {
    match mode
    case Recompute => 0
    case CriticalInt8Only => 1
    case CriticalInt8ThenFp16 => 1
    case FullFp16 => 2
  }

  // ---------- The estimate stays positive and in range ----------

  lemma Product(a: real, x: real, y: real)
    requires a >= 0.0 && x <= y
    ensures a * x <= a * y
  {
  }

  lemma WeightedMonotone(v: real, w: real, m1: real, p1: real, m2: real, p2: real)
    requires v >= 0.0 && w >= 0.0 && m1 <= m2 && p1 <= p2
    ensures v * m1 + w * p1 <= v * m2 + w * p2
  {
    Product(v, m1, m2);
    Product(w, p1, p2);
  }

  lemma BlendMonotone(alpha: real, m1: real, p1: real, m2: real, p2: real)
    requires 0.0 <= alpha <= 1.0 && m1 <= m2 && p1 <= p2
    ensures Blend(alpha, m1, p1) <= Blend(alpha, m2, p2)
  {
    WeightedMonotone(alpha, 1.0 - alpha, m1, p1, m2, p2);
  }

  lemma BlendSame(alpha: real, x: real)
    ensures Blend(alpha, x, x) == x
  {
  }

  lemma BlendWithin(alpha: real, m: real, p: real, lo: real, hi: real)
    requires 0.0 <= alpha <= 1.0 && lo <= m <= hi && lo <= p <= hi
    ensures lo <= Blend(alpha, m, p) <= hi
  {
    BlendMonotone(alpha, lo, lo, m, p);
    BlendMonotone(alpha, m, p, hi, hi);
    BlendSame(alpha, lo);
    BlendSame(alpha, hi);
  }

  /** The bandwidth estimate lies in every interval that holds its initial value and all measurements. */
  lemma {:induction false} BandwidthInRange(alpha: real, samples: seq<Sample>, lo: real, hi: real)
    requires 0.0 <= alpha <= 1.0 && lo <= INITIAL.bandwidthBps <= hi
    requires forall s :: s in samples && s.Timed() ==> lo <= s.Throughput() <= hi
    ensures lo <= Run(alpha, samples).bandwidthBps <= hi
  {
    if samples != [] {
      hide Blend, Sample.Throughput;
      var init, s := samples[..|samples| - 1], samples[|samples| - 1];
      BandwidthInRange(alpha, init, lo, hi);
      assert s in samples;
      if s.Timed() { BlendWithin(alpha, s.Throughput(), Run(alpha, init).bandwidthBps, lo, hi); }
    }
  }

  /** Whether the last sample with a duration carried any bytes; true if there was none. */
  predicate LastCarried(samples: seq<Sample>) {
    samples == [] ||
    (if samples[|samples| - 1].Timed() then samples[|samples| - 1].nbytes > 0
     else LastCarried(samples[..|samples| - 1]))
  }

  lemma ThroughputSign(s: Sample)
    requires s.Timed()
    ensures s.Throughput() >= 0.0 && (s.Throughput() > 0.0 <==> s.nbytes > 0)
  {
    var b := s.nbytes as real * 8.0 * 1000.0;
    assert s.Throughput() * s.durationMs == b;
  }

  lemma BlendPositive(alpha: real, m: real, p: real)
    requires 0.0 <= alpha <= 1.0 && m >= 0.0 && p >= 0.0
    requires alpha < 1.0 ==> p > 0.0
    ensures Blend(alpha, m, p) >= 0.0
    ensures Blend(alpha, m, p) > 0.0 <==> alpha < 1.0 || m > 0.0
  {
    Product(alpha, 0.0, m);
    if alpha < 1.0 {
      PositiveProduct(1.0 - alpha, p);
    } else {
      assert Blend(1.0, m, p) == m;
    }
  }

  lemma PositiveProduct(a: real, b: real)
    requires a > 0.0 && b > 0.0
    ensures a * b > 0.0
  {
  }

  /** The estimate is never negative, and it is positive, so that the planner's division is defined, exactly when some
      weight stays on the past or the last timed transfer carried bytes. */
  lemma {:induction false} BandwidthPositive(alpha: real, samples: seq<Sample>)
    requires 0.0 <= alpha <= 1.0
    ensures Run(alpha, samples).bandwidthBps >= 0.0
    ensures Run(alpha, samples).bandwidthBps > 0.0 <==> alpha < 1.0 || LastCarried(samples)
  {
    if samples != [] {
      hide Blend, Sample.Throughput;
      var init, s := samples[..|samples| - 1], samples[|samples| - 1];
      BandwidthPositive(alpha, init);
      if s.Timed() {
        ThroughputSign(s);
        BlendPositive(alpha, s.Throughput(), Run(alpha, init).bandwidthBps);
      }
    }
  }

  // ---------- The estimate as a weighted average ----------

  function Power(x: real, n: nat): real { if n == 0 then 1.0 else x * Power(x, n - 1) }

  /** Exponentially decaying weights: the newest value counts alpha, each older one (1 - alpha) times less, and the
      initial value what is left. */
  function Average(alpha: real, initial: real, values: seq<real>): real {
    Power(1.0 - alpha, |values|) * initial + WeightedSum(alpha, 1.0 - alpha, values)
  }

  function WeightedSum(alpha: real, w: real, values: seq<real>): real {
    if values == [] then 0.0 else Term(alpha, Power(w, |values| - 1), values[0]) + WeightedSum(alpha, w, values[1..])
  }

  function Term(alpha: real, p: real, v: real): real { alpha * p * v }

  /** The rates measured, in bits per second: eight bits a byte, durations in milliseconds. */
  function Throughputs(samples: seq<Sample>): seq<real> {
    if samples == [] then []
    else
      var s := samples[|samples| - 1];
      Throughputs(samples[..|samples| - 1])
      + if s.durationMs > 0.0 then [s.nbytes as real * 8000.0 / s.durationMs] else []
  }

  function RoundTrips(samples: seq<Sample>): seq<real> {
    if samples == [] then []
    else
      var s := samples[|samples| - 1];
      RoundTrips(samples[..|samples| - 1])
      + if s.rttMs.Some? && s.rttMs.value > 0.0 then [s.rttMs.value] else []
  }

  lemma {:induction false} WeightedSumSnoc(alpha: real, w: real, values: seq<real>, x: real)
    ensures WeightedSum(alpha, w, values + [x]) == w * WeightedSum(alpha, w, values) + alpha * x
  {
    var all := values + [x];
    if values == [] {
      assert all[1..] == [];
      assert Power(w, 0) == 1.0;
    } else {
      hide Term;
      assert all[1..] == values[1..] + [x] && |all| - 1 == |values|;
      WeightedSumSnoc(alpha, w, values[1..], x);
      TermNext(alpha, w, Power(w, |values| - 1), values[0], WeightedSum(alpha, w, values[1..]));
    }
  }

  lemma TermNext(alpha: real, w: real, p: real, v: real, rest: real)
    ensures Term(alpha, w * p, v) + w * rest == w * (Term(alpha, p, v) + rest)
  {
  }

  lemma AverageSnoc(alpha: real, initial: real, values: seq<real>, x: real)
    ensures Average(alpha, initial, values + [x]) == Blend(alpha, x, Average(alpha, initial, values))
  {
    hide WeightedSum;
    WeightedSumSnoc(alpha, 1.0 - alpha, values, x);
    var w, p, sum := 1.0 - alpha, Power(1.0 - alpha, |values|), WeightedSum(alpha, 1.0 - alpha, values);
    assert w * p * initial + w * sum == w * (p * initial + sum);
  }

  /** The running estimates are the decaying averages of everything measured so far. */
  lemma {:induction false} RunIsAverage(alpha: real, samples: seq<Sample>)
    ensures Run(alpha, samples).bandwidthBps == Average(alpha, 1_000_000_000.0, Throughputs(samples))
    ensures Run(alpha, samples).rttMs == Average(alpha, 10.0, RoundTrips(samples))
  {
    if samples == [] {
      assert Power(1.0 - alpha, 0) == 1.0;
    } else {
      hide Blend, Average, Sample.Throughput;
      var init, s := samples[..|samples| - 1], samples[|samples| - 1];
      RunIsAverage(alpha, init);
      if s.Timed() {
        AverageSnoc(alpha, INITIAL.bandwidthBps, Throughputs(init), s.Throughput());
      } else {
        assert Throughputs(init) + [] == Throughputs(init);
      }
      if s.HasRtt() {
        AverageSnoc(alpha, INITIAL.rttMs, RoundTrips(init), s.rttMs.value);
      } else {
        assert RoundTrips(init) + [] == RoundTrips(init);
      }
    }
  }

  // ---------- Monotonicity ----------

  predicate Better(a: Estimate, b: Estimate) { a.bandwidthBps >= b.bandwidthBps && a.rttMs <= b.rttMs }

  /** The same parts are skipped, and the first sample is at least as fast in every part that is not. */
  predicate BetterSample(a: Sample, b: Sample) {
    && (a.Timed() <==> b.Timed()) && (a.Timed() ==> a.Throughput() >= b.Throughput())
    && (a.HasRtt() <==> b.HasRtt()) && (a.HasRtt() ==> a.rttMs.value <= b.rttMs.value)
  }

  predicate BetterHistory(a: seq<Sample>, b: seq<Sample>) {
    |a| == |b| && forall i :: 0 <= i < |a| ==> BetterSample(a[i], b[i])
  }

  lemma {:induction false} BetterRun(alpha: real, a: seq<Sample>, b: seq<Sample>)
    requires 0.0 <= alpha <= 1.0 && BetterHistory(a, b)
    ensures Better(Run(alpha, a), Run(alpha, b))
  {
    if a != [] {
      hide Blend, Sample.Throughput;
      var n := |a| - 1;
      BetterRun(alpha, a[..n], b[..n]);
      var x, y := Run(alpha, a[..n]), Run(alpha, b[..n]);
      assert BetterSample(a[n], b[n]);
      if a[n].Timed() { BlendMonotone(alpha, b[n].Throughput(), y.bandwidthBps, a[n].Throughput(), x.bandwidthBps); }
      if a[n].HasRtt() { BlendMonotone(alpha, a[n].rttMs.value, x.rttMs, b[n].rttMs.value, y.rttMs); }
    }
  }

  lemma DivideLess(x: real, a: real, b: real)
    requires x >= 0.0 && a >= b > 0.0
    ensures x / a <= x / b
  {
    var p, q := x / a, x / b;
    assert p * a == x && q * b == x;
    assert q >= 0.0;
    Product(q, b, a);
    if p > q { assert p * a > q * a; }
  }

  lemma FasterTransfer(a: Estimate, b: Estimate, nbytes: nat)
    requires Better(a, b) && b.bandwidthBps > 0.0
    ensures TransferMs(a, nbytes) <= TransferMs(b, nbytes)
  {
    DivideLess(nbytes as real * 8.0 * 1000.0, a.bandwidthBps, b.bandwidthBps);
  }

  lemma BetterPlan(a: Estimate, b: Estimate, m: PrefixManifest, s: Settings, refine: bool)
    requires Better(a, b) && b.bandwidthBps > 0.0
    ensures Plan(a, m, s, refine).Ok? && Plan(b, m, s, refine).Ok?
    ensures Rank(Plan(a, m, s, refine).value.mode) >= Rank(Plan(b, m, s, refine).value.mode)
  {
    hide TransferMs;
    FasterTransfer(a, b, m.criticalNbytes);
    FasterTransfer(a, b, m.criticalNbytes / 2);
  }

  /** Over two whole histories with the same skips, the one that is at least as fast at every step never leads to a
      worse plan for the same manifest and settings, and planning is always defined, if the slower history keeps the
      bandwidth estimate positive: some weight stays on the past or its last timed transfer carried bytes. */
  lemma FasterHistoryPlans(alpha: real, a: seq<Sample>, b: seq<Sample>, m: PrefixManifest, s: Settings, refine: bool)
    requires 0.0 <= alpha <= 1.0 && BetterHistory(a, b) && (alpha < 1.0 || LastCarried(b))
    ensures Plan(Run(alpha, a), m, s, refine).Ok? && Plan(Run(alpha, b), m, s, refine).Ok?
    ensures Rank(Plan(Run(alpha, a), m, s, refine).value.mode) >= Rank(Plan(Run(alpha, b), m, s, refine).value.mode)
  {
    hide Plan, Run;
    BetterRun(alpha, a, b);
    BandwidthPositive(alpha, b);
    BetterPlan(Run(alpha, a), Run(alpha, b), m, s, refine);
  }

  /** An accepted plan moves its estimated bytes within the budget and carries over the manifest's tokens and blocks;
      for a long enough prefix, recomputation is chosen exactly when even half the critical bytes would be late. */
  lemma PlanMeetsDeadline(e: Estimate, m: PrefixManifest, s: Settings, refine: bool)
    requires e.bandwidthBps > 0.0
    ensures var p := Plan(e, m, s, refine).value;
            && Plan(e, m, s, refine).Ok?
            && (p.mode != Recompute ==>
                  && TransferMs(e, p.estimatedCriticalBytes) < s.BudgetMs()
                  && p.matchedTokens == m.matchedTokens >= s.minPrefixTokens && p.matchedBlocks == m.matchedBlocks)
            && (m.matchedTokens >= s.minPrefixTokens ==>
                  (p.mode == Recompute <==> TransferMs(e, m.criticalNbytes / 2) >= s.BudgetMs()))
  {
    HalfIsFaster(e, m.criticalNbytes);
    hide TransferMs;
  }

  lemma TruncateNear(x: real)
    ensures x >= 0.0 ==> Truncate(x) as real <= x < Truncate(x) as real + 1.0
    ensures x <= 0.0 ==> Truncate(x) as real - 1.0 < x <= Truncate(x) as real
  {
  }

  lemma ScaledTime(e: Estimate, n: nat, limit: real)
    requires e.bandwidthBps > 0.0
    ensures TransferMs(e, n) < limit <==> e.rttMs * e.bandwidthBps + n as real * 8000.0 < limit * e.bandwidthBps
  {
    var b, wire := e.bandwidthBps, (n as real * 8.0 * 1000.0) / e.bandwidthBps;
    assert wire * b == n as real * 8000.0;
    SumTimes(e.rttMs, wire, b);
    Scaled(e.rttMs + wire, limit, b);
  }

  lemma SumTimes(x: real, y: real, b: real)
    ensures (x + y) * b == x * b + y * b
  {
  }

  lemma Scaled(x: real, y: real, b: real)
    requires b > 0.0
    ensures x < y <==> x * b < y * b
  {
    if x < y {
      PositiveProduct(y - x, b);
      SumTimes(y, -x, b);
    } else {
      Product(b, y, x);
    }
  }

  /** The mode of a plan, in bits and milliseconds: a long enough prefix is fetched whole exactly when the round trip
      and its bytes take less than the budget, at half its size exactly when only that does, and recomputed otherwise.
      */
  lemma PlanByTheNumbers(e: Estimate, m: PrefixManifest, s: Settings, refine: bool)
    requires e.bandwidthBps > 0.0
    ensures Plan(e, m, s, refine).Ok?
    ensures var p := Plan(e, m, s, refine).value;
            var limit := s.ttftSloMs as real * s.alpha * e.bandwidthBps;
            var start, long := e.rttMs * e.bandwidthBps, m.matchedTokens >= s.minPrefixTokens;
            && (p.mode == FullFp16 <==> long && start + m.criticalNbytes as real * 8000.0 < limit)
            && (p.mode == Recompute <==> !long || start + (m.criticalNbytes / 2) as real * 8000.0 >= limit)
            && p.estimatedCriticalBytes == (if p.mode == FullFp16 then m.criticalNbytes
                                            else if p.mode == Recompute then 0 else m.criticalNbytes / 2)
            && p.matchedTokens == (if p.mode == Recompute then 0 else m.matchedTokens)
            && p.matchedBlocks == (if p.mode == Recompute then [] else m.matchedBlocks)
            && p.reasonCode == (if !long then "prefix_too_short"
                                else match p.mode
                                  case FullFp16 => "full_fp16_within_budget"
                                  case CriticalInt8Only => "int8_only_no_refinement"
                                  case CriticalInt8ThenFp16 => "fallback_to_int8_for_ttft"
                                  case Recompute => "deadline_miss_even_with_int8")
  {
    ScaledTime(e, m.criticalNbytes, s.BudgetMs());
    ScaledTime(e, m.criticalNbytes / 2, s.BudgetMs());
    HalfIsFaster(e, m.criticalNbytes);
    hide TransferMs;
  }

  /** An accepted plan's deadline is the budget in whole milliseconds, towards zero; refinement follows exactly when
      it is enabled and there is something to refine with, and then it has three tenths of the target, but at least
      100 ms. */
  lemma PlanBudgets(e: Estimate, m: PrefixManifest, s: Settings, refine: bool)
    requires e.bandwidthBps > 0.0 && Plan(e, m, s, refine).value.mode != Recompute
    ensures var p, budget := Plan(e, m, s, refine).value, s.ttftSloMs as real * s.alpha;
            && (budget >= 0.0 ==> p.criticalDeadlineMs as real <= budget < p.criticalDeadlineMs as real + 1.0)
            && (budget < 0.0 ==> p.criticalDeadlineMs as real - 1.0 < budget <= p.criticalDeadlineMs as real)
            && (p.mode == CriticalInt8ThenFp16 <==>
                  p.mode != FullFp16 && refine && m.refinementNbytes.Some? && m.refinementNbytes.value > 0)
            && (p.allowRefineDrop <==> p.mode != FullFp16)
    ensures var p, third := Plan(e, m, s, refine).value, s.ttftSloMs as real * 0.3;
            if p.mode == CriticalInt8ThenFp16 then
              && p.estimatedRefineBytes == m.refinementNbytes.value && p.refineBudgetMs >= 100
              && (third < 101.0 ==> p.refineBudgetMs == 100)
              && (third >= 100.0 ==> p.refineBudgetMs as real <= third < p.refineBudgetMs as real + 1.0)
            else p.refineBudgetMs == 0 && p.estimatedRefineBytes == 0
  {
    TruncateNear(s.BudgetMs());
    TruncateNear(s.ttftSloMs as real * 0.3);
    hide TransferMs, Truncate;
  }

  lemma HalfIsFaster(e: Estimate, nbytes: nat)
    requires e.bandwidthBps > 0.0
    ensures TransferMs(e, nbytes / 2) <= TransferMs(e, nbytes)
  {
    var x, y, b := (nbytes / 2) as real * 8.0 * 1000.0, nbytes as real * 8.0 * 1000.0, e.bandwidthBps;
    var p, q := x / b, y / b;
    assert p * b == x && q * b == y && x <= y;
    if p > q { assert (p - q) * b > 0.0; }
  }
}

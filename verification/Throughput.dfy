/** The smoothed rate of a route and the span over which it moved messages, over whole runs of samples. */
module Throughput {
  import opened Options

  /** Time constant of the moving average, in seconds. */
  const TAU: real := 0.5

  datatype Sample = Sample(total: real, observedAt: real, rate: real, lastChangeAt: real)

  datatype Observation = Observation(total: real, at: real)

  datatype Timing = Timing(messages: int, elapsed: real, average: real)

  /** A decay `x => exp(-x)`: positive, at most one, and multiplicative. */
  ghost predicate IsDecay(decay: real -> real) {
    && (forall x: real :: x >= 0.0 ==> 0.0 < decay(x) <= 1.0)
    && (forall x: real, y: real :: x >= 0.0 && y >= 0.0 ==> decay(x + y) == decay(x) * decay(y))
  }

  function Max(x: real, y: real): real {
    if x >= y then x else y
  }

  /** `later.duration_since(earlier)`, never negative. */
  function Since(later: real, earlier: real): real {
    Max(later - earlier, 0.0)
  }

  function NextSample(previous: Option<Sample>, total: real, at: real, decay: real -> real): Sample {
    var lastChangeAt := if previous.Some? && total <= previous.value.total then previous.value.lastChangeAt else at;
    var rate :=
      if previous.None? then 0.0
      else
        var elapsed := Since(at, previous.value.observedAt);
        if elapsed > 0.0 then
          var current := Max(total - previous.value.total, 0.0) / elapsed;
          var alpha := 1.0 - decay(elapsed / TAU);
          alpha * current + (1.0 - alpha) * previous.value.rate
        else previous.value.rate;
    Sample(total, at, rate, lastChangeAt)
  }

  function TimingOf(sample: Sample, startedAt: real): Timing {
    var messages := Max(sample.total, 0.0);
    var elapsed := Since(sample.lastChangeAt, startedAt);
    Timing(messages.Floor, elapsed, if elapsed > 0.0 then messages / elapsed else 0.0)
  }

  /** The span ends at the last growth and never before the start; the average over it accounts for every message. */
  lemma TimingLaw(s: Sample, startedAt: real)
    ensures var t := TimingOf(s, startedAt); var counted := if s.total >= 0.0 then s.total else 0.0;
            && (s.lastChangeAt >= startedAt ==> startedAt + t.elapsed == s.lastChangeAt)
            && (s.lastChangeAt <= startedAt ==> t.elapsed == 0.0 && t.average == 0.0)
            && (t.elapsed > 0.0 ==> t.average * t.elapsed == counted)
            && t.messages as real <= counted < t.messages as real + 1.0
  {
    var t, messages := TimingOf(s, startedAt), Max(s.total, 0.0);
    if t.elapsed > 0.0 {
      QuotientTimes(messages, t.elapsed);
    }
  }

  lemma QuotientTimes(x: real, y: real)
    requires y > 0.0
    ensures (x / y) * y == x
  {
  }

  /** The first sample has no rate. Later ones keep theirs until time passes, and say when the count last grew. */
  lemma SampleLaw(previous: Option<Sample>, to: Observation, decay: real -> real)
    ensures var next := NextSample(previous, to.total, to.at, decay);
            && next.total == to.total && next.observedAt == to.at
            && (previous.None? ==> next.rate == 0.0 && next.lastChangeAt == to.at)
            && (previous.Some? ==>
                  && (to.at <= previous.value.observedAt ==> next.rate == previous.value.rate)
                  && next.lastChangeAt == if to.total > previous.value.total then to.at else previous.value.lastChangeAt)
  {
  }

  /** When time has passed, the rate has moved towards the `rate` of the messages since, which a fallen count makes zero. */
  lemma RateLaw(s: Sample, to: Observation, rate: real, decay: real -> real)
    requires to.at > s.observedAt
    requires rate * (to.at - s.observedAt) == if to.total >= s.total then to.total - s.total else 0.0
    ensures NextSample(Some(s), to.total, to.at, decay).rate - rate ==
            (s.rate - rate) * decay((to.at - s.observedAt) / 0.5)
  {
    var elapsed := to.at - s.observedAt;
    var d := decay(elapsed / TAU);
    TimesQuotient(rate, elapsed);
    assert Max(to.total - s.total, 0.0) / elapsed == rate;
    assert (1.0 - d) * rate + d * s.rate - rate == (s.rate - rate) * d;
  }

  lemma TimesQuotient(x: real, y: real)
    requires y > 0.0
    ensures (x * y) / y == x
  {
  }

  /** The sample after a run of observations. */
  function Sampled(previous: Option<Sample>, run: seq<Observation>, decay: real -> real): Option<Sample> {
    if run == [] then previous
    else
      var n := |run| - 1;
      Some(NextSample(Sampled(previous, run[..n], decay), run[n].total, run[n].at, decay))
  }

  // ------------------------------------------------------------------ the rate stays in range

  /** The rate between two observations, as the sampler computes it; zero if no time passed. */
  function InstantRate(from: Observation, to: Observation): (r: real)
    ensures r >= 0.0
  {
    var elapsed := Since(to.at, from.at);
    if elapsed > 0.0 then
      Quotient(Max(to.total - from.total, 0.0), elapsed);
      Max(to.total - from.total, 0.0) / elapsed
    else 0.0
  }

  lemma Quotient(x: real, y: real)
    requires x >= 0.0 && y > 0.0
    ensures x / y >= 0.0
  {
  }

  /** The largest of the rates between neighbours. */
  function PeakRate(run: seq<Observation>): (r: real)
    ensures r >= 0.0
  {
    if |run| < 2 then 0.0
    else Max(PeakRate(run[..|run| - 1]), InstantRate(run[|run| - 2], run[|run| - 1]))
  }

  lemma Between(alpha: real, x: real, y: real, high: real)
    requires 0.0 <= alpha <= 1.0 && 0.0 <= x <= high && 0.0 <= y <= high
    ensures 0.0 <= alpha * x + (1.0 - alpha) * y <= high
  {
    assert alpha * x <= alpha * high && (1.0 - alpha) * y <= (1.0 - alpha) * high by {
      Product(alpha, high - x);
      Product(1.0 - alpha, high - y);
    }
    Product(alpha, x);
    Product(1.0 - alpha, y);
  }

  lemma Product(x: real, y: real)
    requires x >= 0.0 && y >= 0.0
    ensures x * y >= 0.0
  {
  }

  lemma SampledFacts(previous: Option<Sample>, run: seq<Observation>, decay: real -> real)
    requires run != []
    ensures var s := Sampled(previous, run, decay);
            s.Some? && s.value.total == run[|run| - 1].total && s.value.observedAt == run[|run| - 1].at
  {
  }

  lemma RateStep(s: Sample, to: Observation, decay: real -> real, high: real)
    requires IsDecay(decay) && 0.0 <= s.rate <= high && InstantRate(Observation(s.total, s.observedAt), to) <= high
    ensures 0.0 <= NextSample(Some(s), to.total, to.at, decay).rate <= high
  {
    var elapsed := Since(to.at, s.observedAt);
    if elapsed > 0.0 {
      Quotient(elapsed, TAU);
      assert 0.0 < decay(elapsed / TAU) <= 1.0;
      Between(1.0 - decay(elapsed / TAU), InstantRate(Observation(s.total, s.observedAt), to), s.rate, high);
    }
  }

  /** Over any run of samples the smoothed rate lies between zero and the largest rate observed. */
  lemma {:induction false} RateIsInRange(run: seq<Observation>, decay: real -> real)
    requires IsDecay(decay) && run != []
    ensures var s := Sampled(None, run, decay); s.Some? && 0.0 <= s.value.rate <= PeakRate(run)
  {
    hide IsDecay, InstantRate;
    var n := |run| - 1;
    if n == 0 {
      assert Sampled(None, run[..0], decay) == None;
    } else {
      hide NextSample;
      var front := run[..n];
      RateIsInRange(front, decay);
      SampledFacts(None, front, decay);
      assert front[|front| - 1] == run[n - 1];
      RateStep(Sampled(None, front, decay).value, run[n], decay, PeakRate(run));
    }
  }

  // ------------------------------------------------------------------ a constant rate

  /** From `s` on, messages arrive at `rate`, and time does not run backwards. */
  predicate IsConstantFrom(s: Sample, run: seq<Observation>, rate: real) {
    && (forall i :: 0 <= i < |run| ==> run[i].at >= s.observedAt)
    && (forall i, j :: 0 <= i < j < |run| ==> run[i].at <= run[j].at)
    && (forall i :: 0 <= i < |run| ==> run[i].total == s.total + rate * (run[i].at - s.observedAt))
  }

  lemma DecayAtZero(decay: real -> real)
    requires IsDecay(decay)
    ensures decay(0.0) == 1.0
  {
    assert decay(0.0 + 0.0) == decay(0.0) * decay(0.0);
    assert decay(0.0) > 0.0;
  }

  lemma DecaySplits(decay: real -> real, x: real, y: real)
    requires IsDecay(decay) && x >= 0.0 && y >= 0.0
    ensures decay((x + y) / TAU) == decay(x / TAU) * decay(y / TAU)
  {
    assert (x + y) / TAU == x / TAU + y / TAU;
  }

  /** The smoothed rate at `at`, if `rate` has prevailed since `s`. */
  function Towards(s: Sample, rate: real, at: real, decay: real -> real): real {
    rate + (s.rate - rate) * decay((at - s.observedAt) / TAU)
  }

  /** One step at a constant rate moves the smoothed rate towards it by the decay of the time passed. */
  lemma ConstantStep(s: Sample, to: Observation, rate: real, decay: real -> real)
    requires IsDecay(decay) && rate >= 0.0 && to.at >= s.observedAt
    requires to.total == s.total + rate * (to.at - s.observedAt)
    ensures NextSample(Some(s), to.total, to.at, decay).rate == Towards(s, rate, to.at, decay)
  {
    var elapsed := to.at - s.observedAt;
    Product(rate, elapsed);
    if elapsed > 0.0 {
      assert (rate * elapsed) / elapsed == rate;
      assert Max(to.total - s.total, 0.0) / elapsed == rate;
      var d := decay(elapsed / TAU);
      assert (1.0 - d) * rate + d * s.rate == rate + (s.rate - rate) * d;
    } else {
      DecayAtZero(decay);
    }
  }

  lemma TowardsInTwoSteps(s: Sample, t: Sample, rate: real, at: real, decay: real -> real)
    requires IsDecay(decay) && s.observedAt <= t.observedAt <= at && t.rate == Towards(s, rate, t.observedAt, decay)
    ensures Towards(t, rate, at, decay) == Towards(s, rate, at, decay)
  {
    hide IsDecay;
    var x, y := t.observedAt - s.observedAt, at - t.observedAt;
    assert x + y == at - s.observedAt;
    DecaySplits(decay, x, y);
    Regroup(rate, s.rate, t.rate, decay(x / TAU), decay(y / TAU));
  }

  lemma Regroup(r: real, s: real, t: real, d: real, e: real)
    requires t == r + (s - r) * d
    ensures r + (t - r) * e == r + (s - r) * (d * e)
  {
    assert t - r == (s - r) * d;
    assert ((s - r) * d) * e == (s - r) * (d * e);
  }

  lemma TotalFromSample(s: Sample, t: Sample, rate: real, to: Observation)
    requires t.total == s.total + rate * (t.observedAt - s.observedAt)
    requires to.total == s.total + rate * (to.at - s.observedAt)
    ensures to.total == t.total + rate * (to.at - t.observedAt)
  {
  }

  /**
   During a stretch at a constant rate the smoothed rate depends only on where the stretch began and
   how long it has lasted, however it was cut into samples.
   */
  lemma {:induction false} ConstantRateForgetsTheCuts(s: Sample, run: seq<Observation>, rate: real, decay: real -> real)
    requires IsDecay(decay) && rate >= 0.0 && run != [] && IsConstantFrom(s, run, rate)
    ensures var end := Sampled(Some(s), run, decay);
            end.Some? && end.value.rate == Towards(s, rate, run[|run| - 1].at, decay)
  {
    hide NextSample, IsDecay, Towards, IsConstantFrom;
    var n := |run| - 1;
    ConstantFront(s, run, rate);
    if n == 0 {
      assert Sampled(Some(s), run[..0], decay) == Some(s);
      ConstantRateStep(s, s, run[0], rate, decay);
    } else {
      var front := run[..n];
      ConstantRateForgetsTheCuts(s, front, rate, decay);
      SampledFacts(Some(s), front, decay);
      ConstantRateStep(s, Sampled(Some(s), front, decay).value, run[n], rate, decay);
    }
  }

  lemma ConstantFront(s: Sample, run: seq<Observation>, rate: real)
    requires run != [] && IsConstantFrom(s, run, rate)
    ensures var n := |run| - 1;
            && IsConstantFrom(s, run[..n], rate)
            && run[n].at >= s.observedAt && run[n].total == s.total + rate * (run[n].at - s.observedAt)
            && (n > 0 ==> run[..n][n - 1] == run[n - 1] && s.observedAt <= run[n - 1].at <= run[n].at
                          && run[n - 1].total == s.total + rate * (run[n - 1].at - s.observedAt))
  {
  }

  lemma ConstantRateStep(s: Sample, t: Sample, to: Observation, rate: real, decay: real -> real)
    requires IsDecay(decay) && rate >= 0.0 && s.observedAt <= t.observedAt <= to.at
    requires t == s || t.rate == Towards(s, rate, t.observedAt, decay)
    requires t.total == s.total + rate * (t.observedAt - s.observedAt)
    requires to.total == s.total + rate * (to.at - s.observedAt)
    ensures NextSample(Some(t), to.total, to.at, decay).rate == Towards(s, rate, to.at, decay)
  {
    hide NextSample, IsDecay, Towards;
    TotalFromSample(s, t, rate, to);
    ConstantStep(t, to, rate, decay);
    if t != s {
      TowardsInTwoSteps(s, t, rate, to.at, decay);
    }
  }

  lemma CutsDoNotMatter(s: Sample, run: seq<Observation>, other: seq<Observation>, rate: real, decay: real -> real)
    requires IsDecay(decay) && rate >= 0.0 && run != [] && other != []
    requires IsConstantFrom(s, run, rate) && IsConstantFrom(s, other, rate)
    requires run[|run| - 1].at == other[|other| - 1].at
    ensures Sampled(Some(s), run, decay).value.rate == Sampled(Some(s), other, decay).value.rate
  {
    hide NextSample, IsDecay, Towards, IsConstantFrom;
    ConstantRateForgetsTheCuts(s, run, rate, decay);
    ConstantRateForgetsTheCuts(s, other, rate, decay);
  }

  // ------------------------------------------------------------------ when the count stops growing

  predicate IsCounting(run: seq<Observation>) {
    forall i, j :: 0 <= i < j < |run| ==> run[i].total <= run[j].total
  }

  /** The span ends with the observation at which the count reached its present value. */
  lemma {:induction false} SpanEndsWithTheLastGrowth(run: seq<Observation>, decay: real -> real) returns (k: nat)
    requires run != [] && IsCounting(run)
    ensures k < |run| && Sampled(None, run, decay).Some?
    ensures Sampled(None, run, decay).value.lastChangeAt == run[k].at
    ensures forall j :: k <= j < |run| ==> run[j].total == run[|run| - 1].total
    ensures k > 0 ==> run[k - 1].total < run[k].total
  {
    var n := |run| - 1;
    if n == 0 {
      assert Sampled(None, run[..0], decay) == None;
      k := 0;
    } else {
      var front := run[..n];
      assert front[n - 1] == run[n - 1];
      SampledFacts(None, front, decay);
      if run[n].total <= run[n - 1].total {
        assert run[n - 1].total <= run[n].total;
        k := SpanEndsWithTheLastGrowth(front, decay);
        assert forall j :: 0 <= j < n ==> front[j] == run[j];
      } else {
        k := n;
      }
    }
  }

  /** Over a run of a growing count the average times the span, up to the last growth, is the count it ends with. */
  lemma AverageOfARun(run: seq<Observation>, startedAt: real, decay: real -> real) returns (k: nat)
    requires run != [] && IsCounting(run) && run[|run| - 1].total >= 0.0
    ensures k < |run| && (k > 0 ==> run[k - 1].total < run[|run| - 1].total) && run[k].total == run[|run| - 1].total
    ensures Sampled(None, run, decay).Some?
    ensures var t := TimingOf(Sampled(None, run, decay).value, startedAt);
            run[k].at > startedAt ==> t.elapsed == run[k].at - startedAt && t.average * t.elapsed == run[|run| - 1].total
  {
    hide TimingOf;
    k := SpanEndsWithTheLastGrowth(run, decay);
    SampledFacts(None, run, decay);
    TimingLaw(Sampled(None, run, decay).value, startedAt);
  }

  /** After the count has stopped, every later sample reports the same total, span and average. */
  lemma {:induction false} IdleTimingIsFixed(s: Sample, idle: seq<Observation>, startedAt: real, decay: real -> real)
    requires forall i :: 0 <= i < |idle| ==> idle[i].total == s.total
    ensures var end := Sampled(Some(s), idle, decay);
            && end.Some? && end.value.total == s.total && end.value.lastChangeAt == s.lastChangeAt
            && TimingOf(end.value, startedAt) == TimingOf(s, startedAt)
  {
    if idle != [] {
      IdleTimingIsFixed(s, idle[..|idle| - 1], startedAt, decay);
    }
  }

  /** Meanwhile the smoothed rate decays by the time passed. */
  lemma IdleRateDecays(s: Sample, idle: seq<Observation>, decay: real -> real)
    requires IsDecay(decay) && idle != [] && IsConstantFrom(s, idle, 0.0)
    ensures var end := Sampled(Some(s), idle, decay);
            end.Some? && end.value.rate == s.rate * decay((idle[|idle| - 1].at - s.observedAt) / TAU)
  {
    hide NextSample, IsDecay, IsConstantFrom, Sampled;
    ConstantRateForgetsTheCuts(s, idle, 0.0, decay);
  }
}

/** Rounds, buckets, Brier scores and the pinned block of an observation (labeling/onchain.py),
    over exact reals. */
module Onchain {
  import opened Common
  import Arithmetic

  /* ---- round windows ---- */

  datatype RoundConfig = RoundConfig(round: int, horizon: int, finality: int)

  datatype Window = Window(start: int, end: int, due: int)

  /** Times in microseconds, configured periods in seconds. */
  function RoundWindow(predictionAt: int, cfg: RoundConfig): Result<Window> {
    if cfg.round <= 0 || cfg.horizon <= 0 || cfg.finality < 0 then Err("Round configuration is invalid")
    else
      var start := ((predictionAt / SECOND) / cfg.round + 1) * cfg.round * SECOND;
      Ok(Window(start, start + cfg.horizon * SECOND, start + (cfg.horizon + cfg.finality) * SECOND))
  }

  /** The window starts at the first aligned instant strictly after the prediction. */
  lemma RoundWindowIsFirstAfter(predictionAt: int, cfg: RoundConfig, other: int)
    requires RoundWindow(predictionAt, cfg).Ok?
    ensures var w := RoundWindow(predictionAt, cfg).value;
            && w.start > predictionAt && w.start % (cfg.round * SECOND) == 0
            && (other > predictionAt && other % (cfg.round * SECOND) == 0 ==> w.start <= other)
            && w.end == w.start + cfg.horizon * SECOND && w.due == w.end + cfg.finality * SECOND
  {
    var period := cfg.round * SECOND;
    var q := (predictionAt / SECOND) / cfg.round;
    assert (q + 1) * cfg.round * SECOND == (q + 1) * period;
    Arithmetic.DivisionIsUnique((q + 1) * period, period, q + 1, 0);
    assert q * cfg.round <= predictionAt / SECOND <= q * cfg.round + cfg.round - 1;
    assert q * period <= predictionAt < q * period + period;
    if other > predictionAt && other % period == 0 {
      var k := other / period;
      assert other == k * period;
      if k <= q {
        Arithmetic.TimesGrows(k, q, period);
      } else {
        Arithmetic.TimesGrows(q + 1, k, period);
      }
    }
  }

  /* ---- buckets ---- */

  datatype Label = Below(bound: int) | Between(low: int, high: int) | Above(bound: int)

  predicate ValidBounds(bounds: seq<int>) {
    bounds != [] && bounds[0] > 0 && forall i, j :: 0 <= i < j < |bounds| ==> bounds[i] < bounds[j]
  }

  function LabelAt(bounds: seq<int>, i: nat): Label
    requires i <= |bounds| && bounds != []
  {
    if i == 0 then Below(bounds[0]) else if i < |bounds|
        then Between(bounds[i - 1], bounds[i]) else Above(bounds[|bounds| - 1])
  }

  function BucketLabels(bounds: seq<int>): Result<seq<Label>> {
    if !ValidBounds(bounds) then Err("Bucket bounds must be strictly increasing positive integers")
    else Ok(seq(|bounds| + 1, i requires 0 <= i <= |bounds| => LabelAt(bounds, i)))
  }

  /** The values a label stands for. */
  predicate Covers(bucket: Label, value: real) {
    match bucket
    case Below(b) => value < b as real
    case Between(low, high) => low as real <= value < high as real
    case Above(b) => b as real <= value
  }

  method BucketFor(value: real, bounds: seq<int>) returns (bucket: Result<Label>)
    ensures bucket.Ok? <==> ValidBounds(bounds)
    ensures bucket.Ok? ==> Covers(bucket.value, value) && bucket.value in BucketLabels(bounds).value
    ensures bucket.Ok? ==>
              match bucket.value
              case Below(b) => b == bounds[0] && value < b as real
              case Above(b) => b == bounds[|bounds| - 1] && b as real <= value
              case Between(low, high) =>
                low as real <= value < high as real
                && exists i :: 0 <= i < |bounds| - 1 && bounds[i] == low && bounds[i + 1] == high
  {
    var labels := BucketLabels(bounds);
    if labels.Err? {
      return Err(labels.error);
    }
    for i := 0 to |bounds|
      invariant forall j :: 0 <= j < i ==> bounds[j] as real <= value
    {
      if value < bounds[i] as real {
        return Ok(labels.value[i]);
      }
    }
    bucket := Ok(labels.value[|bounds|]);
  }

  /** The labels cover all values, and no value has two. */
  lemma BucketsPartition(bounds: seq<int>, value: real, i: nat, j: nat)
    requires ValidBounds(bounds) && i < j <= |bounds|
    ensures var labels := BucketLabels(bounds).value;
            labels[i] != labels[j] && !(Covers(labels[i], value) && Covers(labels[j], value))
  {
    assert j < |bounds| ==> bounds[j - 1] >= bounds[i];
    assert bounds[|bounds| - 1] >= bounds[i];
    assert i > 0 ==> bounds[i - 1] < bounds[i];
  }

  /* ---- Brier scores ---- */

  function Square(x: real): real {
    x * x
  }

  function Hit(i: nat, outcome: nat): real {
    if i == outcome then 1.0 else 0.0
  }

  /** The sum over the first n buckets. */
  function BrierTo(p: seq<real>, outcome: nat, n: nat): real
    requires n <= |p|
    decreases n
  {
    if n == 0 then 0.0 else BrierTo(p, outcome, n - 1) + Square(p[n - 1] - Hit(n - 1, outcome))
  }

  function Brier(p: seq<real>, outcome: nat): real {
    BrierTo(p, outcome, |p|)
  }

  datatype Status = Correct | Incorrect | Neutral

  predicate IsTop(p: seq<real>, i: nat) {
    i < |p| && forall j :: 0 <= j < |p| ==> p[j] <= p[i]
  }

  /** The score, and whether the unique most likely bucket came out. */
  method BrierResult(p: seq<real>, outcome: nat) returns (score: real, status: Status)
    requires p != []
    ensures score == Brier(p, outcome)
    ensures status == Neutral <==> exists i: nat, j: nat :: i < j && IsTop(p, i) && IsTop(p, j)
    ensures status == Correct ==> IsTop(p, outcome)
    ensures status == Incorrect ==> !IsTop(p, outcome)
  {
    score := 0.0;
    var top := p[0];
    for i := 0 to |p|
      invariant score == BrierTo(p, outcome, i)
      invariant (exists j :: 0 <= j < |p| && p[j] == top) && forall j :: 0 <= j < i ==> p[j] <= top
    {
      score := score + Square(p[i] - Hit(i, outcome));
      if p[i] > top {
        top := p[i];
      }
    }
    var leaders: seq<nat> := [];
    for i := 0 to |p|
      invariant forall k :: 0 <= k < |leaders| ==> leaders[k] < i && p[leaders[k]] == top
      invariant forall k, l :: 0 <= k < l < |leaders| ==> leaders[k] < leaders[l]
      invariant forall j :: 0 <= j < i && p[j] == top ==> j in leaders
    {
      if p[i] == top {
        leaders := leaders + [i];
      }
    }
    var some: nat :| some < |p| && p[some] == top;
    assert some in leaders;
    if |leaders| > 1 {
      assert IsTop(p, leaders[0]) && IsTop(p, leaders[1]);
      status := Neutral;
    } else {
      assert forall i: nat :: IsTop(p, i) ==> p[i] >= p[some] && i in leaders;
      status := if leaders[0] == outcome then Correct else Incorrect;
    }
  }

  /** Sums over the first n entries. */
  function Sum(xs: seq<real>, n: nat): real
    requires n <= |xs|
    decreases n
  {
    if n == 0 then 0.0 else Sum(xs, n - 1) + xs[n - 1]
  }

  lemma {:induction false} SumPrefix(xs: seq<real>, x: real, n: nat)
    requires n <= |xs|
    ensures Sum(xs + [x], n) == Sum(xs, n)
    decreases n
  {
    if n > 0 {
      SumPrefix(xs, x, n - 1);
    }
  }

  function Dot(p: seq<real>, q: seq<real>, n: nat): real
    requires n <= |p| && n <= |q|
    decreases n
  {
    if n == 0 then 0.0 else Dot(p, q, n - 1) + p[n - 1] * q[n - 1]
  }

  function Uniform(k: nat): (p: seq<real>)
    ensures |p| == k && forall i :: 0 <= i < k ==> p[i] == 1.0 / k as real
  {
    if k == 0 then [] else seq(k, i => 1.0 / k as real)
  }

  /** What imputation charges for a missed round. */
  function Baseline(classes: nat): real {
    if classes == 0 then 0.0 else 1.0 - 1.0 / classes as real
  }

  lemma {:induction false} BrierExpands(p: seq<real>, outcome: nat, n: nat)
    requires n <= |p|
    ensures BrierTo(p, outcome, n) == Dot(p, p, n) + if outcome < n then 1.0 - 2.0 * p[outcome] else 0.0
    decreases n
  {
    if n > 0 {
      BrierExpands(p, outcome, n - 1);
    }
  }

  lemma {:induction false} UniformDot(k: nat, n: nat)
    requires 0 < k && n <= k
    ensures Dot(Uniform(k), Uniform(k), n) == n as real * Square(1.0 / k as real)
    decreases n
  {
    if n > 0 {
      UniformDot(k, n - 1);
    }
  }

  lemma UniformDotAll(k: nat)
    requires k > 0
    ensures Dot(Uniform(k), Uniform(k), k) == 1.0 / k as real
  {
    UniformDot(k, k);
    var x := 1.0 / k as real;
    assert k as real * x == 1.0;
    assert k as real * Square(x) == (k as real * x) * x;
  }

  /** The uniform forecast scores the imputed baseline, whatever the outcome. */
  lemma UniformScoresBaseline(k: nat, outcome: nat)
    requires outcome < k
    ensures Brier(Uniform(k), outcome) == Baseline(k)
  {
    BrierExpands(Uniform(k), outcome, k);
    UniformDotAll(k);
  }

  /** The score a forecast p may expect when the outcomes have the probabilities q. */
  function Expected(p: seq<real>, q: seq<real>, n: nat): real
    requires |p| == |q| && n <= |q|
    decreases n
  {
    if n == 0 then 0.0 else Expected(p, q, n - 1) + q[n - 1] * Brier(p, n - 1)
  }

  lemma OneMoreOutcome(e: real, s: real, d: real, pq: real, x: real, y: real)
    requires e == s * (d + 1.0) - 2.0 * pq
    ensures e + x * (d + (1.0 - 2.0 * y)) == (s + x) * (d + 1.0) - 2.0 * (pq + y * x)
  {
  }

  lemma ExpectedStep(p: seq<real>, q: seq<real>, n: nat)
    requires |p| == |q| && 0 < n <= |q|
    ensures Expected(p, q, n) == Expected(p, q, n - 1) + q[n - 1] * (Dot(p, p, |p|) + (1.0 - 2.0 * p[n - 1]))
  {
    BrierExpands(p, n - 1, |p|);
    assert Brier(p, n - 1) == Dot(p, p, |p|) + (1.0 - 2.0 * p[n - 1]);
  }

  lemma {:induction false} ExpectedExpands(p: seq<real>, q: seq<real>, n: nat)
    requires |p| == |q| && n <= |q|
    ensures Expected(p, q, n) == Sum(q, n) * (Dot(p, p, |p|) + 1.0) - 2.0 * Dot(p, q, n)
    decreases n
  {
    if n > 0 {
      ExpectedExpands(p, q, n - 1);
      ExpectedStep(p, q, n);
      OneMoreOutcome(Expected(p, q, n - 1), Sum(q, n - 1), Dot(p, p, |p|), Dot(p, q, n - 1), q[n - 1], p[n - 1]);
    }
  }

  lemma {:induction false} SquaredDistance(p: seq<real>, q: seq<real>, n: nat)
    requires n <= |p| && n <= |q|
    ensures Dot(p, p, n) - 2.0 * Dot(p, q, n) + Dot(q, q, n) >= 0.0
    decreases n
  {
    if n > 0 {
      SquaredDistance(p, q, n - 1);
      var x, y := p[n - 1], q[n - 1];
      SquareIsNonNegative(x - y);
      assert (x - y) * (x - y) == x * x - 2.0 * (x * y) + y * y;
    }
  }

  lemma SquareIsNonNegative(x: real)
    ensures x * x >= 0.0
  {
  }

  lemma {:induction false} DotUniform(q: seq<real>, n: nat)
    requires q != [] && n <= |q|
    ensures Dot(Uniform(|q|), q, n) == Sum(q, n) * (1.0 / |q| as real)
    decreases n
  {
    if n > 0 {
      DotUniform(q, n - 1);
      var x := 1.0 / |q| as real;
      assert Sum(q, n) * x == Sum(q, n - 1) * x + q[n - 1] * x;
    }
  }

  /** Brier scoring is proper: no forecast may expect less than the true probabilities. */
  lemma HonestyIsBest(p: seq<real>, q: seq<real>)
    requires |p| == |q| && Sum(q, |q|) == 1.0
    ensures Expected(q, q, |q|) <= Expected(p, q, |q|)
  {
    ExpectedExpands(p, q, |q|);
    ExpectedExpands(q, q, |q|);
    SquaredDistance(p, q, |q|);
  }

  /** And an honest forecast never expects worse than the baseline charged for a missed round. */
  lemma HonestyBeatsBaseline(q: seq<real>)
    requires q != [] && Sum(q, |q|) == 1.0
    ensures Expected(q, q, |q|) <= Baseline(|q|)
  {
    ExpectedExpands(q, q, |q|);
    SquaredDistance(Uniform(|q|), q, |q|);
    DotUniform(q, |q|);
    UniformDotAll(|q|);
  }

  /* ---- the pinned block ---- */

  /** Timestamps of blocks do not decrease. */
  predicate Ascending(timestamps: seq<int>) {
    forall i, j :: 0 <= i < j < |timestamps| ==> timestamps[i] <= timestamps[j]
  }

  /** Binary search for the first block at or after a time, up to a known head. */
  method FirstBlockAtOrAfter(timestamps: seq<int>, head: nat, time: int) returns (block: Option<nat>)
    requires head < |timestamps| && Ascending(timestamps)
    ensures block == None <==> forall n :: 0 <= n <= head ==> timestamps[n] < time
    ensures block.Some? ==> block.value <= head && timestamps[block.value] >= time
                            && forall n :: 0 <= n < block.value ==> timestamps[n] < time
  {
    if time > timestamps[head] {
      return None;
    }
    var low, high := 0, head;
    while low < high
      invariant low <= high <= head && timestamps[high] >= time
      invariant forall n :: 0 <= n < low ==> timestamps[n] < time
    {
      var middle := (low + high) / 2;
      if timestamps[middle] >= time {
        high := middle;
      } else {
        low := middle + 1;
      }
    }
    block := Some(low);
  }
}

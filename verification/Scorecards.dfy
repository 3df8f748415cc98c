/** Scorecards over aligned rounds (labeling/scorecards.py), over exact times and reals: what is
    stated here holds before the final rounding to six decimals. */
module Scorecards {
  import opened Common
  import Arithmetic
  import Onchain
  import Sets

  datatype Status = Correct | Incorrect | Neutral | Unavailable | Pending

  /** An eligible target row with its automatic result; start is None for a subject without one. */
  datatype Row = Row(subject: Id, firstRound: Option<int>, start: Option<int>, end: int, classes: nat, status: Status,
                     score: Option<real>)

  /** Periods in microseconds. */
  datatype Config = Config(round: int, horizon: int, finality: int, minSample: int, buckets: nat)

  datatype Tally = Tally(submitted: set<int>, settled: set<int>, briers: seq<real>, correct: nat, incorrect: nat,
                         unresolved: nat, classes: nat)

  datatype Card = Card(subject: Id, eligible: bool, scored: nat, submitted: nat, expected: int, coverage: Option<real>,
                       unresolved: nat, meanBrier: Option<real>, adjustedBrier: Option<real>, accuracy: Option<real>)

  /** Rounds some row found unavailable after their finality. */
  function UnavailableRounds(rows: seq<Row>, cfg: Config, now: int): set<int> {
    set r | r in rows && r.start.Some? && r.status == Unavailable && r.end + cfg.finality <= now :: r.start.value
  }

  function Scored(r: Row): bool {
    (r.status == Correct || r.status == Incorrect || r.status == Neutral) && r.score.Some?
  }

  function AddRow(t: Tally, r: Row, cfg: Config, now: int, unavailable: set<int>): Tally {
    if r.start.None? then t
    else
      var seen := t.(classes := Max(t.classes, r.classes), submitted := t.submitted + {r.start.value});
      if r.end + cfg.finality > now then seen
      else if r.start.value in unavailable then seen.(unresolved := t.unresolved + 1)
      else
        var settled := seen.(settled := t.settled + {r.start.value});
        if Scored(r) then
          settled.(briers := t.briers + [r.score.value],
                   correct := t.correct + (if r.status == Correct then 1 else 0),
                   incorrect := t.incorrect + (if r.status == Incorrect then 1 else 0))
        else settled.(unresolved := t.unresolved + 1)
  }

  function TallyOf(items: seq<Row>, cfg: Config, now: int, unavailable: set<int>): Tally
    decreases |items|
  {
    if items == [] then Tally({}, {}, [], 0, 0, 0, cfg.buckets + 1)
    else AddRow(TallyOf(items[..|items| - 1], cfg, now, unavailable), items[|items| - 1], cfg, now, unavailable)
  }

  /** The first round an item counts from; items without a row carry the subject's first round. */
  function RoundOf(r: Row): int {
    if r.firstRound.Some? then r.firstRound.value else if r.start.Some? then r.start.value else 0
  }

  function MinRound(items: seq<Row>): int
    requires items != []
    decreases |items|
  {
    if |items| == 1 then RoundOf(items[0]) else Min(MinRound(items[..|items| - 1]), RoundOf(items[|items| - 1]))
  }

  /** The window start moved up to a round boundary. */
  function CeilTo(time: int, round: int): int
    requires round > 0
  {
    -((-time) / round) * round
  }

  function FirstRound(items: seq<Row>, cfg: Config, windowStart: Option<int>): int
    requires items != [] && cfg.round > 0
  {
    if windowStart.Some? then Max(MinRound(items), CeilTo(windowStart.value, cfg.round)) else MinRound(items)
  }

  /** Rounds from first that have had time to settle. */
  function ElapsedRounds(first: int, cfg: Config, now: int): int
    requires cfg.round > 0
  {
    var elapsed := now - first - cfg.horizon - cfg.finality;
    if elapsed >= 0 then elapsed / cfg.round + 1 else 0
  }

  function From(rounds: set<int>, first: int): set<int> {
    set s | s in rounds && s >= first
  }

  function ExpectedRounds(first: int, cfg: Config, now: int, unavailable: set<int>): int
    requires cfg.round > 0
  {
    ElapsedRounds(first, cfg, now) - |From(unavailable, first)|
  }

  function Missed(expected: int, settled: int): nat {
    Max(0, expected - settled)
  }

  /** The mean with each missed round imputed at the baseline. */
  function Adjusted(briers: seq<real>, missed: nat, classes: nat): real
    requires |briers| + missed > 0
  {
    (Onchain.Sum(briers, |briers|) + missed as real * Onchain.Baseline(classes)) / (|briers| + missed) as real
  }

  function CardOf(subject: Id, items: seq<Row>, cfg: Config, now: int, unavailable: set<int>,
                  windowStart: Option<int>): Card
    requires items != [] && cfg.round > 0
  {
    var t := TallyOf(items, cfg, now, unavailable);
    var expected := ExpectedRounds(FirstRound(items, cfg, windowStart), cfg, now, unavailable);
    var n := |t.briers|;
    var eligible := n >= Max(1, cfg.minSample);
    var card := Card(subject, eligible, n, |t.submitted|, expected, None, t.unresolved, None, None, None);
    if !eligible then card
    else
      card.(coverage := if expected != 0 then Some(|t.settled| as real / expected as real) else None,
            meanBrier := Some(Onchain.Sum(t.briers, n) / n as real),
            adjustedBrier := Some(Adjusted(t.briers, Missed(expected, |t.settled|), t.classes)),
            accuracy := if t.correct + t.incorrect > 0
                then Some(t.correct as real / (t.correct + t.incorrect) as real) else None)
  }

  /* ---- counting aligned rounds ---- */

  /** Rows as the query returns them: aligned, ending one horizon after their start, in the window
      and not before the subject's first round. */
  predicate QueryRow(r: Row, cfg: Config, windowStart: Option<int>)
    requires cfg.round > 0
  {
    && r.firstRound.Some? && r.firstRound.value % cfg.round == 0
    && (r.start.Some? ==>
          && r.start.value % cfg.round == 0 && r.end == r.start.value + cfg.horizon
              && r.start.value >= r.firstRound.value
          && (windowStart.Some? ==> r.start.value >= windowStart.value))
  }

  lemma {:induction false} MinRoundIsAligned(items: seq<Row>, cfg: Config, windowStart: Option<int>)
    requires items != [] && cfg.round > 0 && forall r :: r in items ==> QueryRow(r, cfg, windowStart)
    ensures MinRound(items) % cfg.round == 0 && forall r :: r in items ==> MinRound(items) <= RoundOf(r)
    decreases |items|
  {
    var last := items[|items| - 1];
    assert items == items[..|items| - 1] + [last] && last in items;
    assert QueryRow(last, cfg, windowStart) && RoundOf(last) % cfg.round == 0;
    if |items| > 1 {
      MinRoundIsAligned(items[..|items| - 1], cfg, windowStart);
    }
  }

  lemma CeilIsNext(time: int, round: int, start: int)
    requires round > 0
    ensures CeilTo(time, round) % round == 0
    ensures start % round == 0 && start >= time ==> start >= CeilTo(time, round)
  {
    var q := (-time) / round;
    Arithmetic.DivisionIsUnique(-q * round, round, -q, 0);
    if start % round == 0 && start >= time {
      var k := start / round;
      if -q > k {
        Arithmetic.TimesGrows(k, -q - 1, round);
      } else {
        Arithmetic.TimesGrows(-q, k, round);
      }
    }
  }

  lemma FirstRoundIsAligned(items: seq<Row>, cfg: Config, windowStart: Option<int>)
    requires items != [] && cfg.round > 0 && forall r :: r in items ==> QueryRow(r, cfg, windowStart)
    ensures FirstRound(items, cfg, windowStart) % cfg.round == 0
    ensures forall r :: r in items && r.start.Some? ==> r.start.value >= FirstRound(items, cfg, windowStart)
  {
    MinRoundIsAligned(items, cfg, windowStart);
    if windowStart.Some? {
      CeilIsNext(windowStart.value, cfg.round, 0);
      forall r | r in items && r.start.Some? ensures r.start.value >= CeilTo(windowStart.value, cfg.round) {
        CeilIsNext(windowStart.value, cfg.round, r.start.value);
      }
    }
  }

  function Grid(first: int, round: int, n: nat): set<int>
    decreases n
  {
    if n == 0 then {} else Grid(first, round, n - 1) + {first + (n - 1) * round}
  }

  lemma {:induction false} GridSize(first: int, round: int, n: nat)
    requires round > 0
    ensures |Grid(first, round, n)| == n && forall s :: s in Grid(first, round, n) ==> s < first + n * round
    decreases n
  {
    if n > 0 {
      GridSize(first, round, n - 1);
      assert (n - 1) * round + round == n * round;
    }
  }

  lemma {:induction false} GridHas(first: int, round: int, n: nat, k: nat)
    requires k < n
    ensures first + k * round in Grid(first, round, n)
    decreases n
  {
    if k < n - 1 {
      GridHas(first, round, n - 1, k);
    }
  }

  /** An aligned start that has settled is one of the elapsed rounds. */
  lemma SettledIsElapsed(first: int, cfg: Config, now: int, start: int)
    requires cfg.round > 0 && first % cfg.round == 0 && start % cfg.round == 0 && start >= first
    requires start + cfg.horizon + cfg.finality <= now
    ensures ElapsedRounds(first, cfg, now) >= 0 && start in Grid(first, cfg.round, ElapsedRounds(first, cfg, now))
  {
    var elapsed := now - first - cfg.horizon - cfg.finality;
    var k := start / cfg.round - first / cfg.round;
    assert start - first == k * cfg.round;
    assert k >= 0 by {
      if k < 0 {
        Arithmetic.TimesGrows(k, -1, cfg.round);
      }
    }
    assert k <= elapsed / cfg.round by {
      if k > elapsed / cfg.round {
        Arithmetic.TimesGrows(elapsed / cfg.round + 1, k, cfg.round);
      }
    }
    GridHas(first, cfg.round, elapsed / cfg.round + 1, k);
  }

  /** What the settled rounds of a subject are. */
  lemma {:induction false} SettledRounds(items: seq<Row>, cfg: Config, now: int, unavailable: set<int>, s: int)
    ensures s in TallyOf(items, cfg, now, unavailable).settled <==>
            exists r :: r in items && r.start == Some(s) && r.end + cfg.finality <= now && s !in unavailable
    decreases |items|
  {
    if items != [] {
      SettledRounds(items[..|items| - 1], cfg, now, unavailable, s);
      assert items == items[..|items| - 1] + [items[|items| - 1]];
    }
  }

  lemma UnavailableIsElapsed(rows: seq<Row>, cfg: Config, now: int, windowStart: Option<int>, first: int, s: int)
    requires cfg.round > 0 && first % cfg.round == 0 && s in From(UnavailableRounds(rows, cfg, now), first)
    requires forall r :: r in rows ==> QueryRow(r, cfg, windowStart)
    ensures ElapsedRounds(first, cfg, now) >= 0 && s in Grid(first, cfg.round, ElapsedRounds(first, cfg, now))
  {
    var r :| r in rows && r.start == Some(s) && r.status == Unavailable && r.end + cfg.finality <= now;
    SettledIsElapsed(first, cfg, now, s);
  }

  /** Settled rounds never exceed the expected ones. */
  lemma SettledAtMostExpected(rows: seq<Row>, items: seq<Row>, cfg: Config, now: int, windowStart: Option<int>)
    requires cfg.round > 0 && items != [] && (forall r :: r in items ==> r in rows)
    requires forall r :: r in rows ==> QueryRow(r, cfg, windowStart)
    ensures var unavailable := UnavailableRounds(rows, cfg, now);
            0 <= |TallyOf(items, cfg, now, unavailable).settled| <= ExpectedRounds(FirstRound(items, cfg, windowStart),
                cfg, now, unavailable)
  {
    var first := FirstRound(items, cfg, windowStart);
    FirstRoundIsAligned(items, cfg, windowStart);
    var unavailable := UnavailableRounds(rows, cfg, now);
    var settled, lost := TallyOf(items, cfg, now, unavailable).settled, From(unavailable, first);
    var n := ElapsedRounds(first, cfg, now);
    forall s | s in settled ensures n >= 0 && s in Grid(first, cfg.round, n) && s !in lost {
      SettledRounds(items, cfg, now, unavailable, s);
      SettledIsElapsed(first, cfg, now, s);
    }
    forall s | s in lost ensures n >= 0 && s in Grid(first, cfg.round, n) {
      UnavailableIsElapsed(rows, cfg, now, windowStart, first, s);
    }
    GridSize(first, cfg.round, n);
    Sets.SubsetSize(settled + lost, Grid(first, cfg.round, n));
    assert settled !! lost;
    assert |settled + lost| == |settled| + |lost|;
  }

  /** So coverage lies between zero and one. */
  lemma CoverageIsAFraction(subject: Id, rows: seq<Row>, items: seq<Row>, cfg: Config, now: int,
                            windowStart: Option<int>)
    requires cfg.round > 0 && items != [] && (forall r :: r in items ==> r in rows)
    requires forall r :: r in rows ==> QueryRow(r, cfg, windowStart)
    ensures var card := CardOf(subject, items, cfg, now, UnavailableRounds(rows, cfg, now), windowStart);
            card.expected >= 0 && (card.coverage.Some? ==> 0.0 <= card.coverage.value <= 1.0)
  {
    SettledAtMostExpected(rows, items, cfg, now, windowStart);
    var unavailable := UnavailableRounds(rows, cfg, now);
    var expected := ExpectedRounds(FirstRound(items, cfg, windowStart), cfg, now, unavailable);
    if expected > 0 {
      FractionAtMostOne(|TallyOf(items, cfg, now, unavailable).settled|, expected);
    }
  }

  lemma FractionAtMostOne(a: int, b: int)
    requires 0 <= a <= b && b > 0
    ensures 0.0 <= a as real / b as real <= 1.0
  {
  }

  /* ---- what a card says ---- */

  /** The row's round has had time to settle, and was not unavailable. */
  predicate InTime(r: Row, cfg: Config, now: int, unavailable: set<int>) {
    r.start.Some? && r.end + cfg.finality <= now && r.start.value !in unavailable
  }

  function SettledStarts(items: seq<Row>, cfg: Config, now: int, unavailable: set<int>): set<int> {
    set r | r in items && InTime(r, cfg, now, unavailable) :: r.start.value
  }

  /** The row counts towards the scores, with one of these results. */
  predicate CountsAs(r: Row, cfg: Config, now: int, unavailable: set<int>, results: set<Status>) {
    InTime(r, cfg, now, unavailable) && r.score.Some? && r.status in results
  }

  function Count(items: seq<Row>, cfg: Config, now: int, unavailable: set<int>, results: set<Status>): nat
    decreases |items|
  {
    if items == [] then 0
    else
      Count(items[..|items| - 1], cfg, now, unavailable, results)
      + if CountsAs(items[|items| - 1], cfg, now, unavailable, results) then 1 else 0
  }

  /** The rows whose round is over and which brought no score. */
  function CountUnresolved(items: seq<Row>, cfg: Config, now: int, unavailable: set<int>): nat
    decreases |items|
  {
    if items == [] then 0
    else
      var last := items[|items| - 1];
      var over := last.start.Some? && last.end + cfg.finality <= now;
      CountUnresolved(items[..|items| - 1], cfg, now, unavailable)
      + if over && !CountsAs(last, cfg, now, unavailable, {Correct, Incorrect, Neutral}) then 1 else 0
  }

  /** The most outcomes that a submitted forecast, or the configured buckets, tell apart. */
  function MostClasses(items: seq<Row>, cfg: Config): (classes: nat)
    ensures classes > 0
    decreases |items|
  {
    if items == [] then cfg.buckets + 1
    else
      var before, last := MostClasses(items[..|items| - 1], cfg), items[|items| - 1];
      if last.start.Some? && last.classes > before then last.classes else before
  }

  /** The scores of the rows that count, added up. */
  function ScoreSum(items: seq<Row>, cfg: Config, now: int, unavailable: set<int>): real
    decreases |items|
  {
    if items == [] then 0.0
    else
      var last := items[|items| - 1];
      ScoreSum(items[..|items| - 1], cfg, now, unavailable)
      + if CountsAs(last, cfg, now, unavailable, {Correct, Incorrect, Neutral}) then last.score.value else 0.0
  }

  lemma {:induction false} TallyCounts(items: seq<Row>, cfg: Config, now: int, unavailable: set<int>)
    ensures var t := TallyOf(items, cfg, now, unavailable);
            && t.correct == Count(items, cfg, now, unavailable, {Correct})
            && t.incorrect == Count(items, cfg, now, unavailable, {Incorrect})
            && |t.briers| == Count(items, cfg, now, unavailable, {Correct, Incorrect, Neutral})
            && t.unresolved == CountUnresolved(items, cfg, now, unavailable)
            && t.classes == MostClasses(items, cfg)
            && Onchain.Sum(t.briers, |t.briers|) == ScoreSum(items, cfg, now, unavailable)
    decreases |items|
  {
    if items != [] {
      var last := items[|items| - 1];
      TallyCounts(items[..|items| - 1], cfg, now, unavailable);
      if CountsAs(last, cfg, now, unavailable, {Correct, Incorrect, Neutral}) {
        var briers := TallyOf(items[..|items| - 1], cfg, now, unavailable).briers;
        Onchain.SumPrefix(briers, last.score.value, |briers|);
      }
    }
  }

  lemma {:induction false} TallySubmitted(items: seq<Row>, cfg: Config, now: int, unavailable: set<int>)
    ensures TallyOf(items, cfg, now, unavailable).submitted == set r | r in items && r.start.Some? :: r.start.value
    decreases |items|
  {
    if items != [] {
      TallySubmitted(items[..|items| - 1], cfg, now, unavailable);
      assert items == items[..|items| - 1] + [items[|items| - 1]];
    }
  }

  /** The rounds of a subject are counted from its first one, or from the first aligned one of the
      window if that is later. */
  lemma FirstRoundIsExact(items: seq<Row>, cfg: Config, windowStart: Option<int>)
    requires items != [] && cfg.round > 0
    ensures exists r :: r in items && MinRound(items) == RoundOf(r)
    ensures forall r :: r in items ==> MinRound(items) <= RoundOf(r)
    ensures var first := FirstRound(items, cfg, windowStart);
            match windowStart
            case None => first == MinRound(items)
            case Some(w) =>
              && first >= MinRound(items) && first >= w
              && (first > MinRound(items) ==> first % cfg.round == 0 && first < w + cfg.round)
  {
    hide CeilTo, MinRound, RoundOf;
    MinRoundIsLeast(items);
    if windowStart.Some? {
      CeilIsWithinRound(windowStart.value, cfg.round);
    }
  }

  lemma CeilIsWithinRound(time: int, round: int)
    requires round > 0
    ensures time <= CeilTo(time, round) < time + round && CeilTo(time, round) % round == 0
  {
    CeilIsNext(time, round, 0);
    var q := (-time) / round;
    assert -time == q * round + (-time) % round;
    assert CeilTo(time, round) == -(q * round);
  }

  lemma {:induction false} MinRoundIsLeast(items: seq<Row>)
    requires items != []
    ensures exists r :: r in items && MinRound(items) == RoundOf(r)
    ensures forall r :: r in items ==> MinRound(items) <= RoundOf(r)
    decreases |items|
  {
    var last := items[|items| - 1];
    assert items == items[..|items| - 1] + [last] && last in items;
    if |items| > 1 {
      MinRoundIsLeast(items[..|items| - 1]);
    }
  }

  /** Exactly the aligned rounds that have had time to settle are elapsed. */
  lemma ElapsedIsExact(first: int, cfg: Config, now: int, k: nat)
    requires cfg.round > 0
    ensures k < ElapsedRounds(first, cfg, now) <==> first + k * cfg.round + cfg.horizon + cfg.finality <= now
  {
    var elapsed := now - first - cfg.horizon - cfg.finality;
    if elapsed >= 0 {
      var q := elapsed / cfg.round;
      if k <= q {
        Arithmetic.TimesGrows(k, q, cfg.round);
      } else {
        Arithmetic.TimesGrows(q + 1, k, cfg.round);
      }
    } else {
      Arithmetic.TimesGrows(0, k, cfg.round);
    }
  }

  /** The expected rounds are the elapsed ones that no row found unavailable. */
  lemma ExpectedIsExact(rows: seq<Row>, cfg: Config, now: int, windowStart: Option<int>, first: int)
    requires cfg.round > 0 && first % cfg.round == 0 && forall r :: r in rows ==> QueryRow(r, cfg, windowStart)
    ensures var unavailable := UnavailableRounds(rows, cfg, now);
            ExpectedRounds(first, cfg, now, unavailable)
            == |Grid(first, cfg.round, Max(0, ElapsedRounds(first, cfg, now))) - unavailable|
  {
    var unavailable, n := UnavailableRounds(rows, cfg, now), Max(0, ElapsedRounds(first, cfg, now));
    var grid, lost := Grid(first, cfg.round, n), From(unavailable, first);
    GridSize(first, cfg.round, n);
    GridStarts(first, cfg.round, n);
    forall s | s in lost ensures s in grid {
      UnavailableIsElapsed(rows, cfg, now, windowStart, first, s);
    }
    assert grid - unavailable == grid - lost;
    assert |grid| == |grid - lost| + |lost|;
    assert ElapsedRounds(first, cfg, now) >= 0;
  }

  lemma {:induction false} GridStarts(first: int, round: int, n: nat)
    requires round > 0
    ensures forall s :: s in Grid(first, round, n) ==> s >= first
    decreases n
  {
    if n > 0 {
      GridStarts(first, round, n - 1);
    }
  }

  lemma TallySettled(items: seq<Row>, cfg: Config, now: int, unavailable: set<int>)
    ensures TallyOf(items, cfg, now, unavailable).settled == SettledStarts(items, cfg, now, unavailable)
  {
    var t := TallyOf(items, cfg, now, unavailable);
    forall s ensures s in t.settled <==> s in SettledStarts(items, cfg, now, unavailable) {
      SettledRounds(items, cfg, now, unavailable, s);
    }
  }

  /** A card read from the subject's rows: it is eligible with enough scored rows; its mean is theirs,
      and its accuracy the correct ones among the correct and incorrect. */
  lemma CardSays(subject: Id, items: seq<Row>, cfg: Config, now: int, unavailable: set<int>, windowStart: Option<int>)
    requires items != [] && cfg.round > 0
    ensures var card := CardOf(subject, items, cfg, now, unavailable, windowStart);
            var scored := Count(items, cfg, now, unavailable, {Correct, Incorrect, Neutral});
            var correct := Count(items, cfg, now, unavailable, {Correct});
            var incorrect := Count(items, cfg, now, unavailable, {Incorrect});
            && card.subject == subject && card.scored == scored
            && card.submitted == |set r | r in items && r.start.Some? :: r.start.value|
            && (card.eligible <==> scored > 0 && scored >= cfg.minSample)
            && card.expected == ExpectedRounds(FirstRound(items, cfg, windowStart), cfg, now, unavailable)
            && card.unresolved == CountUnresolved(items, cfg, now, unavailable)
            && card.coverage ==
               (if card.eligible && card.expected != 0
                then Some(|SettledStarts(items, cfg, now, unavailable)| as real / card.expected as real) else None)
            && card.meanBrier ==
               (if card.eligible then Some(ScoreSum(items, cfg, now, unavailable) / scored as real) else None)
            && card.accuracy ==
               (if card.eligible && correct + incorrect > 0 then Some(correct as real / (correct + incorrect) as real)
                else None)
  {
    TallyCounts(items, cfg, now, unavailable);
    hide TallyOf, Count, CountUnresolved, ScoreSum, SettledStarts, MostClasses, ExpectedRounds, FirstRound, Adjusted;
    TallySubmitted(items, cfg, now, unavailable);
    TallySettled(items, cfg, now, unavailable);
  }

  /** A mean over scored and missed rounds, the missed ones at the baseline 1 - 1/k of k outcomes. */
  function Imputed(sum: real, scored: nat, missed: nat, classes: nat): real
    requires scored + missed > 0 && classes > 0
  {
    (sum + missed as real * (1.0 - 1.0 / classes as real)) / (scored + missed) as real
  }

  lemma AdjustedIsImputed(briers: seq<real>, missed: nat, classes: nat)
    requires |briers| + missed > 0 && classes > 0
    ensures Adjusted(briers, missed, classes) == Imputed(Onchain.Sum(briers, |briers|), |briers|, missed, classes)
  {
  }

  /** And the adjusted score of an eligible card, with every expected round that brought no settled row
      imputed at the baseline of the most outcomes told apart. */
  lemma CardAdjusts(subject: Id, items: seq<Row>, cfg: Config, now: int, unavailable: set<int>,
                    windowStart: Option<int>)
    requires items != [] && cfg.round > 0
    ensures var card := CardOf(subject, items, cfg, now, unavailable, windowStart);
            var missed := Max(0, card.expected - |SettledStarts(items, cfg, now, unavailable)|);
            card.eligible ==>
              card.adjustedBrier ==
              Some(Imputed(ScoreSum(items, cfg, now, unavailable), card.scored, missed, MostClasses(items, cfg)))
  {
    hide TallyOf, ScoreSum, SettledStarts, MostClasses, ExpectedRounds, FirstRound, Adjusted, Count, Onchain.Sum;
    hide Imputed;
    TallyCounts(items, cfg, now, unavailable);
    TallySettled(items, cfg, now, unavailable);
    var t, card := TallyOf(items, cfg, now, unavailable), CardOf(subject, items, cfg, now, unavailable, windowStart);
    if card.eligible {
      AdjustedIsImputed(t.briers, Missed(card.expected, |t.settled|), t.classes);
    }
  }

  /* ---- missed rounds ---- */

  /** A scored row for a round of the subject that has settled but was missed. */
  predicate FillsMissedRound(items: seq<Row>, row: Row, cfg: Config, now: int, unavailable: set<int>,
                             windowStart: Option<int>)
    requires cfg.round > 0 && items != []
  {
    var t := TallyOf(items, cfg, now, unavailable);
    && QueryRow(row, cfg, windowStart) && row.start.Some? && row.firstRound.value >= MinRound(items)
    && row.start.value >= FirstRound(items, cfg, windowStart)
    && row.end + cfg.finality <= now && row.start.value !in t.settled && row.start.value !in unavailable
    && Scored(row) && row.classes <= t.classes
  }

  lemma FillingAMissedRound(rows: seq<Row>, items: seq<Row>, row: Row, cfg: Config, now: int, windowStart: Option<int>)
    requires cfg.round > 0 && items != [] && (forall r :: r in items ==> r in rows)
    requires forall r :: r in rows ==> QueryRow(r, cfg, windowStart)
    requires FillsMissedRound(items, row, cfg, now, UnavailableRounds(rows, cfg, now), windowStart)
    ensures UnavailableRounds(rows + [row], cfg, now) == UnavailableRounds(rows, cfg, now)
    ensures FirstRound(items + [row], cfg, windowStart) == FirstRound(items, cfg, windowStart)
    ensures var unavailable := UnavailableRounds(rows, cfg, now);
            var t, t' := TallyOf(items, cfg, now, unavailable), TallyOf(items + [row], cfg, now, unavailable);
            && t'.briers == t.briers + [row.score.value] && t'.classes == t.classes && |t'.settled| == |t.settled| + 1
            && |t.settled| < ExpectedRounds(FirstRound(items, cfg, windowStart), cfg, now, unavailable)
  {
    assert (items + [row])[..|items|] == items;
    var unavailable := UnavailableRounds(rows, cfg, now);
    assert UnavailableRounds(rows + [row], cfg, now) == unavailable;
    var t := TallyOf(items, cfg, now, unavailable);
    assert TallyOf(items + [row], cfg, now, unavailable) == AddRow(t, row, cfg, now, unavailable);
    assert |t.settled + {row.start.value}| == |t.settled| + 1;
    SettledAtMostExpected(rows + [row], items + [row], cfg, now, windowStart);
  }

  /** Replacing a missed round by a scored forecast moves the adjusted mean by exactly the forecast's
      distance from the baseline, spread over the rounds counted. */
  lemma AdjustedMovesByDistance(briers: seq<real>, score: real, missed: nat, classes: nat)
    requires missed > 0
    ensures Adjusted(briers + [score], missed - 1, classes)
            == Adjusted(briers, missed, classes) + (score - Onchain.Baseline(classes)) / (|briers| + missed) as real
  {
    Onchain.SumPrefix(briers, score, |briers|);
    var b, d := Onchain.Baseline(classes), (|briers| + missed) as real;
    assert (missed - 1) as real * b == missed as real * b - b;
    SplitFraction(Onchain.Sum(briers, |briers|) + missed as real * b, score - b, d);
  }

  lemma SplitFraction(x: real, y: real, d: real)
    requires d > 0.0
    ensures (x + y) / d == x / d + y / d
  {
  }

  lemma SignOfFraction(y: real, d: real)
    requires d > 0.0
    ensures (y / d == 0.0 <==> y == 0.0) && (y / d > 0.0 <==> y > 0.0)
  {
    assert (y / d) * d == y;
    if y / d > 0.0 {
      assert (y / d) * d > 0.0;
    } else if y / d < 0.0 {
      assert (y / d) * d < 0.0;
    }
  }

  /** Leaving out a forecast helps a subject exactly when the forecast scored worse than uniform. */
  lemma MissingHelpsIff(subject: Id, rows: seq<Row>, items: seq<Row>, row: Row, cfg: Config, now: int,
                        windowStart: Option<int>)
    requires cfg.round > 0 && items != [] && (forall r :: r in items ==> r in rows)
    requires forall r :: r in rows ==> QueryRow(r, cfg, windowStart)
    requires FillsMissedRound(items, row, cfg, now, UnavailableRounds(rows, cfg, now), windowStart)
    ensures var without := CardOf(subject, items, cfg, now, UnavailableRounds(rows, cfg, now), windowStart);
            var with := CardOf(subject, items + [row], cfg, now, UnavailableRounds(rows + [row], cfg, now),
                               windowStart);
            var classes := TallyOf(items, cfg, now, UnavailableRounds(rows, cfg, now)).classes;
            without.eligible ==>
              && with.eligible
              && (without.adjustedBrier.value < with.adjustedBrier.value <==>
                  row.score.value > Onchain.Baseline(classes))
              && (without.adjustedBrier.value == with.adjustedBrier.value <==>
                  row.score.value == Onchain.Baseline(classes))
  {
    FillingAMissedRound(rows, items, row, cfg, now, windowStart);
    var unavailable := UnavailableRounds(rows, cfg, now);
    var t := TallyOf(items, cfg, now, unavailable);
    var expected := ExpectedRounds(FirstRound(items, cfg, windowStart), cfg, now, unavailable);
    var missed := Missed(expected, |t.settled|);
    assert Missed(expected, |t.settled| + 1) == missed - 1;
    AdjustedMovesByDistance(t.briers, row.score.value, missed, t.classes);
    SignOfFraction(row.score.value - Onchain.Baseline(t.classes), (|t.briers| + missed) as real);
  }

  lemma TallyOne(row: Row, cfg: Config, now: int)
    ensures TallyOf([row], cfg, now, {}) == AddRow(Tally({}, {}, [], 0, 0, 0, cfg.buckets + 1), row, cfg, now, {})
  {
    assert [row][..0] == [];
    assert TallyOf([], cfg, now, {}) == Tally({}, {}, [], 0, 0, 0, cfg.buckets + 1);
  }

  lemma TallyTwo(first: Row, second: Row, cfg: Config, now: int)
    ensures TallyOf([first, second], cfg, now, {}) == AddRow(TallyOf([first], cfg, now, {}), second, cfg, now, {})
  {
    assert [first, second][..1] == [first];
  }

  /** Rounds of ten seconds; a right forecast for the first, a wrong one for the second; both settled. */
  const TEN_SECONDS := Config(10 * SECOND, 10 * SECOND, 0, 1, 1)
  const RIGHT := Row(1, Some(0), Some(0), 10 * SECOND, 2, Correct, Some(0.0))
  const WRONG := Row(1, Some(0), Some(10 * SECOND), 20 * SECOND, 2, Incorrect, Some(2.0))

  function LateCard(rows: seq<Row>): Card
    requires rows != []
  {
    CardOf(1, rows, TEN_SECONDS, 25 * SECOND, UnavailableRounds(rows, TEN_SECONDS, 25 * SECOND), None)
  }

  /** With the wrong forecast the adjusted score is 1; left out, it is 1/4, the better score. */
  lemma LeavingOutABadForecastHelps()
    ensures FillsMissedRound([RIGHT], WRONG, TEN_SECONDS, 25 * SECOND,
                             UnavailableRounds([RIGHT], TEN_SECONDS, 25 * SECOND), None)
    ensures LateCard([RIGHT]).eligible && LateCard([RIGHT]).adjustedBrier == Some(0.25)
    ensures LateCard([RIGHT, WRONG]).eligible && LateCard([RIGHT, WRONG]).adjustedBrier == Some(1.0)
  {
    hide TallyOf;
    var now := 25 * SECOND;
    TallyOne(RIGHT, TEN_SECONDS, now);
    TallyTwo(RIGHT, WRONG, TEN_SECONDS, now);
    assert TallyOf([RIGHT], TEN_SECONDS, now, {}).settled == {0};
    assert TallyOf([RIGHT, WRONG], TEN_SECONDS, now, {}).settled == {0, 10 * SECOND};
    assert ElapsedRounds(0, TEN_SECONDS, now) == 2;
    assert UnavailableRounds([RIGHT], TEN_SECONDS, now) == {};
    assert UnavailableRounds([RIGHT, WRONG], TEN_SECONDS, now) == {};
    assert From({}, 0) == {} && [RIGHT, WRONG][..1] == [RIGHT];
    assert MinRound([RIGHT]) == 0 && MinRound([RIGHT, WRONG]) == 0;
    assert Onchain.Sum([0.0, 2.0], 2) == 2.0 && Onchain.Baseline(2) == 0.5;
  }

  /** In particular a uniform forecast for a missed round changes nothing, whatever its outcome. */
  lemma UniformForecastChangesNothing(subject: Id, rows: seq<Row>, items: seq<Row>, row: Row, outcome: nat, cfg: Config,
                                      now: int, windowStart: Option<int>)
    requires cfg.round > 0 && items != [] && (forall r :: r in items ==> r in rows)
    requires forall r :: r in rows ==> QueryRow(r, cfg, windowStart)
    requires FillsMissedRound(items, row, cfg, now, UnavailableRounds(rows, cfg, now), windowStart)
    requires row.classes == TallyOf(items, cfg, now, UnavailableRounds(rows, cfg, now)).classes && outcome < row.classes
    requires row.score == Some(Onchain.Brier(Onchain.Uniform(row.classes), outcome))
    ensures var without := CardOf(subject, items, cfg, now, UnavailableRounds(rows, cfg, now), windowStart);
            var with := CardOf(subject, items + [row], cfg, now, UnavailableRounds(rows + [row], cfg, now),
                               windowStart);
            without.eligible ==> with.eligible && with.adjustedBrier == without.adjustedBrier
  {
    Onchain.UniformScoresBaseline(row.classes, outcome);
    MissingHelpsIff(subject, rows, items, row, cfg, now, windowStart);
  }

  /* ---- the loops of summarize ---- */

  /** The rows of a subject, in their order. */
  function ItemsOf(rows: seq<Row>, subject: Id): seq<Row>
    decreases |rows|
  {
    if rows == [] then []
    else
      var before, last := ItemsOf(rows[..|rows| - 1], subject), rows[|rows| - 1];
      if last.subject == subject then before + [last] else before
  }

  function Subjects(rows: seq<Row>): set<Id> {
    set r | r in rows :: r.subject
  }

  /** The groups of the rows seen so far. */
  ghost predicate Groups(grouped: map<Id, seq<Row>>, rows: seq<Row>) {
    && grouped.Keys == Subjects(rows)
    && forall s :: ItemsOf(rows, s) == if s in grouped then grouped[s] else []
  }

  lemma GroupOne(grouped: map<Id, seq<Row>>, rows: seq<Row>, r: Row)
    requires Groups(grouped, rows)
    ensures Groups(grouped[r.subject := (if r.subject in grouped then grouped[r.subject] else []) + [r]], rows + [r])
  {
    var after := grouped[r.subject := (if r.subject in grouped then grouped[r.subject] else []) + [r]];
    forall s ensures ItemsOf(rows + [r], s) == if s in after then after[s] else [] {
      ItemsOneMore(rows, r, s);
    }
  }

  lemma ItemsOneMore(rows: seq<Row>, r: Row, s: Id)
    ensures ItemsOf(rows + [r], s) == if r.subject == s then ItemsOf(rows, s) + [r] else ItemsOf(rows, s)
  {
    assert (rows + [r])[..|rows|] == rows;
  }

  lemma {:induction false} SubjectHasItems(rows: seq<Row>, s: Id)
    requires s in Subjects(rows)
    ensures ItemsOf(rows, s) != []
    decreases |rows|
  {
    if rows[|rows| - 1].subject != s {
      assert rows == rows[..|rows| - 1] + [rows[|rows| - 1]];
      SubjectHasItems(rows[..|rows| - 1], s);
    }
  }

  method GroupRows(rows: seq<Row>) returns (grouped: map<Id, seq<Row>>)
    ensures Groups(grouped, rows)
  {
    grouped := map[];
    for i := 0 to |rows|
      invariant Groups(grouped, rows[..i])
    {
      var r := rows[i];
      GroupOne(grouped, rows[..i], r);
      assert rows[..i + 1] == rows[..i] + [r];
      grouped := grouped[r.subject := (if r.subject in grouped then grouped[r.subject] else []) + [r]];
    }
    assert rows[..|rows|] == rows;
  }

  /** The accumulators over one subject's rows. */
  method TallyItems(items: seq<Row>, cfg: Config, now: int, unavailable: set<int>) returns (t: Tally)
    ensures t == TallyOf(items, cfg, now, unavailable)
  {
    t := Tally({}, {}, [], 0, 0, 0, cfg.buckets + 1);
    for i := 0 to |items|
      invariant t == TallyOf(items[..i], cfg, now, unavailable)
    {
      var item := items[i];
      assert items[..i + 1][..i] == items[..i];
      if item.start.None? {
        continue;
      }
      t := t.(classes := Max(t.classes, item.classes), submitted := t.submitted + {item.start.value});
      if item.end + cfg.finality > now {
        continue;
      }
      if item.start.value in unavailable {
        t := t.(unresolved := t.unresolved + 1);
        continue;
      }
      t := t.(settled := t.settled + {item.start.value});
      if Scored(item) {
        t := t.(briers := t.briers + [item.score.value],
                correct := t.correct + (if item.status == Correct then 1 else 0),
                incorrect := t.incorrect + (if item.status == Incorrect then 1 else 0));
      } else {
        t := t.(unresolved := t.unresolved + 1);
      }
    }
    assert items[..|items|] == items;
  }

  function Rank(card: Card): real {
    if card.adjustedBrier.Some? then card.adjustedBrier.value else 0.0
  }

  /** Eligible cards first, then the lower adjusted score, then the subject. */
  predicate RankedBefore(a: Card, b: Card) {
    || (a.eligible && !b.eligible)
    || (a.eligible == b.eligible && (Rank(a) < Rank(b) || (Rank(a) == Rank(b) && a.subject < b.subject)))
  }

  predicate Ranked(cards: seq<Card>) {
    forall i, j :: 0 <= i < j < |cards| ==> RankedBefore(cards[i], cards[j])
  }

  /** Eligible cards come first, and among them the lower adjusted score, then the lower subject. */
  ghost predicate BestFirst(cards: seq<Card>) {
    forall i, j :: 0 <= i < j < |cards| && cards[j].eligible ==>
      && cards[i].eligible && cards[i].adjustedBrier.Some? && cards[j].adjustedBrier.Some?
      && cards[i].adjustedBrier.value <= cards[j].adjustedBrier.value
      && (cards[i].adjustedBrier == cards[j].adjustedBrier ==> cards[i].subject < cards[j].subject)
  }

  lemma RankedIsBestFirst(cards: seq<Card>)
    requires Ranked(cards) && forall c :: c in cards && c.eligible ==> c.adjustedBrier.Some?
    ensures BestFirst(cards)
  {
    forall i, j | 0 <= i < j < |cards| && cards[j].eligible
      ensures cards[i].eligible && cards[i].adjustedBrier.Some? && cards[j].adjustedBrier.Some?
    {
      assert RankedBefore(cards[i], cards[j]) && cards[i] in cards && cards[j] in cards;
    }
  }

  method InsertRanked(cards: seq<Card>, card: Card) returns (all: seq<Card>)
    requires Ranked(cards) && forall c :: c in cards ==> c.subject != card.subject
    ensures Ranked(all) && |all| == |cards| + 1 && forall c :: c in all <==> c in cards || c == card
  {
    var i := 0;
    while i < |cards| && RankedBefore(cards[i], card)
      invariant 0 <= i <= |cards| && forall j :: 0 <= j < i ==> RankedBefore(cards[j], card)
    {
      i := i + 1;
    }
    assert i < |cards| ==> cards[i] in cards && RankedBefore(card, cards[i]);
    assert forall j :: i < j < |cards| ==> RankedBefore(cards[i], cards[j]);
    all := cards[..i] + [card] + cards[i..];
  }

  method MakeCard(subject: Id, items: seq<Row>, cfg: Config, now: int, unavailable: set<int>, windowStart: Option<int>)
    returns (card: Card)
    requires items != [] && cfg.round > 0
    ensures card == CardOf(subject, items, cfg, now, unavailable, windowStart)
    ensures card.subject == subject && (card.eligible ==> card.adjustedBrier.Some?)
  {
    var t := TallyItems(items, cfg, now, unavailable);
    var expected := ExpectedRounds(FirstRound(items, cfg, windowStart), cfg, now, unavailable);
    var n := |t.briers|;
    card := Card(subject, n >= Max(1, cfg.minSample), n, |t.submitted|, expected, None, t.unresolved, None, None, None);
    if card.eligible {
      card := card.(meanBrier := Some(Onchain.Sum(t.briers, n) / n as real),
                    adjustedBrier := Some(Adjusted(t.briers, Missed(expected, |t.settled|), t.classes)));
      if expected != 0 {
        card := card.(coverage := Some(|t.settled| as real / expected as real));
      }
      if t.correct + t.incorrect > 0 {
        card := card.(accuracy := Some(t.correct as real / (t.correct + t.incorrect) as real));
      }
    }
  }

  /** The card summarize makes for a subject of the rows. */
  function CardIn(rows: seq<Row>, s: Id, cfg: Config, now: int, windowStart: Option<int>): Card
    requires ItemsOf(rows, s) != [] && cfg.round > 0
  {
    CardOf(s, ItemsOf(rows, s), cfg, now, UnavailableRounds(rows, cfg, now), windowStart)
  }

  /** One card per subject, best first. */
  method Summarize(rows: seq<Row>, cfg: Config, now: int, windowStart: Option<int>) returns (cards: seq<Card>)
    requires cfg.round > 0
    ensures Ranked(cards) && |cards| == |Subjects(rows)|
    ensures BestFirst(cards)
    ensures forall s :: s in Subjects(rows) ==>
        ItemsOf(rows, s) != [] && CardIn(rows, s, cfg, now, windowStart) in cards
    ensures forall c :: c in cards ==> c.subject in Subjects(rows)
  {
    hide CardOf, RankedBefore, BestFirst;
    var unavailable := UnavailableRounds(rows, cfg, now);
    var grouped := GroupRows(rows);
    cards := [];
    var rest := grouped.Keys;
    while rest != {}
      invariant rest <= grouped.Keys && Ranked(cards) && |cards| + |rest| == |Subjects(rows)|
      invariant forall c :: c in cards ==> c.subject in grouped.Keys - rest
      invariant forall c :: c in cards && c.eligible ==> c.adjustedBrier.Some?
      invariant forall s ::
          s in grouped && s !in rest ==> ItemsOf(rows, s) != [] && CardIn(rows, s, cfg, now, windowStart) in cards
      decreases |rest|
    {
      var subject :| subject in rest;
      rest := rest - {subject};
      SubjectHasItems(rows, subject);
      var card := MakeCard(subject, grouped[subject], cfg, now, unavailable, windowStart);
      cards := InsertRanked(cards, card);
    }
    RankedIsBestFirst(cards);
  }
}

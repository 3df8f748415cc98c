/** The token cost of a run's model turns (billing/pricing.py), in atomic USDC. */
module Pricing {
  import opened Common
  import Arithmetic
  import Totals

  datatype Rule = Rule(id: Id, runPrice: int, inRate: int, outRate: int, toolCost: int)

  datatype Turn = Turn(provider: Id, model: Id, tokensIn: int, tokensOut: int, cacheWrites: int,
                       upstreamCost: Option<real>)

  /** The price table of a run, by provider and model, and the settings of upstream-cost billing. */
  datatype Prices = Prices(rules: map<(Id, Id), Rule>, upstreamBilling: bool, openRouter: Id, multiplier: real)

  /** Rule ids are primary keys. */
  predicate KeysFine(prices: Prices) {
    forall a, b :: a in prices.rules && b in prices.rules && prices.rules[a].id == prices.rules[b].id ==>
        prices.rules[a] == prices.rules[b]
  }

  predicate FlatRate(rule: Rule) {
    rule.inRate <= 0 && rule.outRate <= 0 && rule.toolCost <= 0
  }

  /** Four times the cost in thousandths, so that the quarter premium on cache writes stays exact. */
  function Scaled(rule: Rule, tokensIn: int, tokensOut: int, cacheWrites: int): int {
    4 * (tokensIn * rule.inRate + tokensOut * rule.outRate) + Max(0, cacheWrites) * rule.inRate
  }

  function CeilDiv(x: int, d: int): int
    requires d > 0
  {
    -((-x) / d)
  }

  function PerUnitCost(rule: Rule, tokensIn: int, tokensOut: int, cacheWrites: int): int {
    CeilDiv(Scaled(rule, tokensIn, tokensOut, cacheWrites), 4000)
  }

  function CeilReal(x: real): int {
    -((-x).Floor)
  }

  function UpstreamCost(prices: Prices, t: Turn): Option<int> {
    if prices.upstreamBilling && t.provider == prices.openRouter && t.upstreamCost.Some? && t.upstreamCost.value >= 0.0
    then Some(CeilReal(t.upstreamCost.value * prices.multiplier * 1_000_000.0))
    else None
  }

  function RuleFor(prices: Prices, t: Turn): Option<Rule> {
    if (t.provider, t.model) in prices.rules then Some(prices.rules[(t.provider, t.model)]) else None
  }

  /** The turn is priced by a flat rule. */
  predicate Flat(prices: Prices, t: Turn) {
    UpstreamCost(prices, t) == None && RuleFor(prices, t).Some? && FlatRate(RuleFor(prices, t).value)
  }

  /** What a turn costs by itself; a flat rule is charged by the run, not by the turn. */
  function Metered(prices: Prices, t: Turn): int {
    if UpstreamCost(prices, t).Some? then UpstreamCost(prices, t).value
    else if RuleFor(prices, t).None? || Flat(prices, t) then 0
    else PerUnitCost(RuleFor(prices, t).value, t.tokensIn, t.tokensOut, t.cacheWrites)
  }

  function MeteredTotal(prices: Prices, turns: seq<Turn>): int
    decreases |turns|
  {
    if turns == [] then 0 else MeteredTotal(prices, turns[..|turns| - 1]) + Metered(prices, turns[|turns| - 1])
  }

  function FlatPrices(prices: Prices, turns: seq<Turn>): map<Id, int>
    decreases |turns|
  {
    if turns == [] then map[]
    else
      var before, t := FlatPrices(prices, turns[..|turns| - 1]), turns[|turns| - 1];
      if Flat(prices, t) then before[RuleFor(prices, t).value.id := RuleFor(prices, t).value.runPrice] else before
  }

  function Price(): int -> int {
    (p: int) => p
  }

  ghost function Cost(prices: Prices, turns: seq<Turn>): int {
    MeteredTotal(prices, turns) + Totals.Total(FlatPrices(prices, turns), Price())
  }

  /** The accumulating loop with its dictionary of flat prices. */
  method CalculateTurns(prices: Prices, turns: seq<Turn>) returns (cost: int)
    ensures cost == Cost(prices, turns)
  {
    var perUnit := 0;
    var flat: map<Id, int> := map[];
    for i := 0 to |turns|
      invariant perUnit == MeteredTotal(prices, turns[..i]) && flat == FlatPrices(prices, turns[..i])
    {
      var t := turns[i];
      assert turns[..i + 1][..i] == turns[..i];
      var upstream := UpstreamCost(prices, t);
      if upstream.Some? {
        perUnit := perUnit + upstream.value;
        continue;
      }
      var rule := RuleFor(prices, t);
      if rule.None? {
        continue;
      }
      if FlatRate(rule.value) {
        flat := flat[rule.value.id := rule.value.runPrice];
      } else {
        perUnit := perUnit + PerUnitCost(rule.value, t.tokensIn, t.tokensOut, t.cacheWrites);
      }
    }
    assert turns[..|turns|] == turns;
    var flatTotal := Totals.Sum(flat, Price());
    cost := perUnit + flatTotal;
  }

  /* ---- rounding ---- */

  /** The ceiling: the least whole number of units that covers x. */
  lemma CeilDivIsLeast(x: int, d: int, c: int)
    requires d > 0
    ensures CeilDiv(x, d) * d >= x
    ensures c * d >= x ==> c >= CeilDiv(x, d)
  {
    var q := (-x) / d;
    assert -x == q * d + (-x) % d;
    assert CeilDiv(x, d) * d == -(q * d);
    if c * d >= x && c < -q {
      Arithmetic.TimesGrows(c, -q - 1, d);
    }
  }

  /** Rounding two parts up costs at least rounding the whole, and at most one unit more. */
  lemma CeilOfParts(x: int, y: int, d: int)
    requires d > 0
    ensures CeilDiv(x + y, d) <= CeilDiv(x, d) + CeilDiv(y, d) <= CeilDiv(x + y, d) + 1
  {
    CeilDivIsLeast(x, d, 0);
    CeilDivIsLeast(y, d, 0);
    CeilDivIsLeast(x + y, d, CeilDiv(x, d) + CeilDiv(y, d));
    var a, b, c := CeilDiv(x, d), CeilDiv(y, d), CeilDiv(x + y, d);
    assert (a + b) * d == a * d + b * d;
    CeilDivIsLeast(x, d, c + 1 - b);
    assert (c + 1 - b) * d == c * d + d - b * d;
    CeilIsWithinOne(y, d);
  }

  lemma CeilIsWithinOne(x: int, d: int)
    requires d > 0
    ensures CeilDiv(x, d) * d < x + d
  {
    assert -x == ((-x) / d) * d + (-x) % d;
    assert CeilDiv(x, d) * d == -(((-x) / d) * d);
  }

  lemma ScaledAdds(rule: Rule, a: Turn, b: Turn)
    requires a.cacheWrites >= 0 && b.cacheWrites >= 0
    ensures Scaled(rule, a.tokensIn + b.tokensIn, a.tokensOut + b.tokensOut, a.cacheWrites + b.cacheWrites)
            == Scaled(rule, a.tokensIn, a.tokensOut, a.cacheWrites)
                + Scaled(rule, b.tokensIn, b.tokensOut, b.cacheWrites)
  {
    Distribute(a.tokensIn, b.tokensIn, rule.inRate);
    Distribute(a.tokensOut, b.tokensOut, rule.outRate);
    Distribute(a.cacheWrites, b.cacheWrites, rule.inRate);
  }

  lemma Distribute(a: int, b: int, r: int)
    ensures (a + b) * r == a * r + b * r
  {
  }

  /** The counts of two turns priced by the same rule, taken together. */
  predicate Splits(prices: Prices, whole: Turn, a: Turn, b: Turn) {
    && a.provider == b.provider == whole.provider && a.model == b.model == whole.model
    && UpstreamCost(prices, whole) == UpstreamCost(prices, a) == UpstreamCost(prices, b) == None
    && a.cacheWrites >= 0 && b.cacheWrites >= 0
    && whole.tokensIn == a.tokensIn + b.tokensIn && whole.tokensOut == a.tokensOut + b.tokensOut
    && whole.cacheWrites == a.cacheWrites + b.cacheWrites
  }

  lemma {:induction false} TotalsOfConcat(prices: Prices, a: seq<Turn>, b: seq<Turn>)
    ensures MeteredTotal(prices, a + b) == MeteredTotal(prices, a) + MeteredTotal(prices, b)
    ensures FlatPrices(prices, a + b) == FlatPrices(prices, a) + FlatPrices(prices, b)
    decreases |b|
  {
    if b == [] {
      assert a + b == a;
    } else {
      assert (a + b)[..|a + b| - 1] == a + b[..|b| - 1];
      TotalsOfConcat(prices, a, b[..|b| - 1]);
    }
  }

  /** Splitting a turn in two, anywhere in a run, never lowers the cost and raises it by at most one
      atomic unit. */
  lemma SplittingCostsAtMostOne(prices: Prices, before: seq<Turn>, whole: Turn, a: Turn, b: Turn, after: seq<Turn>)
    requires Splits(prices, whole, a, b)
    ensures Cost(prices, before + [whole] + after) <= Cost(prices, before + [a, b] + after) <= Cost(prices,
        before + [whole] + after) + 1
  {
    TotalsOfConcat(prices, before + [whole], after);
    TotalsOfConcat(prices, before, [whole]);
    TotalsOfConcat(prices, before + [a, b], after);
    TotalsOfConcat(prices, before, [a, b]);
    TotalsOfConcat(prices, [a], [b]);
    assert [a] + [b] == [a, b];
    SingleTurn(prices, whole);
    SingleTurn(prices, a);
    SingleTurn(prices, b);
    assert FlatPrices(prices, [a, b]) == FlatPrices(prices, [whole]);
    if RuleFor(prices, whole).Some? {
      var rule := RuleFor(prices, whole).value;
      ScaledAdds(rule, a, b);
      CeilOfParts(Scaled(rule, a.tokensIn, a.tokensOut, a.cacheWrites),
                  Scaled(rule, b.tokensIn, b.tokensOut, b.cacheWrites), 4000);
    }
  }

  lemma SingleTurn(prices: Prices, t: Turn)
    ensures MeteredTotal(prices, [t]) == Metered(prices, t)
    ensures FlatPrices(prices, [t]) ==
        if Flat(prices, t) then map[RuleFor(prices, t).value.id := RuleFor(prices, t).value.runPrice] else map[]
  {
    assert [t][..0] == [];
  }

  /* ---- what one more turn costs ---- */

  /** The turn is billed by what the upstream provider reports. */
  predicate BilledUpstream(prices: Prices, t: Turn) {
    prices.upstreamBilling && t.provider == prices.openRouter && t.upstreamCost.Some? && t.upstreamCost.value >= 0.0
  }

  lemma CeilRealIsLeast(x: real)
    ensures CeilReal(x) as real - 1.0 < x <= CeilReal(x) as real
  {
  }

  lemma OneMoreTurn(prices: Prices, turns: seq<Turn>, t: Turn)
    requires !Flat(prices, t)
    ensures Cost(prices, turns + [t]) == Cost(prices, turns) + Metered(prices, t)
  {
    TotalsOfConcat(prices, turns, [t]);
    SingleTurn(prices, t);
    assert FlatPrices(prices, turns + [t]) == FlatPrices(prices, turns);
  }

  /** A turn billed upstream adds the least whole number of units that covers the reported dollars
      times the multiplier, at a million units a dollar. */
  lemma UpstreamTurnAdds(prices: Prices, turns: seq<Turn>, t: Turn)
    requires BilledUpstream(prices, t)
    ensures var units := (Cost(prices, turns + [t]) - Cost(prices, turns)) as real;
            units - 1.0 < t.upstreamCost.value * prices.multiplier * 1_000_000.0 <= units
  {
    OneMoreTurn(prices, turns, t);
    CeilRealIsLeast(t.upstreamCost.value * prices.multiplier * 1_000_000.0);
  }

  /** Any other turn adds, by its rule, the least whole number of units that covers a thousandth of
      the input tokens at the input rate, the output tokens at the output rate and a quarter of the
      cache writes at the input rate; without a rule it adds nothing. */
  lemma MeteredTurnAdds(prices: Prices, turns: seq<Turn>, t: Turn)
    requires !BilledUpstream(prices, t)
    requires (t.provider, t.model) in prices.rules ==>
        var rule := prices.rules[(t.provider, t.model)]; rule.inRate > 0 || rule.outRate > 0 || rule.toolCost > 0
    ensures var units := Cost(prices, turns + [t]) - Cost(prices, turns);
            if (t.provider, t.model) in prices.rules
            then var rule := prices.rules[(t.provider, t.model)];
                 4000 * units - 4000
                 < 4 * (t.tokensIn * rule.inRate) + 4 * (t.tokensOut * rule.outRate)
                   + (if t.cacheWrites > 0 then t.cacheWrites else 0) * rule.inRate
                 <= 4000 * units
            else units == 0
  {
    OneMoreTurn(prices, turns, t);
    if (t.provider, t.model) in prices.rules {
      var rule := prices.rules[(t.provider, t.model)];
      var scaled := Scaled(rule, t.tokensIn, t.tokensOut, t.cacheWrites);
      CeilDivIsLeast(scaled, 4000, 0);
      CeilIsWithinOne(scaled, 4000);
    }
  }

  /* ---- order and flat rules ---- */

  predicate UsesFlat(prices: Prices, turns: seq<Turn>, id: Id, price: int) {
    exists t :: t in turns && Flat(prices, t) && RuleFor(prices, t).value.id == id
        && RuleFor(prices, t).value.runPrice == price
  }

  predicate Charges(flat: map<Id, int>, id: Id, price: int) {
    id in flat && flat[id] == price
  }

  /** The dictionary holds each flat rule that some turn used, once, at its price. */
  lemma {:induction false} FlatPricesAre(prices: Prices, turns: seq<Turn>, id: Id, price: int)
    requires KeysFine(prices)
    ensures Charges(FlatPrices(prices, turns), id, price) <==> UsesFlat(prices, turns, id, price)
    decreases |turns|
  {
    if turns != [] {
      var last := turns[|turns| - 1];
      FlatPricesAre(prices, turns[..|turns| - 1], id, price);
      assert turns == turns[..|turns| - 1] + [last];
      if Flat(prices, last) && RuleFor(prices, last).value.id == id {
        forall t | t in turns && Flat(prices, t) && RuleFor(prices, t).value.id == id
            ensures RuleFor(prices, t) == RuleFor(prices, last) {
          assert (t.provider, t.model) in prices.rules && (last.provider, last.model) in prices.rules;
        }
      }
    }
  }

  lemma WithoutOne(a: seq<Turn>, b: seq<Turn>, t: Turn, i: nat)
    requires i < |b| && b[i] == t && multiset(a + [t]) == multiset(b)
    ensures multiset(a) == multiset(b[..i] + b[i + 1..])
  {
    assert b == b[..i] + [t] + b[i + 1..];
    assert multiset(a + [t]) == multiset(a) + multiset{t};
    assert multiset(b[..i] + [t] + b[i + 1..]) == multiset(b[..i] + b[i + 1..]) + multiset{t};
    var rest := multiset(b[..i] + b[i + 1..]);
    assert multiset(a) == multiset(a) + multiset{t} - multiset{t} == rest + multiset{t} - multiset{t} == rest;
  }

  lemma {:induction false} MeteredOfPermutation(prices: Prices, a: seq<Turn>, b: seq<Turn>)
    requires multiset(a) == multiset(b)
    ensures MeteredTotal(prices, a) == MeteredTotal(prices, b)
    decreases |a|
  {
    if a == [] {
      assert |multiset(b)| == |b| == |multiset(a)| == 0;
    } else {
      var last := a[|a| - 1];
      assert a == a[..|a| - 1] + [last];
      assert last in multiset(a) && last in b;
      var i :| 0 <= i < |b| && b[i] == last;
      assert b == b[..i] + [last] + b[i + 1..];
      WithoutOne(a[..|a| - 1], b, last, i);
      MeteredOfPermutation(prices, a[..|a| - 1], b[..i] + b[i + 1..]);
      TotalsOfConcat(prices, b[..i] + [last], b[i + 1..]);
      TotalsOfConcat(prices, b[..i], [last]);
      TotalsOfConcat(prices, b[..i], b[i + 1..]);
      SingleTurn(prices, last);
    }
  }

  /** The cost of a run does not depend on the order of its turns. */
  lemma OrderDoesNotMatter(prices: Prices, a: seq<Turn>, b: seq<Turn>)
    requires KeysFine(prices) && multiset(a) == multiset(b)
    ensures Cost(prices, a) == Cost(prices, b)
  {
    MeteredOfPermutation(prices, a, b);
    var flatA, flatB := FlatPrices(prices, a), FlatPrices(prices, b);
    assert forall t :: t in a <==> t in multiset(a);
    assert forall t :: t in b <==> t in multiset(b);
    forall id, price ensures Charges(flatA, id, price) <==> Charges(flatB, id, price) {
      FlatPricesAre(prices, a, id, price);
      FlatPricesAre(prices, b, id, price);
    }
    SameCharges(flatA, flatB);
  }

  lemma SameCharges(a: map<Id, int>, b: map<Id, int>)
    requires forall id, price :: Charges(a, id, price) <==> Charges(b, id, price)
    ensures a == b
  {
    forall id | id in a ensures id in b && b[id] == a[id] {
      assert Charges(a, id, a[id]);
    }
    forall id | id in b ensures id in a {
      assert Charges(b, id, b[id]);
    }
  }

  lemma SameIdSameRule(prices: Prices, turns: seq<Turn>, t: Turn)
    requires KeysFine(prices) && Flat(prices, t)
    ensures var rule := RuleFor(prices, t).value;
            rule.id in FlatPrices(prices, turns) ==> FlatPrices(prices, turns)[rule.id] == rule.runPrice
  {
    var rule, flat := RuleFor(prices, t).value, FlatPrices(prices, turns);
    if rule.id in flat {
      FlatPricesAre(prices, turns, rule.id, flat[rule.id]);
      var other :| other in turns && Flat(prices, other) && RuleFor(prices, other).value.id == rule.id
                   && RuleFor(prices, other).value.runPrice == flat[rule.id];
      assert (t.provider, t.model) in prices.rules && (other.provider, other.model) in prices.rules;
    }
  }

  /** A turn under a flat rule adds its price the first time the rule is used, and nothing after. */
  lemma FlatRuleIsChargedOnce(prices: Prices, turns: seq<Turn>, t: Turn)
    requires KeysFine(prices) && !BilledUpstream(prices, t) && (t.provider, t.model) in prices.rules
    requires var rule := prices.rules[(t.provider, t.model)];
             rule.inRate <= 0 && rule.outRate <= 0 && rule.toolCost <= 0
    ensures var rule := prices.rules[(t.provider, t.model)];
            Cost(prices, turns + [t]) == Cost(prices, turns) +
                if UsesFlat(prices, turns, rule.id, rule.runPrice) then 0 else rule.runPrice
  {
    var rule := RuleFor(prices, t).value;
    assert (turns + [t])[..|turns|] == turns;
    var before := FlatPrices(prices, turns);
    FlatPricesAre(prices, turns, rule.id, rule.runPrice);
    SameIdSameRule(prices, turns, t);
    Totals.TotalUpdate(before, Price(), rule.id, rule.runPrice);
    assert FlatPrices(prices, turns + [t]) == before[rule.id := rule.runPrice];
    if rule.id in before {
      assert Totals.Total(before[rule.id := rule.runPrice], Price()) == Totals.Total(before, Price());
    } else {
      assert Totals.Total(before[rule.id := rule.runPrice], Price()) == Totals.Total(before, Price()) + rule.runPrice;
    }
    assert MeteredTotal(prices, turns + [t]) == MeteredTotal(prices, turns);
  }
}

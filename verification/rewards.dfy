/** The reward table: for every pillar, what a holder delegating `myBalance`
    ZNN to it can expect per day from momentum rewards and from delegation
    rewards, ranked by the total. */
module Rewards {
  import opened Outcomes
  import opened Seqs
  import opened Sorting
  import opened Emission
  import opened Allocation

  /** Share of the daily emission paid for producing momentums. */
  const PillarRewards: real := 0.5
  /** Share of the daily emission paid to delegators. */
  const DelegationRewards: real := 0.24
  /** Raw weights are in units of 1e-8 ZNN. */
  const WeightUnit: nat := 100000000
  /** Days the simulator is run for (its default). */
  const SimulationDays: nat := 2

  /** A pillar as the node reports it. */
  datatype Pillar = Pillar(
    name: string,
    giveMomentumRewardPercentage: nat,
    giveDelegateRewardPercentage: nat,
    producedMomentums: nat,
    expectedMomentums: nat,
    weight: nat)

  /** A pillar with its produced rate, effective weight and rank. */
  datatype Ranked = Ranked(pillar: Pillar, producedRate: real, weight: int, pillarRank: nat)

  /** A finished row of the reward table. */
  datatype Row = Row(
    pillar: Pillar,
    producedRate: real,
    weight: int,
    pillarRank: nat,
    epochExpectedMomentums: nat,
    epochExpectedMomentumRewards: real,
    momentumRewardsForMe: real,
    delegationRewardsForMe: real,
    epochRewardsForMe: real)

  /** round(raw / 1e8): the nearest whole ZNN, halves going to the even neighbour. */
  function ScaledWeight(raw: nat): (w: nat)
    ensures -(WeightUnit as int) <= 2 * (raw - w * WeightUnit) <= WeightUnit
    ensures 2 * (raw - w * WeightUnit) == WeightUnit ==> w % 2 == 0
    ensures 2 * (raw - w * WeightUnit) == -(WeightUnit as int) ==> w % 2 == 0
  {
    var q := raw / WeightUnit;
    var rem := raw % WeightUnit;
    if 2 * rem < WeightUnit then q
    else if 2 * rem > WeightUnit then q + 1
    else if q % 2 == 0 then q
    else q + 1
  }

  /** A weight of exactly `z` ZNN scales to `z`: rounding leaves whole numbers alone. */
  lemma ScaledWeightOfWholeZnn(z: nat)
    ensures ScaledWeight(z * WeightUnit) == z
  {
  }

  /** producedMomentums / expectedMomentums. */
  function ProducedRate(p: Pillar): (r: real)
    requires p.expectedMomentums > 0
    ensures r * p.expectedMomentums as real == p.producedMomentums as real
    ensures r >= 0.0
    ensures r > 0.0 <==> p.producedMomentums > 0
  {
    p.producedMomentums as real / p.expectedMomentums as real
  }

  /** The pillar's weight once the holder's balance is added, except on the
      pillar the holder already delegates to, whose weight includes it. */
  function EffectiveWeight(p: Pillar, myBalance: int, currentPillar: string): (w: int)
    ensures p.name == currentPillar ==> w == ScaledWeight(p.weight)
    ensures p.name != currentPillar ==> w == ScaledWeight(p.weight) + myBalance
    ensures myBalance >= 0 ==> w >= ScaledWeight(p.weight)
  {
    if p.name == currentPillar then ScaledWeight(p.weight) else ScaledWeight(p.weight) + myBalance
  }

  /** Every pillar has been asked to produce at least once. */
  predicate AllExpecting(pillars: seq<Pillar>)
  {
    forall i :: 0 <= i < |pillars| ==> pillars[i].expectedMomentums > 0
  }

  /** The input row at position `i`, with rank `i + 1`: the weight sort keeps
      row labels, so the rank is the row's position in the node's list. */
  function RankedAt(pillars: seq<Pillar>, i: int, myBalance: int, currentPillar: string): (x: Ranked)
    requires AllExpecting(pillars) && 0 <= i < |pillars|
  {
    Ranked(pillars[i], ProducedRate(pillars[i]), EffectiveWeight(pillars[i], myBalance, currentPillar), i + 1)
  }

  function RankedRank(x: Ranked): int { x.pillarRank }
  function RowRank(x: Row): int { x.pillarRank }
  function WeightKey(x: Ranked): real { x.weight as real }
  function WeightOf(x: Ranked): int { x.weight }
  function RewardKey(x: Row): real { x.epochRewardsForMe }
  function ActiveIndicator(x: Ranked): int { if x.producedRate > 0.0 then 1 else 0 }

  /** All pillars in input order, with rate, effective weight and rank. */
  function RankPillars(pillars: seq<Pillar>, myBalance: int, currentPillar: string): (r: seq<Ranked>)
    requires AllExpecting(pillars)
    ensures |r| == |pillars|
    ensures DistinctKeys(r, RankedRank)
    ensures forall i :: 0 <= i < |r| ==> 1 <= r[i].pillarRank <= |pillars| && r[i].pillar == pillars[r[i].pillarRank - 1]
  {
    seq(|pillars|, i requires 0 <= i < |pillars| => RankedAt(pillars, i, myBalance, currentPillar))
  }

  /** The rows after `sort_values('weight', ascending=False)`. */
  function WeightOrder(pillars: seq<Pillar>, myBalance: int, currentPillar: string): (r: seq<Ranked>)
    requires AllExpecting(pillars)
    ensures SortedDesc(r, WeightKey)
    ensures multiset(r) == multiset(RankPillars(pillars, myBalance, currentPillar))
  {
    SortDesc(RankPillars(pillars, myBalance, currentPillar), WeightKey)
  }

  /** Sum of the effective weights of all rows. */
  function TotalWeight(rows: seq<Ranked>): int
  {
    SumBy(rows, WeightOf)
  }

  /** Number of rows whose produced rate is positive. */
  function ActiveCount(rows: seq<Ranked>): (n: nat)
    ensures n == |ActivePositions(rows)|
    ensures n <= |rows|
    ensures n == |rows| <==> forall i :: 0 <= i < |rows| ==> rows[i].producedRate > 0.0
    ensures n == 0 <==> forall i :: 0 <= i < |rows| ==> rows[i].producedRate <= 0.0
  {
    ActiveSumCountsActiveRows(rows);
    SumBy(rows, ActiveIndicator)
  }

  /** Positions of the rows whose produced rate is positive. */
  function ActivePositions(rows: seq<Ranked>): set<int>
  {
    set i | 0 <= i < |rows| && rows[i].producedRate > 0.0
  }

  /** Adding one per producing row counts the producing positions. */
  lemma {:induction false} ActiveSumCountsActiveRows(rows: seq<Ranked>)
    ensures SumBy(rows, ActiveIndicator) == |ActivePositions(rows)| <= |rows|
    ensures SumBy(rows, ActiveIndicator) == |rows| <==> forall i :: 0 <= i < |rows| ==> rows[i].producedRate > 0.0
    ensures SumBy(rows, ActiveIndicator) == 0 <==> forall i :: 0 <= i < |rows| ==> rows[i].producedRate <= 0.0
  {
    if |rows| > 0 {
      var m := |rows| - 1;
      var front := rows[..m];
      ActiveSumCountsActiveRows(front);
      assert forall i :: 0 <= i < m ==> rows[i] == front[i];
      assert m !in ActivePositions(front);
      if rows[m].producedRate > 0.0 {
        assert ActivePositions(rows) == ActivePositions(front) + {m};
      } else {
        assert ActivePositions(rows) == ActivePositions(front);
      }
    }
  }

  /** The count of producing pillars does not depend on the weight sort. */
  lemma ActiveCountIgnoresOrder(pillars: seq<Pillar>, myBalance: int, currentPillar: string)
    requires AllExpecting(pillars)
    ensures ActiveCount(WeightOrder(pillars, myBalance, currentPillar))
         == ActiveCount(RankPillars(pillars, myBalance, currentPillar))
  {
    SortKeepsSumBy(RankPillars(pillars, myBalance, currentPillar), WeightKey, ActiveIndicator);
  }

  /** The simulator is given the number of input pillars that produced at
      least one momentum. */
  lemma ActiveCountIsProducingPillars(pillars: seq<Pillar>, myBalance: int, currentPillar: string)
    requires AllExpecting(pillars)
    ensures ActiveCount(WeightOrder(pillars, myBalance, currentPillar))
         == |set i | 0 <= i < |pillars| && pillars[i].producedMomentums > 0|
  {
    ActiveCountIgnoresOrder(pillars, myBalance, currentPillar);
    ProducingPositions(pillars, myBalance, currentPillar);
  }

  /** A ranked row is active exactly when its pillar produced something. */
  lemma ProducingPositions(pillars: seq<Pillar>, myBalance: int, currentPillar: string)
    requires AllExpecting(pillars)
    ensures ActivePositions(RankPillars(pillars, myBalance, currentPillar))
         == set i | 0 <= i < |pillars| && pillars[i].producedMomentums > 0
  {
  }

  /** The whole-network weight does not depend on the weight sort. */
  lemma TotalWeightIgnoresOrder(pillars: seq<Pillar>, myBalance: int, currentPillar: string)
    requires AllExpecting(pillars)
    ensures TotalWeight(WeightOrder(pillars, myBalance, currentPillar))
         == TotalWeight(RankPillars(pillars, myBalance, currentPillar))
  {
    SortKeepsSumBy(RankPillars(pillars, myBalance, currentPillar), WeightKey, WeightOf);
  }

  /** Reward for one momentum: half the daily emission spread over the day's momentums. */
  function MomentumReward(dailyRewards: nat): (r: real)
    ensures r * MomentumsPerDay as real == dailyRewards as real * PillarRewards
    ensures r >= 0.0
  {
    dailyRewards as real * PillarRewards / MomentumsPerDay as real
  }

  /** The reward columns of one row. */
  function RowOf(x: Ranked, tiers: ExpectedMomentums, dailyRewards: nat, myBalance: int, totalWeight: int): (row: Row)
    requires x.weight != 0 && totalWeight != 0
    ensures row.pillar == x.pillar && row.pillarRank == x.pillarRank && row.weight == x.weight
    ensures row.producedRate == x.producedRate
    ensures row.epochExpectedMomentums == if x.pillarRank <= TopTierSize then tiers.topThirty else tiers.others
    ensures row.epochExpectedMomentumRewards * MomentumsPerDay as real
         == row.epochExpectedMomentums as real * x.producedRate * dailyRewards as real * PillarRewards
    ensures row.momentumRewardsForMe * x.weight as real
         == row.epochExpectedMomentumRewards * (x.pillar.giveMomentumRewardPercentage as real / 100.0) * myBalance as real
    ensures row.delegationRewardsForMe * totalWeight as real
         == dailyRewards as real * DelegationRewards * myBalance as real * (x.pillar.giveDelegateRewardPercentage as real / 100.0)
    ensures row.epochRewardsForMe == row.momentumRewardsForMe + row.delegationRewardsForMe
  {
    var epochExpectedMomentums := if x.pillarRank <= TopTierSize then tiers.topThirty else tiers.others;
    var epochExpectedMomentumRewards := epochExpectedMomentums as real * x.producedRate * MomentumReward(dailyRewards);
    var momentumRewardsForMe := epochExpectedMomentumRewards
                                * (x.pillar.giveMomentumRewardPercentage as real / 100.0)
                                * (myBalance as real / x.weight as real);
    var delegationRewardsForMe := dailyRewards as real * DelegationRewards * myBalance as real / totalWeight as real
                                  * (x.pillar.giveDelegateRewardPercentage as real / 100.0);
    Row(x.pillar, x.producedRate, x.weight, x.pillarRank,
        epochExpectedMomentums, epochExpectedMomentumRewards,
        momentumRewardsForMe, delegationRewardsForMe,
        momentumRewardsForMe + delegationRewardsForMe)
  }

  /** The divisions of the reward formula are all defined. */
  predicate Computable(pillars: seq<Pillar>, myBalance: int, currentPillar: string)
  {
    && AllExpecting(pillars)
    && (forall i :: 0 <= i < |pillars| ==> EffectiveWeight(pillars[i], myBalance, currentPillar) != 0)
    && TotalWeight(RankPillars(pillars, myBalance, currentPillar)) != 0
  }

  /** The row the table holds for the pillar at input position `i`. */
  function RowFor(pillars: seq<Pillar>, i: int, myBalance: int, currentPillar: string,
                  dailyRewards: nat, tiers: ExpectedMomentums): Row
    requires Computable(pillars, myBalance, currentPillar) && 0 <= i < |pillars|
  {
    RowOf(RankedAt(pillars, i, myBalance, currentPillar), tiers, dailyRewards, myBalance,
          TotalWeight(RankPillars(pillars, myBalance, currentPillar)))
  }

  /** The reward table, ordered by expected reward, largest first. */
  function RewardTable(pillars: seq<Pillar>, myBalance: int, currentPillar: string,
                       dailyRewards: nat, tiers: ExpectedMomentums): (rows: seq<Row>)
    requires Computable(pillars, myBalance, currentPillar)
    ensures |rows| == |pillars|
    ensures SortedDesc(rows, RewardKey)
    ensures DistinctKeys(rows, RowRank)
    ensures forall x :: x in rows ==>
              && 1 <= x.pillarRank <= |pillars|
              && x == RowFor(pillars, x.pillarRank - 1, myBalance, currentPillar, dailyRewards, tiers)
    ensures forall i :: 0 <= i < |pillars| ==>
              RowFor(pillars, i, myBalance, currentPillar, dailyRewards, tiers) in rows
    ensures forall x :: x in rows ==>
              && x.pillar == pillars[x.pillarRank - 1]
              && x.weight == EffectiveWeight(x.pillar, myBalance, currentPillar)
              && x.epochExpectedMomentums == (if x.pillarRank <= TopTierSize then tiers.topThirty else tiers.others)
              && x.epochRewardsForMe == x.momentumRewardsForMe + x.delegationRewardsForMe
  {
    var ranked := RankPillars(pillars, myBalance, currentPillar);
    var byWeight := WeightOrder(pillars, myBalance, currentPillar);
    var total := TotalWeight(byWeight);
    TotalWeightIgnoresOrder(pillars, myBalance, currentPillar);
    SortedWeightsNonZero(pillars, myBalance, currentPillar);
    var computed := seq(|byWeight|, i requires 0 <= i < |byWeight| => RowOf(byWeight[i], tiers, dailyRewards, myBalance, total));
    var rows := SortDesc(computed, RewardKey);
    assert BuiltFrom(pillars, myBalance, currentPillar, dailyRewards, tiers, byWeight, computed);
    RewardTableFacts(pillars, myBalance, currentPillar, dailyRewards, tiers, byWeight, computed, rows);
    rows
  }

  /** No weight-sorted row has a zero effective weight. */
  lemma SortedWeightsNonZero(pillars: seq<Pillar>, myBalance: int, currentPillar: string)
    requires Computable(pillars, myBalance, currentPillar)
    ensures forall i :: 0 <= i < |WeightOrder(pillars, myBalance, currentPillar)| ==>
              WeightOrder(pillars, myBalance, currentPillar)[i].weight != 0
  {
    var ranked := RankPillars(pillars, myBalance, currentPillar);
    var byWeight := WeightOrder(pillars, myBalance, currentPillar);
    forall i | 0 <= i < |byWeight|
      ensures byWeight[i].weight != 0
    {
      assert byWeight[i] in multiset(ranked);
      var k :| 0 <= k < |ranked| && ranked[k] == byWeight[i];
      assert ranked[k] == RankedAt(pillars, k, myBalance, currentPillar);
    }
  }

  /** The holder's expected daily rewards from every pillar, ranked.  The
      emission lookup comes first, then the simulation over the producing
      pillars (run for two days on the supplied draws), then the table. */
  method GetRewardsPerPillar(pillars: seq<Pillar>, myBalance: int, currentPillar: string,
                             daysSinceGenesis: nat, draws: seq<Draw>)
    returns (r: Result<seq<Row>>)
    requires Computable(pillars, myBalance, currentPillar)
    requires ActiveCount(WeightOrder(pillars, myBalance, currentPillar)) >= TopTierSize ==>
               && |draws| == Rounds(SimulationDays)
               && forall d :: d in draws ==> ValidDraw(ActiveCount(WeightOrder(pillars, myBalance, currentPillar)), d)
    ensures r == Err(OutOfRange) <==> daysSinceGenesis > LastScheduledDay
    ensures r == Err(InvalidInput) <==>
              daysSinceGenesis <= LastScheduledDay
              && ActiveCount(WeightOrder(pillars, myBalance, currentPillar)) < TopTierSize
    ensures r == Err(NotANumber) <==>
              daysSinceGenesis <= LastScheduledDay
              && ActiveCount(WeightOrder(pillars, myBalance, currentPillar)) == TopTierSize
    ensures r.Ok? <==>
              daysSinceGenesis <= LastScheduledDay
              && ActiveCount(WeightOrder(pillars, myBalance, currentPillar)) > TopTierSize
    ensures r.Ok? ==>
              r.value == RewardTable(pillars, myBalance, currentPillar,
                                     DailyZnnRewards(daysSinceGenesis).value,
                                     TierAverages(WinCounts(ActiveCount(WeightOrder(pillars, myBalance, currentPillar)), draws),
                                                  SimulationDays))
  {
    var daily :- DailyZnnRewards(daysSinceGenesis);
    var active := ActiveCount(WeightOrder(pillars, myBalance, currentPillar));
    var tiers :- CalculateExpectedMomentums(active, SimulationDays, draws);
    var table := RewardTable(pillars, myBalance, currentPillar, daily, tiers);
    r := Ok(table);
  }

  /** A holder with nothing to delegate is owed nothing by any pillar. */
  lemma ZeroBalanceEarnsNothing(pillars: seq<Pillar>, currentPillar: string,
                                dailyRewards: nat, tiers: ExpectedMomentums)
    requires Computable(pillars, 0, currentPillar)
    ensures forall x :: x in RewardTable(pillars, 0, currentPillar, dailyRewards, tiers) ==>
              && x.momentumRewardsForMe == 0.0
              && x.delegationRewardsForMe == 0.0
              && x.epochRewardsForMe == 0.0
  {
    var rows := RewardTable(pillars, 0, currentPillar, dailyRewards, tiers);
    forall x | x in rows
      ensures x.momentumRewardsForMe == 0.0 && x.delegationRewardsForMe == 0.0
    {
      var k := x.pillarRank - 1;
      var y := RankedAt(pillars, k, 0, currentPillar);
      var total := TotalWeight(RankPillars(pillars, 0, currentPillar));
      assert x == RowOf(y, tiers, dailyRewards, 0, total);
      ZeroBalanceRow(y, tiers, dailyRewards, total);
    }
  }

  /** Both reward columns of a row vanish when the balance is zero. */
  lemma ZeroBalanceRow(x: Ranked, tiers: ExpectedMomentums, dailyRewards: nat, totalWeight: int)
    requires x.weight != 0 && totalWeight != 0
    ensures RowOf(x, tiers, dailyRewards, 0, totalWeight).momentumRewardsForMe == 0.0
    ensures RowOf(x, tiers, dailyRewards, 0, totalWeight).delegationRewardsForMe == 0.0
  {
  }

  /** With a non-negative balance and positive weights no reward is negative. */
  lemma RewardsNonNegative(x: Ranked, tiers: ExpectedMomentums, dailyRewards: nat,
                           myBalance: int, totalWeight: int)
    requires x.weight > 0 && totalWeight > 0 && myBalance >= 0 && x.producedRate >= 0.0
    ensures RowOf(x, tiers, dailyRewards, myBalance, totalWeight).momentumRewardsForMe >= 0.0
    ensures RowOf(x, tiers, dailyRewards, myBalance, totalWeight).delegationRewardsForMe >= 0.0
    ensures RowOf(x, tiers, dailyRewards, myBalance, totalWeight).epochRewardsForMe >= 0.0
  {
  }

  /** With the pillar's effective weight and the network's total weight held
      fixed, every reward column is additive in the balance that multiplies
      it: the two balance factors of the momentum and delegation rewards. */
  lemma RewardsAreProRata(x: Ranked, tiers: ExpectedMomentums, dailyRewards: nat,
                          balance1: int, balance2: int, totalWeight: int)
    requires x.weight != 0 && totalWeight != 0
    ensures var both := RowOf(x, tiers, dailyRewards, balance1 + balance2, totalWeight);
            var one := RowOf(x, tiers, dailyRewards, balance1, totalWeight);
            var two := RowOf(x, tiers, dailyRewards, balance2, totalWeight);
            && both.momentumRewardsForMe == one.momentumRewardsForMe + two.momentumRewardsForMe
            && both.delegationRewardsForMe == one.delegationRewardsForMe + two.delegationRewardsForMe
            && both.epochRewardsForMe == one.epochRewardsForMe + two.epochRewardsForMe
  {
  }

  /** Three pillars of 1000, 500 and 100 ZNN and a holder of 100 ZNN who
      delegates to none of them: every weight grows by 100, ranks follow the list. */
  lemma ThreePillarWeights()
    ensures var pillars := [Pillar("A", 0, 0, 1, 1, 1000 * WeightUnit),
                            Pillar("B", 0, 0, 1, 1, 500 * WeightUnit),
                            Pillar("C", 0, 0, 1, 1, 100 * WeightUnit)];
            var ranked := RankPillars(pillars, 100, "");
            && ranked[0].weight == 1100 && ranked[1].weight == 600 && ranked[2].weight == 200
            && ranked[0].pillarRank == 1 && ranked[1].pillarRank == 2 && ranked[2].pillarRank == 3
  {
  }

  /** At table level the rewards are not additive in the balance, because the
      balance also enters the weights: one pillar of 100 ZNN paying out all
      its delegation share gives a 100 ZNN holder 1728 ZNN a day (weight 200),
      but a 50 ZNN holder 1152 (weight 150), more than half of 1728. */
  lemma TableRewardsNotAdditive()
    ensures var pillars := [Pillar("A", 0, 100, 1, 1, 100 * WeightUnit)];
            var tiers := ExpectedMomentums(0, 0);
            && Computable(pillars, 100, "") && Computable(pillars, 50, "")
            && RowFor(pillars, 0, 100, "", 14400, tiers).delegationRewardsForMe == 1728.0
            && RowFor(pillars, 0, 50, "", 14400, tiers).delegationRewardsForMe == 1152.0
  {
    var pillars := [Pillar("A", 0, 100, 1, 1, 100 * WeightUnit)];
    ScaledWeightOfWholeZnn(100);
    SinglePillarTotal(pillars[0], 100);
    SinglePillarTotal(pillars[0], 50);
  }

  /** With one pillar, not the holder's current one, the network weight is
      that pillar's weight plus the balance. */
  lemma SinglePillarTotal(p: Pillar, myBalance: int)
    requires p.expectedMomentums > 0 && p.name != ""
    ensures TotalWeight(RankPillars([p], myBalance, "")) == ScaledWeight(p.weight) + myBalance
  {
    var ranked := RankPillars([p], myBalance, "");
    assert ranked == [RankedAt([p], 0, myBalance, "")];
    assert ranked[..0] == [];
    assert SumBy(ranked, WeightOf) == SumBy(ranked[..0], WeightOf) + WeightOf(ranked[0]);
  }

  /** The rank is the input position, not the weight order: with pillar A
      (100 ZNN) listed before pillar B (500 ZNN), B is sorted first yet keeps rank 2. */
  lemma RankIsInputPosition()
    ensures var pillars := [Pillar("A", 0, 0, 1, 1, 100 * WeightUnit), Pillar("B", 0, 0, 1, 1, 500 * WeightUnit)];
            var byWeight := WeightOrder(pillars, 0, "");
            && byWeight[0].pillar.name == "B" && byWeight[0].weight == 500 && byWeight[0].pillarRank == 2
            && byWeight[1].pillar.name == "A" && byWeight[1].weight == 100 && byWeight[1].pillarRank == 1
  {
    var a := Pillar("A", 0, 0, 1, 1, 100 * WeightUnit);
    var b := Pillar("B", 0, 0, 1, 1, 500 * WeightUnit);
    var pillars := [a, b];
    ScaledWeightOfWholeZnn(100);
    ScaledWeightOfWholeZnn(500);
    assert EffectiveWeight(a, 0, "") == 100;
    assert EffectiveWeight(b, 0, "") == 500;
    var ra := RankedAt(pillars, 0, 0, "");
    var rb := RankedAt(pillars, 1, 0, "");
    assert ra.weight == 100 && ra.pillarRank == 1 && ra.pillar == a;
    assert rb.weight == 500 && rb.pillarRank == 2 && rb.pillar == b;
    var ranked := RankPillars(pillars, 0, "");
    assert ranked == [ra, rb];
    assert SortDesc([rb], WeightKey) == Insert(rb, [], WeightKey) == [rb];
    assert Insert(ra, [rb], WeightKey) == [rb] + Insert(ra, [], WeightKey) == [rb, ra];
    assert ranked[1..] == [rb];
  }

  /** When the node lists pillars heaviest first, the rank is the position in
      weight order as well. */
  lemma RankIsWeightPositionWhenListedByWeight(pillars: seq<Pillar>, myBalance: int, currentPillar: string)
    requires AllExpecting(pillars)
    requires SortedDesc(RankPillars(pillars, myBalance, currentPillar), WeightKey)
    ensures forall i :: 0 <= i < |pillars| ==> WeightOrder(pillars, myBalance, currentPillar)[i].pillarRank == i + 1
  {
    SortSortedIsIdentity(RankPillars(pillars, myBalance, currentPillar), WeightKey);
  }

  /** The rows built from the weight-sorted pillars, before the final sort. */
  predicate BuiltFrom(pillars: seq<Pillar>, myBalance: int, currentPillar: string,
                      dailyRewards: nat, tiers: ExpectedMomentums,
                      byWeight: seq<Ranked>, computed: seq<Row>)
    requires Computable(pillars, myBalance, currentPillar)
  {
    && byWeight == WeightOrder(pillars, myBalance, currentPillar)
    && |computed| == |byWeight|
    && forall i :: 0 <= i < |byWeight| ==>
         byWeight[i].weight != 0 &&
         computed[i] == RowOf(byWeight[i], tiers, dailyRewards, myBalance,
                              TotalWeight(RankPillars(pillars, myBalance, currentPillar)))
  }

  /** The bookkeeping behind RewardTable's contract: following every row back
      through both sorts to the input pillar it came from. */
  lemma RewardTableFacts(pillars: seq<Pillar>, myBalance: int, currentPillar: string,
                         dailyRewards: nat, tiers: ExpectedMomentums,
                         byWeight: seq<Ranked>, computed: seq<Row>, rows: seq<Row>)
    requires Computable(pillars, myBalance, currentPillar)
    requires BuiltFrom(pillars, myBalance, currentPillar, dailyRewards, tiers, byWeight, computed)
    requires multiset(rows) == multiset(computed)
    ensures |rows| == |pillars|
    ensures DistinctKeys(rows, RowRank)
    ensures forall x :: x in rows ==>
              && 1 <= x.pillarRank <= |pillars|
              && x == RowFor(pillars, x.pillarRank - 1, myBalance, currentPillar, dailyRewards, tiers)
    ensures forall i :: 0 <= i < |pillars| ==>
              RowFor(pillars, i, myBalance, currentPillar, dailyRewards, tiers) in rows
  {
    assert |rows| == |computed| by {
      assert |multiset(rows)| == |multiset(computed)|;
    }
    RowRanksDistinct(pillars, myBalance, currentPillar, dailyRewards, tiers, byWeight, computed, rows);
    forall x | x in rows
      ensures 1 <= x.pillarRank <= |pillars|
      ensures x == RowFor(pillars, x.pillarRank - 1, myBalance, currentPillar, dailyRewards, tiers)
    {
      assert x in multiset(computed);
      var i :| 0 <= i < |computed| && computed[i] == x;
      RowTracesBack(pillars, myBalance, currentPillar, dailyRewards, tiers, byWeight, computed, i);
    }
    forall k | 0 <= k < |pillars|
      ensures RowFor(pillars, k, myBalance, currentPillar, dailyRewards, tiers) in rows
    {
      var i := PillarIsBuilt(pillars, myBalance, currentPillar, dailyRewards, tiers, byWeight, computed, k);
      assert computed[i] in multiset(rows);
    }
  }

  /** Ranks stay distinct through the weight sort, the row building and the reward sort. */
  lemma RowRanksDistinct(pillars: seq<Pillar>, myBalance: int, currentPillar: string,
                         dailyRewards: nat, tiers: ExpectedMomentums,
                         byWeight: seq<Ranked>, computed: seq<Row>, rows: seq<Row>)
    requires Computable(pillars, myBalance, currentPillar)
    requires BuiltFrom(pillars, myBalance, currentPillar, dailyRewards, tiers, byWeight, computed)
    requires multiset(rows) == multiset(computed)
    ensures DistinctKeys(rows, RowRank)
  {
    PermutationKeepsDistinctKeys(byWeight, RankPillars(pillars, myBalance, currentPillar), RankedRank);
    assert DistinctKeys(computed, RowRank) by {
      assert forall i :: 0 <= i < |computed| ==> computed[i].pillarRank == byWeight[i].pillarRank;
    }
    PermutationKeepsDistinctKeys(rows, computed, RowRank);
  }

  /** A built row is the row of the input pillar its rank points at. */
  lemma RowTracesBack(pillars: seq<Pillar>, myBalance: int, currentPillar: string,
                      dailyRewards: nat, tiers: ExpectedMomentums,
                      byWeight: seq<Ranked>, computed: seq<Row>, i: int)
    requires Computable(pillars, myBalance, currentPillar)
    requires BuiltFrom(pillars, myBalance, currentPillar, dailyRewards, tiers, byWeight, computed)
    requires 0 <= i < |computed|
    ensures 1 <= computed[i].pillarRank <= |pillars|
    ensures computed[i] == RowFor(pillars, computed[i].pillarRank - 1, myBalance, currentPillar, dailyRewards, tiers)
  {
    var y := byWeight[i];
    assert y in multiset(RankPillars(pillars, myBalance, currentPillar));
    RankedTracesBack(pillars, myBalance, currentPillar, y);
    var total := TotalWeight(RankPillars(pillars, myBalance, currentPillar));
    assert computed[i] == RowOf(y, tiers, dailyRewards, myBalance, total);
    assert computed[i].pillarRank == y.pillarRank;
  }

  /** A ranked row is the ranked row of the input pillar its rank points at. */
  lemma RankedTracesBack(pillars: seq<Pillar>, myBalance: int, currentPillar: string, y: Ranked)
    requires AllExpecting(pillars)
    requires y in RankPillars(pillars, myBalance, currentPillar)
    ensures 1 <= y.pillarRank <= |pillars|
    ensures y == RankedAt(pillars, y.pillarRank - 1, myBalance, currentPillar)
  {
  }

  /** Every input pillar's row is among the built rows. */
  lemma PillarIsBuilt(pillars: seq<Pillar>, myBalance: int, currentPillar: string,
                      dailyRewards: nat, tiers: ExpectedMomentums,
                      byWeight: seq<Ranked>, computed: seq<Row>, k: int) returns (i: int)
    requires Computable(pillars, myBalance, currentPillar)
    requires BuiltFrom(pillars, myBalance, currentPillar, dailyRewards, tiers, byWeight, computed)
    requires 0 <= k < |pillars|
    ensures 0 <= i < |computed|
    ensures computed[i] == RowFor(pillars, k, myBalance, currentPillar, dailyRewards, tiers)
  {
    var ranked := RankPillars(pillars, myBalance, currentPillar);
    assert ranked[k] in multiset(byWeight);
    i :| 0 <= i < |byWeight| && byWeight[i] == ranked[k];
  }
}

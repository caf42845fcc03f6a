# ZNN delegator reward calculator — a Dafny model

This project models the reward-estimation core of the ZNN delegator
calculator. Given a snapshot of the network's pillars, the calculator
estimates how much ZNN a holder earns per day by delegating a balance to each
pillar. It then ranks the pillars by that estimate. The estimate has three
parts:

- **Emission schedule** (`Emission`). Each 30-day month since genesis has a
  fixed daily ZNN emission, taken from a 12-entry table. The month index is
  not clamped: from day 360 on there is no entry and the lookup fails.
- **Momentum-allocation simulator** (`Allocation`). It refuses fewer than
  30 producing pillars. Otherwise it runs `int(8640 * days / 30)` rounds.
  Each round draws 15 distinct pillars from the first 30 positions, then 15
  more from every pillar not drawn first, and credits each drawn pillar one
  momentum. The result is the truncated per-day mean of the counters for the
  "top 30" rows and for the "other" rows. The random draws are inputs to
  the model: one `Draw` per round, constrained only by what sampling can
  produce.
- **Reward table** (`Rewards`). For each pillar it computes:
  - the produced rate;
  - the effective weight: the raw weight over 1e8, rounded, plus the
    holder's balance on every pillar except the one the holder already
    delegates to;
  - the rank and the tier;
  - the momentum reward and the delegation reward for the holder, and their
    sum.

  Rows are sorted by that sum, largest first.

All arithmetic on rewards uses Dafny's `real`, which is exact rational
arithmetic. Counters and weights are unbounded integers.

Modules: `Outcomes` (the error cases, usable with `:-`), `Seqs` (the one
sum over a sequence, distinctness, multiset facts), `Sorting` (a stable
descending insertion sort by a numeric key, and the fact that sorting keeps
every sum), `Emission`, `Allocation`, `Rewards`.

### Behaviour of the code that the model keeps

- **Rank.** `sort_values(..., inplace=True)` keeps the row labels, so
  `pillarRank = index + 1` is the pillar's position in the node's list plus
  one. It is not the pillar's position in weight order. `RankIsInputPosition`
  gives two pillars where the heavier one is sorted first but keeps rank 2.
  `RankIsWeightPositionWhenListedByWeight` shows that the two agree when the
  node lists pillars heaviest first. Ranks are still a permutation of
  1..N, so every rank ≤ 30 picks the top-tier value.
- **Inclusive slices.** `loc[0:30]` and `loc[30:]` are label slices, and a
  label slice includes its end. The top mean therefore averages rows 0..30
  (31 rows), and row 30 also belongs to the other mean.
  `TierRowsOverlap` states the double count.
- **Exactly 30 pillars.** With 30 pillars, `loc[30:]` is empty. Its mean is
  NaN and `int()` raises, so the model returns `Err(NotANumber)`. The same
  happens when the simulator is asked for zero days.
- **Zero expected momentums.** The code does not guard this case. The
  division gives NaN or infinity, and the model excludes it by a
  precondition.
- **Per-momentum reward.** The reward per momentum divides by the 8640
  momentums of a day, not by the number of rounds.

## Model

| member | source | states |
|---|---|---|
| Emission.DailyZnnRewards | delegator_calculator.py:32-41 | succeeds exactly for days 0..359 and fails with OutOfRange from day 360 on, with no clamping; a result is an entry of the monthly table, between 4320 and 14400 |
| Emission.DailyRewardsFollowMonth | delegator_calculator.py:13-14 | every day from 30m to 30m+29 gets table entry m, the month the day falls in |
| Emission.ScheduleBoundaries | delegator_calculator.py:40-41 | day 29 gives 14400, day 30 gives 8640, day 359 gives 4320, and days 360 and 365 fail |
| Allocation.Rounds | delegator_calculator.py:64 | `int(8640*days/30)` is 288 rounds per day |
| Allocation.LuckyDistinct | delegator_calculator.py:71-80 | the two panels of a valid draw are 30 distinct positions, all inside the pillar table |
| Allocation.IncrementSum | delegator_calculator.py:81-82 | crediting k distinct in-range positions raises the counter total by exactly k |
| Allocation.CreditRound | delegator_calculator.py:80-82 | one round raises the counter total by exactly 30 and raises each counter by at most one |
| Allocation.Allocate | delegator_calculator.py:65-82 | after all rounds each counter is the number of rounds that drew its pillar (none exceeds the round count), and the counters sum to 30 × rounds |
| Allocation.TopRows | delegator_calculator.py:84 | the label slice `loc[0:30]` includes its end: it is the 31 rows labelled 0 through 30, in order |
| Allocation.OtherRows | delegator_calculator.py:85 | the label slice `loc[30:]` is every row from label 30 on, in order |
| Allocation.TierRowsOverlap | delegator_calculator.py:84-85 | the two inclusive label slices together count row 30 twice: their sums exceed the total by that row's counter |
| Allocation.AveragePerDay | delegator_calculator.py:84-85 | the result is the floor of mean ÷ days: r·(rows·days) ≤ sum < (r+1)·(rows·days) |
| Allocation.AverageAtMostRoundsPerDay | delegator_calculator.py:84-85 | when no counter exceeds the round count, a tier average is at most 288 momentums per day |
| Allocation.TierAverages | delegator_calculator.py:84-87 | the top value is the floor of the 31-row sum over 31 × days, and the other value is the floor of the sum from row 30 on over its row count × days |
| Allocation.ValidDraw | delegator_calculator.py:70-78 | the draw oracle for one round: 15 distinct positions among the first 30 rows (and inside the table), then 15 distinct in-table positions none of which was drawn first |
| Allocation.CalculateExpectedMomentums | delegator_calculator.py:44-87 | fails with InvalidInput exactly when there are fewer than 30 pillars, before any simulation; gives NaN (NotANumber) for exactly 30 pillars or zero days; otherwise returns the tier averages of the tallied draws, each at most 288 |
| Sorting.SortDesc | delegator_calculator.py:172 | the result is a permutation of the input, ordered non-increasingly by the key |
| Rewards.ScaledWeight | delegator_calculator.py:132-133 | the result is the whole number nearest to raw/1e8, and a tie at exactly half goes to the even neighbour |
| Rewards.ScaledWeightOfWholeZnn | delegator_calculator.py:132-133 | a raw weight of exactly z ZNN scales to z |
| Rewards.ProducedRate | delegator_calculator.py:130 | rate × expected = produced; the rate is non-negative, and positive exactly when the pillar produced something |
| Rewards.EffectiveWeight | delegator_calculator.py:135-138 | the holder's balance is added to every pillar except the current one, whose weight already contains it; with a non-negative balance no weight falls below the scaled raw weight |
| Rewards.RankPillars | delegator_calculator.py:140-141 | the ranks are distinct and lie in 1..N, and rank k belongs to input pillar k-1 |
| Rewards.WeightOrder | delegator_calculator.py:140 | the weight sort is a permutation of the ranked rows, heaviest first |
| Rewards.ActiveCount | delegator_calculator.py:146 | the count passed to the simulator is the number of positions whose produced rate is positive; so it is at most N, equal to N exactly when every rate is positive, and zero exactly when none is |
| Rewards.ActiveCountIgnoresOrder | delegator_calculator.py:146 | the count of producing pillars given to the simulator is the same before and after the weight sort |
| Rewards.ActiveCountIsProducingPillars | delegator_calculator.py:145-146 | the count given to the simulator is the number of input pillars that produced at least one momentum |
| Rewards.TotalWeight | delegator_calculator.py:162 | `weight.sum()`: the sum of the effective weights of all rows |
| Rewards.TotalWeightIgnoresOrder | delegator_calculator.py:159-162 | the network weight used for delegation rewards is the same before and after the weight sort |
| Rewards.MomentumReward | delegator_calculator.py:143 | per-momentum reward × 8640 momentums = half the daily emission |
| Rewards.RowOf | delegator_calculator.py:148-165 | a row keeps its pillar, rank, weight and produced rate; rank ≤ 30 selects the top-30 value, otherwise the other-tier value; the pillar's expected momentum reward × 8640 = expected momentums × rate × daily emission × 0.5; the holder's momentum reward × the pillar weight = that reward × the momentum payout share × the balance; the delegation reward × the total weight = daily emission × 0.24 × balance × the delegation payout share; the total is the momentum reward plus the delegation reward |
| Rewards.RewardsAreProRata | delegator_calculator.py:155-165 | with the pillar's effective weight and the total weight held fixed, the momentum, delegation and total rewards are each additive in the balance factor of lines 157 and 162 |
| Rewards.TableRewardsNotAdditive | delegator_calculator.py:136-162 | the balance also enters the weights, so the table's rewards are not additive in it: a lone 100 ZNN pillar gives a 100 ZNN holder 1728 ZNN of delegation reward a day, but a 50 ZNN holder 1152, not 864 |
| Rewards.RewardsNonNegative | delegator_calculator.py:152-165 | with a non-negative balance, positive weights and a non-negative rate, all three reward columns are non-negative |
| Rewards.RewardTable | delegator_calculator.py:130-172 | one row per input pillar; ranks form a permutation of 1..N; each row is the computed row of input pillar rank-1, with its effective weight, tier value and total; rows are sorted non-increasingly by total reward |
| Rewards.ZeroBalanceEarnsNothing | delegator_calculator.py:155-165 | with a zero balance every row's momentum, delegation and total rewards are 0 |
| Rewards.ThreePillarWeights | delegator_calculator.py:132-141 | pillars of 1000, 500 and 100 ZNN, with a 100 ZNN holder delegating to none of them, get weights 1100, 600 and 200 and ranks 1, 2 and 3 |
| Rewards.RankIsInputPosition | delegator_calculator.py:140-141 | with a 100 ZNN pillar listed before a 500 ZNN one, the weight sort puts the heavier pillar first, but it keeps rank 2 |
| Rewards.RankIsWeightPositionWhenListedByWeight | delegator_calculator.py:140-141 | if the input is already heaviest first, the row at weight position i has rank i+1 |
| Rewards.GetRewardsPerPillar | delegator_calculator.py:114-172 | fails with OutOfRange exactly past day 359; otherwise fails with InvalidInput below 30 producing pillars, NotANumber at exactly 30, and otherwise returns the reward table built from that day's emission and the simulated tier averages for 2 days |

## Left out

- Fetching the pillar list over JSON-RPC and unpacking the response
  (delegator_calculator.py:105-128). This is network I/O; the model takes a
  sequence of `Pillar` records instead.
- Reading the wall clock (delegator_calculator.py:22-29). The number of days
  since genesis is a `nat` parameter. A clock set before genesis would give a
  negative day count. Up to 360 days before genesis, Python's negative list
  indexing picks an entry counted from the end of the table; earlier than
  that, the lookup fails. The model does not cover either case.
- The CSV file, the `print` calls, the pandas display options and the column
  renames (delegator_calculator.py:8-10, 118, 159, 167-170, 175-177). These
  are output plumbing.
- The pseudo-random generator behind `DataFrame.sample`. Each round's draws
  are caller-supplied positions. They meet the distinctness and range
  conditions that sampling guarantees. No statistical statement about
  convergence to 15/30 is made.
- Allocation.CalculateExpectedMomentums: `days` is a natural number. The
  source accepts any number; the reward table only ever uses the default of
  2.
- Rewards.RewardsAreProRata: additivity in the balance holds only with the
  weights held fixed. In the table the balance is also added to the weights
  and to their sum, so the table's rewards are not additive in the balance
  (`TableRewardsNotAdditive`).
- Floating point. The model computes exact values: the rounding of
  `raw/1e8` on the exact quotient, and the floor of an exact mean per day.
  The code computes these in binary floating point, so a value that is
  within a rounding error of a boundary could differ.
- Undefined divisions in the reward table. A zero `expectedMomentums`, a
  zero effective weight or a zero total weight gives NaN or infinity in the
  code. These cases are excluded by preconditions, not modelled.
- Ties in the two sorts. pandas sorts with an unstable quicksort, so rows
  with equal keys may come out in any order. The model uses a stable sort,
  which is one of the admissible orders. The contracts state only
  "permutation" and "non-increasing", which every admissible order meets.
- The total weight and the active-pillar count are computed after the
  weight sort, as in the code. `TotalWeightIgnoresOrder` and
  `ActiveCountIgnoresOrder` show that input order gives the same values.
- A fewer-than-15 second-panel pool is not a separate failure. With at
  least 30 pillars, at least 15 pillars always remain outside the first
  panel, so the code cannot reach that case.

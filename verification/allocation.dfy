/** The momentum-allocation simulator.  Each allocation round credits two
    disjoint panels of 15 pillars: the first drawn from the 30 top positions,
    the second from every pillar not in the first panel.  The pseudo-random
    draws are supplied by the caller, one `Draw` per round. */
module Allocation {
  import opened Outcomes
  import opened Seqs

  const MomentumsPerDay: nat := 8640
  const MomentumsPerAllocation: nat := 30
  const TopTierSize: nat := 30
  const PanelSize: nat := 15

  /** The two panels drawn in one round, as 0-based pillar positions. */
  datatype Draw = Draw(first: seq<int>, second: seq<int>)

  /** Expected momentums per day of a top-30 pillar and of any other pillar. */
  datatype ExpectedMomentums = ExpectedMomentums(topThirty: nat, others: nat)

  /** A round's draw as sampling can produce it among `n` pillars: 15 distinct
      positions among the first 30 rows, then 15 distinct positions among the
      rows not drawn first. */
  predicate ValidDraw(n: nat, d: Draw)
  {
    && |d.first| == PanelSize
    && Distinct(d.first)
    && (forall x :: x in d.first ==> 0 <= x < TopTierSize && x < n)
    && |d.second| == PanelSize
    && Distinct(d.second)
    && (forall x :: x in d.second ==> 0 <= x < n && x !in d.first)
  }

  /** Every pillar credited in a round: both panels. */
  function Lucky(d: Draw): seq<int>
  {
    d.first + d.second
  }

  /** Number of rounds simulated for `days` days: one per 30 momentums. */
  function Rounds(days: nat): (r: nat)
    ensures r == 288 * days
  {
    MomentumsPerDay * days / MomentumsPerAllocation
  }

  /** Adds one to the counter of every position in `lucky`. */
  function Increment(counts: seq<nat>, lucky: seq<int>): (r: seq<nat>)
    ensures |r| == |counts|
  {
    seq(|counts|, i requires 0 <= i < |counts| => if i in lucky then counts[i] + 1 else counts[i])
  }

  /** Crediting distinct in-range positions raises the total by their number. */
  lemma {:induction false} IncrementSum(counts: seq<nat>, lucky: seq<int>)
    requires Distinct(lucky)
    requires forall x :: x in lucky ==> 0 <= x < |counts|
    ensures Sum(Increment(counts, lucky)) == Sum(counts) + |lucky|
  {
    if |lucky| == 0 {
      assert Increment(counts, lucky) == counts;
    } else {
      var m := |lucky| - 1;
      var x := lucky[m];
      var before := Increment(counts, lucky[..m]);
      assert x in lucky && x !in lucky[..m];
      assert forall y :: y in lucky[..m] ==> y in lucky;
      assert Increment(counts, lucky) == before[x := before[x] + 1];
      IncrementSum(counts, lucky[..m]);
      SumUpdate(before, x, before[x] + 1);
    }
  }

  /** The two panels of a valid draw are 30 distinct in-range positions. */
  lemma LuckyDistinct(n: nat, d: Draw)
    requires ValidDraw(n, d)
    ensures Distinct(Lucky(d)) && |Lucky(d)| == MomentumsPerAllocation
    ensures forall x :: x in Lucky(d) ==> 0 <= x < n
  {
    var l := Lucky(d);
    forall i, j | 0 <= i < j < |l|
      ensures l[i] != l[j]
    {
      if j >= |d.first| && i < |d.first| {
        assert l[j] in d.second;
      }
    }
  }

  /** One allocation round: each of the 30 drawn pillars gets one momentum. */
  function CreditRound(counts: seq<nat>, d: Draw): (r: seq<nat>)
    requires ValidDraw(|counts|, d)
    ensures |r| == |counts|
    ensures Sum(r) == Sum(counts) + MomentumsPerAllocation
    ensures forall i :: 0 <= i < |r| ==> counts[i] <= r[i] <= counts[i] + 1
  {
    LuckyDistinct(|counts|, d);
    IncrementSum(counts, Lucky(d));
    Increment(counts, Lucky(d))
  }

  /** Reference definition: the number of rounds among `draws` that credit `i`. */
  function TimesDrawn(draws: seq<Draw>, i: int): nat
  {
    if |draws| == 0 then 0
    else TimesDrawn(draws[..|draws| - 1], i) + (if i in Lucky(draws[|draws| - 1]) then 1 else 0)
  }

  /** The counters after all rounds, as the reference definition gives them. */
  function WinCounts(n: nat, draws: seq<Draw>): seq<nat>
  {
    seq(n, i => TimesDrawn(draws, i))
  }

  /** Runs every round on a fresh table of `n` zero counters. */
  method Allocate(n: nat, draws: seq<Draw>) returns (counts: seq<nat>)
    requires forall d :: d in draws ==> ValidDraw(n, d)
    ensures counts == WinCounts(n, draws)
    ensures Sum(counts) == MomentumsPerAllocation * |draws|
    ensures forall i :: 0 <= i < n ==> counts[i] <= |draws|
  {
    counts := seq(n, _ => 0);
    SumZeros(n);
    for k := 0 to |draws|
      invariant |counts| == n
      invariant forall i :: 0 <= i < n ==> counts[i] == TimesDrawn(draws[..k], i)
      invariant Sum(counts) == MomentumsPerAllocation * k
      invariant forall i :: 0 <= i < n ==> counts[i] <= k
    {
      assert draws[..k + 1][..k] == draws[..k];
      counts := CreditRound(counts, draws[k]);
    }
    assert draws[..|draws|] == draws;
  }

  /** The rows `loc[0:30]` selects: label-based slicing includes label 30. */
  function TopRows(counts: seq<nat>): (r: seq<nat>)
    requires |counts| > TopTierSize
    ensures |r| == TopTierSize + 1
    ensures forall k :: 0 <= k <= TopTierSize ==> r[k] == counts[k]
  {
    counts[..TopTierSize + 1]
  }

  /** The rows `loc[30:]` selects: every row from label 30 on. */
  function OtherRows(counts: seq<nat>): (r: seq<nat>)
    requires |counts| > TopTierSize
    ensures |r| == |counts| - TopTierSize
    ensures forall k :: TopTierSize <= k < |counts| ==> r[k - TopTierSize] == counts[k]
  {
    counts[TopTierSize..]
  }

  /** The row labelled 30 is counted in both tier averages. */
  lemma {:induction false} TierRowsOverlap(counts: seq<nat>)
    requires |counts| > TopTierSize
    ensures Sum(TopRows(counts)) + Sum(OtherRows(counts)) == Sum(counts) + counts[TopTierSize]
  {
    var head := counts[..TopTierSize];
    assert TopRows(counts) == head + [counts[TopTierSize]];
    assert counts == head + OtherRows(counts);
    SumConcat(head, [counts[TopTierSize]]);
    SumConcat(head, OtherRows(counts));
    assert Sum([counts[TopTierSize]]) == counts[TopTierSize] by {
      assert [counts[TopTierSize]][..0] == [];
    }
  }

  /** int(mean(rows) / days): the mean per day, truncated. */
  function AveragePerDay(rows: seq<nat>, days: nat): (r: nat)
    requires |rows| > 0 && days > 0
    ensures r * (|rows| * days) <= Sum(rows) < (r + 1) * (|rows| * days)
  {
    Sum(rows) / (|rows| * days)
  }

  /** If no counter exceeds the number of rounds, a per-day average is at
      most the number of rounds in one day. */
  lemma AverageAtMostRoundsPerDay(rows: seq<nat>, days: nat)
    requires |rows| > 0 && days > 0
    requires forall k :: 0 <= k < |rows| ==> rows[k] <= Rounds(days)
    ensures AveragePerDay(rows, days) <= Rounds(1)
  {
    SumBound(rows, Rounds(days));
    var c := |rows| * days;
    assert |rows| * (288 * days) == c * 288;
    QuotientBound(Sum(rows), c, 288);
  }

  /** Truncated division by `c` of a value at most `c * b` is at most `b`. */
  lemma QuotientBound(s: nat, c: nat, b: nat)
    requires c > 0 && s <= c * b
    ensures s / c <= b
  {
  }

  /** The two tier averages of a finished counter table. */
  function TierAverages(counts: seq<nat>, days: nat): (e: ExpectedMomentums)
    requires |counts| > TopTierSize && days > 0
    ensures var top := Sum(counts[..TopTierSize + 1]);
            e.topThirty * ((TopTierSize + 1) * days) <= top < (e.topThirty + 1) * ((TopTierSize + 1) * days)
    ensures var rest := Sum(counts[TopTierSize..]);
            var c := (|counts| - TopTierSize) * days;
            e.others * c <= rest < (e.others + 1) * c
  {
    ExpectedMomentums(AveragePerDay(TopRows(counts), days), AveragePerDay(OtherRows(counts), days))
  }

  /** Simulates `days` days of allocation among `amountOfPillars` pillars and
      reports the truncated per-day averages of the two tiers. */
  method CalculateExpectedMomentums(amountOfPillars: nat, days: nat, draws: seq<Draw>)
    returns (r: Result<ExpectedMomentums>)
    requires amountOfPillars >= TopTierSize ==>
               |draws| == Rounds(days) && forall d :: d in draws ==> ValidDraw(amountOfPillars, d)
    ensures r == Err(InvalidInput) <==> amountOfPillars < TopTierSize
    ensures r == Err(NotANumber) <==> amountOfPillars >= TopTierSize && (amountOfPillars == TopTierSize || days == 0)
    ensures r.Ok? <==> amountOfPillars > TopTierSize && days > 0
    ensures r.Ok? ==> r.value == TierAverages(WinCounts(amountOfPillars, draws), days)
    ensures r.Ok? ==> r.value.topThirty <= Rounds(1) && r.value.others <= Rounds(1)
  {
    if amountOfPillars < TopTierSize {
      return Err(InvalidInput);
    }
    var counts := Allocate(amountOfPillars, draws);
    if amountOfPillars == TopTierSize || days == 0 {
      // Either `loc[30:]` is empty, or a mean is divided by zero days: the
      // result is NaN and int() rejects it.
      return Err(NotANumber);
    }
    AverageAtMostRoundsPerDay(TopRows(counts), days);
    AverageAtMostRoundsPerDay(OtherRows(counts), days);
    r := Ok(TierAverages(counts, days));
  }
}

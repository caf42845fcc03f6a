/** The daily ZNN emission schedule: one fixed daily amount per 30-day
    month since the network's genesis, with nothing defined after the
    twelfth month. */
module Emission {
  import opened Outcomes

  /** Daily ZNN emission of month 0, 1, ..., 11 after genesis. */
  const DailyZnnRewardsPerMonth: seq<nat> :=
    [14400, 8640, 7200, 10080, 7200, 5760, 10080, 5760, 4320, 10080, 4320, 4320]

  const DaysInMonth: nat := 30

  /** Last day (counted from genesis) for which the schedule defines an amount. */
  const LastScheduledDay: nat := 359

  /** The daily emission for the day `daysSinceGenesis` days after genesis.
      The month index is not clamped: past the table there is no amount. */
  function DailyZnnRewards(daysSinceGenesis: nat): (r: Result<nat>)
    ensures r.Ok? <==> daysSinceGenesis <= LastScheduledDay
    ensures r.Err? ==> r.error == OutOfRange
    ensures r.Ok? ==> r.value in DailyZnnRewardsPerMonth
    ensures r.Ok? ==> 4320 <= r.value <= 14400
  {
    var monthsSinceBigBang := daysSinceGenesis / DaysInMonth;
    if monthsSinceBigBang < |DailyZnnRewardsPerMonth| then
      Ok(DailyZnnRewardsPerMonth[monthsSinceBigBang])
    else
      Err(OutOfRange)
  }

  /** Every day of month `m` (days 30m .. 30m+29) gets the month's table entry. */
  lemma DailyRewardsFollowMonth(m: nat, day: nat)
    requires m < |DailyZnnRewardsPerMonth|
    requires m * DaysInMonth <= day < (m + 1) * DaysInMonth
    ensures DailyZnnRewards(day) == Ok(DailyZnnRewardsPerMonth[m])
  {
  }

  /** The month boundaries: day 29 is still month 0, day 30 starts month 1,
      and day 365 lies past the table. */
  lemma ScheduleBoundaries()
    ensures DailyZnnRewards(0) == Ok(14400)
    ensures DailyZnnRewards(29) == Ok(14400)
    ensures DailyZnnRewards(30) == Ok(8640)
    ensures DailyZnnRewards(359) == Ok(4320)
    ensures DailyZnnRewards(360) == Err(OutOfRange)
    ensures DailyZnnRewards(365) == Err(OutOfRange)
  {
  }
}

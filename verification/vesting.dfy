/** The vesting-schedule calculator of deep.rs (`VestingConfig`): four release
policies behind a cliff gate, with the result clamped to the grant.

The calculator only reads the schedule: nothing in it advances
`released_amount` or marks a milestone claimed.
*/
module Vesting {
  import opened Outcomes
  import opened RustInt

  /** The staggered schedule releases in quarterly stages. */
  const STAGES: int := 4

  datatype ScheduleType = Linear | Staggered | Cliff | CustomMilestone

  datatype Milestone = Milestone(time: I64, percentage: U8, isClaimed: bool)

  datatype VestingConfig = VestingConfig(
    scheduleType: ScheduleType,
    startTime: I64,
    endTime: I64,
    cliffPeriod: I64,
    totalAmount: U64,
    releasedAmount: U64,
    milestones: seq<Milestone>)

  /** What a successful `initialize` guarantees of a schedule. */
  predicate WellFormed(cfg: VestingConfig) {
    && cfg.endTime > cfg.startTime
    && cfg.cliffPeriod >= 0
    && cfg.totalAmount > 0
    && (cfg.scheduleType == CustomMilestone ==> |cfg.milestones| > 0 && PercentTotal(cfg.milestones) == 100)
  }

  /** The i64 arithmetic of the calculator does not overflow on this schedule:
      `start_time + cliff_period` and `end_time - start_time` are both in range.
      `initialize` does not check this. */
  predicate InRange(cfg: VestingConfig) {
    IsI64(cfg.startTime + cfg.cliffPeriod) && IsI64(cfg.endTime - cfg.startTime)
  }

  // ---------------------------------------------------------------
  // Milestone percentages
  // ---------------------------------------------------------------

  /** The sum of the milestones' percentages, as a mathematical integer. */
  function PercentTotal(ms: seq<Milestone>): nat
  {
    if |ms| == 0 then 0 else ms[0].percentage + PercentTotal(ms[1..])
  }

  /** `milestones.iter().map(|m| m.percentage as u16).sum()`: a left fold whose
      u16 additions trap on overflow. */
  function SumPercentages(ms: seq<Milestone>, acc: U16): Res<U16>
    decreases |ms|
  {
    if |ms| == 0 then Ok(acc)
    else if acc + ms[0].percentage < 0x1_0000 then SumPercentages(ms[1..], acc + ms[0].percentage)
    else Panic
  }

  /** The u16 sum is the mathematical sum, unless that sum does not fit. */
  lemma {:induction false} SumPercentagesIsTotal(ms: seq<Milestone>, acc: U16)
    ensures acc + PercentTotal(ms) < 0x1_0000 ==> SumPercentages(ms, acc) == Ok(acc + PercentTotal(ms))
    ensures acc + PercentTotal(ms) >= 0x1_0000 ==> SumPercentages(ms, acc) == Panic
    decreases |ms|
  {
    if |ms| > 0 && acc + ms[0].percentage < 0x1_0000 {
      SumPercentagesIsTotal(ms[1..], acc + ms[0].percentage);
    }
  }

  // ---------------------------------------------------------------
  // Initialisation
  // ---------------------------------------------------------------

  /** `VestingConfig::initialize` on the account `prior`. The scalar fields are
      written before the milestone list is checked, so an `InvalidMilestone`
      failure leaves them written. */
  function Initialize(
    prior: VestingConfig,
    scheduleType: ScheduleType,
    startTime: I64,
    endTime: I64,
    cliffPeriod: I64,
    totalAmount: U64,
    milestones: seq<Milestone>): (r: Step<VestingConfig>)
    ensures endTime <= startTime || cliffPeriod < 0 ==> r == Failed(InvalidTimeParameters, prior)
    ensures endTime > startTime && cliffPeriod >= 0 && totalAmount == 0 ==> r == Failed(InvalidAmount, prior)
    ensures r.Done? <==>
              && endTime > startTime && cliffPeriod >= 0 && totalAmount > 0
              && (scheduleType == CustomMilestone ==> |milestones| > 0 && PercentTotal(milestones) == 100)
    ensures r.Done? ==>
              && WellFormed(r.state)
              && r.state == VestingConfig(scheduleType, startTime, endTime, cliffPeriod, totalAmount, 0, milestones)
    ensures r.Aborted? <==>
              && endTime > startTime && cliffPeriod >= 0 && totalAmount > 0
              && scheduleType == CustomMilestone && |milestones| > 0 && PercentTotal(milestones) >= 0x1_0000
    ensures r.Failed? && endTime > startTime && cliffPeriod >= 0 && totalAmount > 0 ==> r.code == InvalidMilestone
    ensures && endTime > startTime && cliffPeriod >= 0 && totalAmount > 0 && scheduleType == CustomMilestone
            && (|milestones| == 0 || PercentTotal(milestones) != 100) && PercentTotal(milestones) < 0x1_0000 ==>
              r.Failed? && r.code == InvalidMilestone
    ensures r.Failed? && r.code == InvalidMilestone ==>
              r.state == prior.(scheduleType := scheduleType, startTime := startTime, endTime := endTime,
                                cliffPeriod := cliffPeriod, totalAmount := totalAmount, releasedAmount := 0)
  {
    if endTime <= startTime then Failed(InvalidTimeParameters, prior)
    else if cliffPeriod < 0 then Failed(InvalidTimeParameters, prior)
    else if totalAmount == 0 then Failed(InvalidAmount, prior)
    else
      var written := prior.(scheduleType := scheduleType, startTime := startTime, endTime := endTime,
                            cliffPeriod := cliffPeriod, totalAmount := totalAmount, releasedAmount := 0);
      if scheduleType == CustomMilestone then
        if |milestones| == 0 then Failed(InvalidMilestone, written)
        else
          SumPercentagesIsTotal(milestones, 0);
          match SumPercentages(milestones, 0)
          case Ok(sum) => if sum == 100 then Done(written.(milestones := milestones)) else Failed(InvalidMilestone, written)
          case _ => Aborted
      else Done(written.(milestones := milestones))
  }

  // ---------------------------------------------------------------
  // Vested amount
  // ---------------------------------------------------------------

  /** `calculate_linear_vesting` */
  function LinearVesting(cfg: VestingConfig, now: I64): (r: Res<U64>)
    ensures now >= cfg.endTime ==> r == Ok(cfg.totalAmount)
    ensures now < cfg.endTime && !IsI64(cfg.endTime - cfg.startTime) ==> r == Err(CalculationError)
  {
    if now >= cfg.endTime then Ok(cfg.totalAmount)
    else
      var duration :- CheckedSubI64(cfg.endTime, cfg.startTime);
      var elapsed :- CheckedSubI64(now, cfg.startTime);
      var scaled :- CheckedMulU128(cfg.totalAmount, I64AsU128(elapsed));
      var vested :- CheckedDivU128(scaled, I64AsU128(duration));
      Ok(AsU64(vested))
  }

  /** Inside the window the linear schedule releases
      `floor(total * (now - start) / (end - start))`, which is below the grant. */
  lemma LinearVestingInWindow(cfg: VestingConfig, now: I64)
    requires cfg.startTime <= now < cfg.endTime && IsI64(cfg.endTime - cfg.startTime)
    ensures LinearVesting(cfg, now) == Ok(cfg.totalAmount * (now - cfg.startTime) / (cfg.endTime - cfg.startTime))
    ensures cfg.totalAmount > 0 ==> LinearVesting(cfg, now).value < cfg.totalAmount
  {
    var e := now - cfg.startTime;
    var d := cfg.endTime - cfg.startTime;
    MulLe(cfg.totalAmount, e, U64_LIMIT);
    MulLe(U64_LIMIT, cfg.totalAmount, U64_LIMIT);
    assert cfg.totalAmount * e < U128_LIMIT;
    MulDivAtMost(cfg.totalAmount, e, d);
    if cfg.totalAmount > 0 {
      MulDivBelow(cfg.totalAmount, e, d);
    }
    assert CheckedSubI64(cfg.endTime, cfg.startTime) == Ok(d);
    assert CheckedSubI64(now, cfg.startTime) == Ok(e);
    assert CheckedMulU128(cfg.totalAmount, I64AsU128(e)) == Ok(cfg.totalAmount * e);
  }

  /** `calculate_cliff_vesting` */
  function CliffVesting(cfg: VestingConfig, now: I64): (r: U64)
    ensures now < cfg.endTime ==> r == 0
    ensures now >= cfg.endTime ==> r == cfg.totalAmount
  {
    if now >= cfg.endTime then cfg.totalAmount else 0
  }

  /** `calculate_staggered_vesting`: `(total / 4) * min(stage, 4)` where
      `stage = (now - start) / ((end - start) / 4)`, all in i64 with Rust's
      truncating division; the product is a plain u64 multiplication. */
  function StaggeredVesting(cfg: VestingConfig, now: I64): (r: Res<U64>)
    ensures IsI64(cfg.endTime - cfg.startTime) && 0 <= cfg.endTime - cfg.startTime < STAGES && IsI64(now - cfg.startTime) ==>
              r == Panic
  {
    var duration :- CheckedSubI64(cfg.endTime, cfg.startTime);
    var stageDuration := TruncDivI64(duration, STAGES);
    var elapsed :- CheckedSubI64(now, cfg.startTime);
    var stage :- DivI64(elapsed, stageDuration);
    MulU64(cfg.totalAmount / STAGES, AsU64(MinInt(stage, STAGES)))
  }

  /** On a window of at least four seconds and from `start_time` on, the
      staggered schedule releases `total / 4` per completed stage, for at most
      four stages, and so never more than the grant. */
  lemma StaggeredVestingStages(cfg: VestingConfig, now: I64)
    requires IsI64(cfg.endTime - cfg.startTime) && cfg.endTime - cfg.startTime >= STAGES
    requires 0 <= now - cfg.startTime <= I64_MAX
    ensures StaggeredVesting(cfg, now) ==
              Ok((cfg.totalAmount / STAGES) * MinInt((now - cfg.startTime) / ((cfg.endTime - cfg.startTime) / STAGES), STAGES))
    ensures StaggeredVesting(cfg, now).value <= (cfg.totalAmount / STAGES) * STAGES <= cfg.totalAmount
  {
    var d := cfg.endTime - cfg.startTime;
    var e := now - cfg.startTime;
    var sd := d / STAGES;
    DivLeNumerator(d, STAGES);
    assert TruncDivI64(d, STAGES) == sd;
    var stage := e / sd;
    DivLeNumerator(e, sd);
    assert DivI64(e, sd) == Ok(stage);
    var m := MinInt(stage, STAGES);
    assert AsU64(m) == m;
    MulLe(cfg.totalAmount / STAGES, m, STAGES);
  }

  /** The value of one milestone: `(total * percentage / 100) as u64`. */
  function MilestoneShare(total: U64, percentage: U8): (r: U64)
    ensures percentage <= 100 ==> r == total * percentage / 100 && r <= total
  {
    if percentage <= 100 then
      MulDivAtMost(total, percentage, 100);
      AsU64(total * percentage / 100)
    else
      AsU64(total * percentage / 100)
  }

  /** A milestone counts when its time has come and it is not yet claimed. */
  predicate Due(m: Milestone, now: I64) {
    now >= m.time && !m.isClaimed
  }

  /** The sum of the shares of the due milestones, as a mathematical integer. */
  function DueTotal(ms: seq<Milestone>, total: U64, now: I64): nat
  {
    if |ms| == 0 then 0
    else (if Due(ms[0], now) then MilestoneShare(total, ms[0].percentage) else 0) + DueTotal(ms[1..], total, now)
  }

  /** The percentages of the due milestones. */
  function DuePercent(ms: seq<Milestone>, now: I64): nat
  {
    if |ms| == 0 then 0
    else (if Due(ms[0], now) then ms[0].percentage else 0) + DuePercent(ms[1..], now)
  }

  /** The loop of `calculate_milestone_vesting`, with the running total in
      `acc` and a checked u64 addition per due milestone. */
  function MilestoneSum(ms: seq<Milestone>, total: U64, now: I64, acc: U64): Res<U64>
    decreases |ms|
  {
    if |ms| == 0 then Ok(acc)
    else if Due(ms[0], now) then
      var acc' :- CheckedAddU64(acc, MilestoneShare(total, ms[0].percentage));
      MilestoneSum(ms[1..], total, now, acc')
    else MilestoneSum(ms[1..], total, now, acc)
  }

  /** The loop adds up the due shares, failing only when the sum leaves u64. */
  lemma {:induction false} MilestoneSumIsDueTotal(ms: seq<Milestone>, total: U64, now: I64, acc: U64)
    ensures acc + DueTotal(ms, total, now) < U64_LIMIT ==> MilestoneSum(ms, total, now, acc) == Ok(acc + DueTotal(ms, total, now))
    ensures acc + DueTotal(ms, total, now) >= U64_LIMIT ==> MilestoneSum(ms, total, now, acc) == Err(CalculationError)
    decreases |ms|
  {
    if |ms| > 0 {
      if Due(ms[0], now) {
        var share := MilestoneShare(total, ms[0].percentage);
        if acc + share < U64_LIMIT {
          MilestoneSumIsDueTotal(ms[1..], total, now, acc + share);
        }
      } else {
        MilestoneSumIsDueTotal(ms[1..], total, now, acc);
      }
    }
  }

  /** `calculate_milestone_vesting` */
  function MilestoneVesting(cfg: VestingConfig, now: I64): (r: Res<U64>)
    ensures DueTotal(cfg.milestones, cfg.totalAmount, now) < U64_LIMIT ==>
              r == Ok(DueTotal(cfg.milestones, cfg.totalAmount, now))
    ensures DueTotal(cfg.milestones, cfg.totalAmount, now) >= U64_LIMIT ==> r == Err(CalculationError)
  {
    MilestoneSumIsDueTotal(cfg.milestones, cfg.totalAmount, now, 0);
    MilestoneSum(cfg.milestones, cfg.totalAmount, now, 0)
  }

  /** The per-schedule amount before the clamp. */
  function ScheduleAmount(cfg: VestingConfig, now: I64): Res<U64>
  {
    match cfg.scheduleType
    case Linear => LinearVesting(cfg, now)
    case Cliff => Ok(CliffVesting(cfg, now))
    case Staggered => StaggeredVesting(cfg, now)
    case CustomMilestone => MilestoneVesting(cfg, now)
  }

  /** `calculate_vested_amount`: nothing before `start_time + cliff_period`
      (a plain i64 addition), then the schedule's amount clamped to the grant. */
  function VestedAmount(cfg: VestingConfig, now: I64): (r: Res<U64>)
    ensures !IsI64(cfg.startTime + cfg.cliffPeriod) ==> r == Panic
    ensures IsI64(cfg.startTime + cfg.cliffPeriod) && now < cfg.startTime + cfg.cliffPeriod ==> r == Ok(0)
    ensures IsI64(cfg.startTime + cfg.cliffPeriod) && now >= cfg.startTime + cfg.cliffPeriod ==>
              r == match ScheduleAmount(cfg, now)
                   case Ok(v) => Ok(MinInt(v, cfg.totalAmount))
                   case Err(e) => Err(e)
                   case Panic => Panic
    ensures r.Ok? ==> r.value <= cfg.totalAmount
  {
    var cliffEnd :- AddI64(cfg.startTime, cfg.cliffPeriod);
    if now < cliffEnd then Ok(0)
    else
      var vested :- ScheduleAmount(cfg, now);
      Ok(MinInt(vested, cfg.totalAmount))
  }
}

/** Properties of the vesting calculator of deep.rs: the linear schedule grows
with time, the staggered schedule's stages and its shortfall, the milestone
schedule stays within the grant, and the worked examples. */
module VestingFacts {
  import opened Outcomes
  import opened RustInt
  import opened Vesting

  // ---------------------------------------------------------------
  // Linear
  // ---------------------------------------------------------------

  /** From `start_time` on, the linear schedule never fails and never
      decreases. */
  lemma LinearVestingMonotone(cfg: VestingConfig, t1: I64, t2: I64)
    requires cfg.startTime <= t1 <= t2
    requires cfg.endTime > cfg.startTime && IsI64(cfg.endTime - cfg.startTime)
    ensures LinearVesting(cfg, t1).Ok? && LinearVesting(cfg, t2).Ok?
    ensures LinearVesting(cfg, t1).value <= LinearVesting(cfg, t2).value <= cfg.totalAmount
  {
    var d := cfg.endTime - cfg.startTime;
    if t1 < cfg.endTime {
      LinearVestingInWindow(cfg, t1);
      MulDivAtMost(cfg.totalAmount, t1 - cfg.startTime, d);
      if t2 < cfg.endTime {
        LinearVestingInWindow(cfg, t2);
        MulDivAtMost(cfg.totalAmount, t2 - cfg.startTime, d);
        MulLe(cfg.totalAmount, t1 - cfg.startTime, t2 - cfg.startTime);
        DivMonotone(cfg.totalAmount * (t1 - cfg.startTime), cfg.totalAmount * (t2 - cfg.startTime), d);
      }
    }
  }

  /** On a schedule `initialize` accepts whose i64 arithmetic fits, the amount
      vested under the linear policy never fails and never decreases. */
  lemma {:induction false} VestedLinearMonotone(cfg: VestingConfig, t1: I64, t2: I64)
    requires cfg.scheduleType == Linear && WellFormed(cfg) && InRange(cfg)
    requires t1 <= t2
    ensures VestedAmount(cfg, t1).Ok? && VestedAmount(cfg, t2).Ok?
    ensures VestedAmount(cfg, t1).value <= VestedAmount(cfg, t2).value
  {
    var gate := cfg.startTime + cfg.cliffPeriod;
    if t2 >= gate {
      LinearVestingMonotone(cfg, t2, t2);
      if t1 >= gate {
        LinearVestingMonotone(cfg, t1, t2);
      }
    }
  }

  /** Start 0, end 1000, a grant of 1000: 500 at second 500, the whole grant
      at second 1000 and after. */
  lemma LinearVestingExamples()
    ensures var cfg := VestingConfig(Linear, 0, 1000, 0, 1000, 0, []);
            && VestedAmount(cfg, 500) == Ok(500)
            && VestedAmount(cfg, 1000) == Ok(1000)
            && VestedAmount(cfg, 1001) == Ok(1000)
  {
    var cfg := VestingConfig(Linear, 0, 1000, 0, 1000, 0, []);
    LinearVestingInWindow(cfg, 500);
  }

  // ---------------------------------------------------------------
  // Staggered
  // ---------------------------------------------------------------

  /** Start 0, end 400, a grant of 1000: one stage (250) at second 150, all
      four (1000) at second 450. */
  lemma StaggeredVestingExamples()
    ensures var cfg := VestingConfig(Staggered, 0, 400, 0, 1000, 0, []);
            && VestedAmount(cfg, 150) == Ok(250)
            && VestedAmount(cfg, 450) == Ok(1000)
  {
    var cfg := VestingConfig(Staggered, 0, 400, 0, 1000, 0, []);
    StaggeredVestingStages(cfg, 150);
    StaggeredVestingStages(cfg, 450);
  }

  /** A window shorter than four seconds has a zero stage length, so the
      staggered amount divides by zero once the cliff has passed. */
  lemma StaggeredShortWindowPanics(cfg: VestingConfig, now: I64)
    requires cfg.scheduleType == Staggered && WellFormed(cfg) && InRange(cfg)
    requires cfg.endTime - cfg.startTime < STAGES
    requires now >= cfg.startTime + cfg.cliffPeriod && IsI64(now - cfg.startTime)
    ensures VestedAmount(cfg, now) == Panic
  {
  }

  /** Once `end_time` has passed, all four stages are released: `total / 4`
      four times, which is short of the grant when 4 does not divide it. */
  lemma StaggeredFullRelease(cfg: VestingConfig, now: I64)
    requires IsI64(cfg.endTime - cfg.startTime) && cfg.endTime - cfg.startTime >= STAGES
    requires cfg.endTime <= now && now - cfg.startTime <= I64_MAX
    ensures StaggeredVesting(cfg, now) == Ok((cfg.totalAmount / STAGES) * STAGES)
    ensures cfg.totalAmount % STAGES != 0 ==> StaggeredVesting(cfg, now).value < cfg.totalAmount
  {
    StaggeredVestingStages(cfg, now);
    AllStagesPassed(cfg.endTime - cfg.startTime, now - cfg.startTime);
  }

  /** From the end of the window on, at least four stages have passed. */
  lemma AllStagesPassed(d: int, e: int)
    requires STAGES <= d <= e
    ensures e / (d / STAGES) >= STAGES
  {
    var sd := d / STAGES;
    var q := e / sd;
    assert STAGES * sd <= d;
    assert e < sd * (q + 1);
    if q < STAGES {
      MulLe(sd, q + 1, STAGES);
    }
  }

  /** When 4 does not divide the grant, the staggered schedule never releases
      all of it, whatever the time. */
  lemma StaggeredShortfall(cfg: VestingConfig, now: I64)
    requires IsI64(cfg.endTime - cfg.startTime) && cfg.endTime - cfg.startTime >= STAGES
    requires 0 <= now - cfg.startTime <= I64_MAX
    requires cfg.totalAmount % STAGES != 0
    ensures StaggeredVesting(cfg, now).Ok? && StaggeredVesting(cfg, now).value < cfg.totalAmount
  {
    StaggeredVestingStages(cfg, now);
  }

  // ---------------------------------------------------------------
  // Milestones
  // ---------------------------------------------------------------

  /** Each due share is at most its percentage of the grant, so the due total
      is at most the due percentage of the grant. */
  lemma {:induction false} DueTotalScaled(ms: seq<Milestone>, total: U64, now: I64)
    requires PercentTotal(ms) <= 100
    ensures 100 * DueTotal(ms, total, now) <= total * DuePercent(ms, now)
    ensures DuePercent(ms, now) <= PercentTotal(ms)
    decreases |ms|
  {
    if |ms| > 0 {
      DueTotalScaled(ms[1..], total, now);
      var p := ms[0].percentage;
      if Due(ms[0], now) {
        ShareScaled(total, p);
        AddScaled(MilestoneShare(total, p), DueTotal(ms[1..], total, now), p, DuePercent(ms[1..], now), total);
      }
    }
  }

  /** One share is at most its percentage of the grant. */
  lemma ShareScaled(total: U64, p: U8)
    requires p <= 100
    ensures 100 * MilestoneShare(total, p) <= total * p
  {
  }

  lemma AddScaled(a: int, b: int, x: int, y: int, t: int)
    requires 100 * a <= t * x && 100 * b <= t * y
    ensures 100 * (a + b) <= t * (x + y)
  {
    assert t * (x + y) == t * x + t * y;
  }

  /** When the percentages add up to at most 100, the milestone schedule never
      overflows and never vests more than the grant. */
  lemma MilestoneVestingWithinGrant(cfg: VestingConfig, now: I64)
    requires PercentTotal(cfg.milestones) <= 100
    ensures MilestoneVesting(cfg, now) == Ok(DueTotal(cfg.milestones, cfg.totalAmount, now))
    ensures DueTotal(cfg.milestones, cfg.totalAmount, now) <= cfg.totalAmount
  {
    var dt := DueTotal(cfg.milestones, cfg.totalAmount, now);
    DueTotalScaled(cfg.milestones, cfg.totalAmount, now);
    MulLe(cfg.totalAmount, DuePercent(cfg.milestones, now), 100);
    if dt > cfg.totalAmount {
      MulLe(100, cfg.totalAmount + 1, dt);
    }
  }

  /** Flooring each share separately loses value: two 50% milestones of a
      grant of 1 are both due at `end_time` and still vest nothing. */
  lemma MilestoneFlooringExample()
    ensures var cfg := VestingConfig(CustomMilestone, 0, 10, 0, 1, 0, [Milestone(0, 50, false), Milestone(0, 50, false)]);
            && WellFormed(cfg)
            && VestedAmount(cfg, 10) == Ok(0)
  {
    var ms := [Milestone(0, 50, false), Milestone(0, 50, false)];
    assert ms[1..][1..] == [];
    assert PercentTotal(ms) == 100;
    assert DueTotal(ms, 1, 10) == 0;
  }
}

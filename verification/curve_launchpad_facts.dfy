/** Properties of the deepseek.rs launchpad: its quotes, what a committed trade
does to the reserves, the unclamped sell, and the traps that `initialize` and
`set_params` leave open. */
module CurveLaunchpadFacts {
  import opened Outcomes
  import opened RustInt
  import LaunchCurve
  import opened CurveLaunchpad

  /** Buying and selling the same amount are quoted alike. */
  lemma QuotesSymmetric(c: LaunchCurve.Curve, amount: U64)
    ensures BuyPrice(c, amount) == SellPrice(c, amount)
  {
  }

  /** Unlike the curve of gpt.rs and deep.rs, a zero amount is quoted, at 0. */
  lemma ZeroAmountIsQuoted(mode: LaunchCurve.MulMode, c: LaunchCurve.Curve)
    requires c.curveType == LaunchCurve.Linear && c.virtualToken > 0
    ensures BuyPrice(c, 0) == Ok(0) && SellPrice(c, 0) == Ok(0)
    ensures LaunchCurve.BuyPrice(mode, c, 0) == Err(InvalidAmount)
  {
  }

  /** A buy that passes its guards and whose deltas fit moves exactly the
      quote into the SOL reserve and the tokens out of the token reserve. */
  lemma BuyCommitExact(pad: Launchpad, tokenAmount: U64, maxSolCost: U64)
    requires BuyPrice(pad.curve, tokenAmount).Ok?
    requires var q := BuyPrice(pad.curve, tokenAmount).value;
             && q <= maxSolCost && q <= I64_MAX && IsU64(pad.curve.realSol + q)
             && tokenAmount <= I64_MAX && tokenAmount <= pad.curve.realToken
    ensures var q := BuyPrice(pad.curve, tokenAmount).value;
            Buy(pad, tokenAmount, maxSolCost, true) ==
              Ok(pad.(curve := pad.curve.(realSol := pad.curve.realSol + q, realToken := pad.curve.realToken - tokenAmount)))
  {
  }

  /** Selling back what was just bought, at the same floor as the buy's price,
      restores the launchpad: the quote depends only on the virtual reserves,
      which trades do not touch. */
  lemma BuySellRoundTrip(pad: Launchpad, tokenAmount: U64, maxSolCost: U64)
    requires Buy(pad, tokenAmount, maxSolCost, true).Ok?
    requires tokenAmount <= I64_MAX && BuyPrice(pad.curve, tokenAmount).value <= I64_MAX
    ensures Sell(Buy(pad, tokenAmount, maxSolCost, true).value, tokenAmount, BuyPrice(pad.curve, tokenAmount).value, true) == Ok(pad)
  {
    var q := BuyPrice(pad.curve, tokenAmount).value;
    var p1 := Buy(pad, tokenAmount, maxSolCost, true).value;
    assert SellPrice(p1.curve, tokenAmount) == BuyPrice(pad.curve, tokenAmount);
    assert p1.curve.realSol == pad.curve.realSol + q;
    assert p1.curve.realToken == pad.curve.realToken - tokenAmount;
  }

  /** The sell quote is not clamped to the custodied SOL, so a sell quoted
      above `real_sol_reserves` passes its guards and then fails in
      `update_reserves` with `CalculationError`. */
  lemma SellOverdrawFails(pad: Launchpad, tokenAmount: U64, minSolOutput: U64)
    requires SellPrice(pad.curve, tokenAmount).Ok?
    requires var q := SellPrice(pad.curve, tokenAmount).value;
             minSolOutput <= q && pad.curve.realSol < q <= I64_MAX
    ensures Sell(pad, tokenAmount, minSolOutput, true) == Err(CalculationError)
  {
  }

  /** After `withdraw` the SOL reserve is empty, so every sell quoted above
      zero fails. */
  lemma SellAfterWithdrawFails(pad: Launchpad, tokenAmount: U64)
    requires Withdraw(pad, pad.authority, true).Ok?
    requires var q := SellPrice(pad.curve, tokenAmount);
             q.Ok? && 0 < q.value <= I64_MAX
    ensures Sell(Withdraw(pad, pad.authority, true).value, tokenAmount, 0, true) == Err(CalculationError)
  {
    var p1 := Withdraw(pad, pad.authority, true).value;
    assert SellPrice(p1.curve, tokenAmount) == SellPrice(pad.curve, tokenAmount);
    SellOverdrawFails(p1, tokenAmount, 0);
  }

  /** Buying exactly 2^63 tokens negates `i64::MIN` and traps once the guards
      have passed. */
  lemma BuyOfHalfRangeTraps(pad: Launchpad, maxSolCost: U64)
    requires BuyPrice(pad.curve, I64_MAX + 1).Ok? && BuyPrice(pad.curve, I64_MAX + 1).value <= maxSolCost
    ensures Buy(pad, I64_MAX + 1, maxSolCost, true) == Panic
  {
  }

  /** `token_amount as i64` wraps: buying `u64::MAX` tokens at a zero quote reads
      as a delta of -1, so the negated delta adds one token to the reserve. */
  lemma BuyOfWrappedAmountGrowsTokens(pad: Launchpad)
    requires pad.curve.curveType == LaunchCurve.Linear && pad.curve.virtualSol == 0 && pad.curve.virtualToken > 0
    requires pad.curve.realToken < U64_MAX
    ensures Buy(pad, U64_MAX, 0, true) == Ok(pad.(curve := pad.curve.(realToken := pad.curve.realToken + 1)))
  {
    assert U64AsI64(U64_MAX) == -1;
  }

  /** A freshly initialised launchpad has no virtual tokens: every trade
      divides by zero. */
  lemma FreshLaunchpadTraps(user: Pubkey, amount: U64, limit: U64, transfersOk: bool)
    ensures Buy(Initialize(user), amount, limit, transfersOk) == Panic
    ensures Sell(Initialize(user), amount, limit, transfersOk) == Panic
  {
  }

  /** `set_params` accepts a zero virtual token reserve, after which every
      trade divides by zero. */
  lemma SetParamsCanDisableTrading(pad: Launchpad, feeRecipient: Pubkey, withdrawAuthority: Pubkey,
                                   initialVirtualSolReserves: U64, initialRealTokenReserves: U64,
                                   initialTokenSupply: U64, feeBasisPoints: U64,
                                   amount: U64, limit: U64, transfersOk: bool)
    ensures var r := SetParams(pad, pad.authority, feeRecipient, withdrawAuthority, 0, initialVirtualSolReserves,
                               initialRealTokenReserves, initialTokenSupply, feeBasisPoints);
            && r.Ok?
            && Buy(r.value, amount, limit, transfersOk) == Panic
            && Sell(r.value, amount, limit, transfersOk) == Panic
  {
  }
}

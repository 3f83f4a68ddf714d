/** Properties of the bonding curve of gpt.rs and deep.rs: closed forms of the
linear quotes, when a sell quote fails, the division-by-zero traps, the
agreement of the two builds, and the reversibility of reserve updates. */
module LaunchCurveFacts {
  import opened Outcomes
  import opened RustInt
  import opened LaunchCurve

  // ---------------------------------------------------------------
  // Quotes
  // ---------------------------------------------------------------

  /** Straight after `initialize` no SOL is custodied, so every sell quote that
      succeeds is zero. */
  lemma SellAfterInitializeIsZero(mode: MulMode, curveType: CurveType, virtualSol: U64, virtualToken: U64,
                                  customParams: U64x3, amount: U64)
    requires Initialize(curveType, virtualSol, virtualToken, customParams).Ok?
    ensures var c := Initialize(curveType, virtualSol, virtualToken, customParams).value;
            SellPrice(mode, c, amount).Ok? ==> SellPrice(mode, c, amount).value == 0
  {
  }

  /** The linear buy quote is `(floor(vsol * amt / vtok) + floor(amt * slope / 10000)) as u64`,
      and fails only when that sum leaves u128. */
  lemma LinearBuyClosedForm(mode: MulMode, c: Curve, amount: U64)
    requires c.curveType == Linear && amount > 0 && c.virtualToken > 0
    ensures var s := c.virtualSol * amount / c.virtualToken + amount * c.Slope() / BASIS_POINTS;
            BuyPrice(mode, c, amount) == if s < U128_LIMIT then Ok(AsU64(s)) else Err(CalculationError)
  {
    assert BasePrice(mode, c, amount) == Ok(c.virtualSol * amount / c.virtualToken);
    assert Surcharge(mode, c, amount) == Ok(amount * c.Slope() / BASIS_POINTS);
  }

  /** The linear sell quote is the base price less the slope surcharge, as u64,
      clamped to the custodied SOL; it fails when the surcharge is larger. */
  lemma LinearSellClosedForm(mode: MulMode, c: Curve, amount: U64)
    requires c.curveType == Linear && amount > 0 && c.virtualToken > 0
    ensures var b := c.virtualSol * amount / c.virtualToken;
            var f := amount * c.Slope() / BASIS_POINTS;
            SellPrice(mode, c, amount) == if f <= b then Ok(MinInt(AsU64(b - f), c.realSol)) else Err(CalculationError)
  {
    assert BasePrice(mode, c, amount) == Ok(c.virtualSol * amount / c.virtualToken);
    assert Surcharge(mode, c, amount) == Ok(amount * c.Slope() / BASIS_POINTS);
  }

  /** 10 000 tokens against 100 SOL-units-per-token virtual reserves and a zero
      slope cost 1 000 000, in both builds. */
  lemma LinearBuyExample(mode: MulMode)
    ensures BuyPrice(mode, Curve(Linear, 100_000_000, 1_000_000, 0, 1_000_000, 1_000_000, ZERO_U64X3), 10_000) == Ok(1_000_000)
  {
    LinearBuyClosedForm(mode, Curve(Linear, 100_000_000, 1_000_000, 0, 1_000_000, 1_000_000, ZERO_U64X3), 10_000);
  }

  /** On the linear, exponential and custom curves a sell fails with
      `CalculationError` exactly when the surcharge exceeds the base price;
      otherwise it quotes the difference, truncated and clamped. */
  lemma SellFailsExactlyOnSurcharge(mode: MulMode, c: Curve, amount: U64)
    requires c.curveType != Sigmoid && amount > 0 && c.virtualToken > 0
    requires Surcharge(mode, c, amount).Ok?
    ensures var b := c.virtualSol * amount / c.virtualToken;
            var f := Surcharge(mode, c, amount).value;
            && (SellPrice(mode, c, amount) == Err(CalculationError) <==> f > b)
            && (f <= b ==> SellPrice(mode, c, amount) == Ok(MinInt(AsU64(b - f), c.realSol)))
  {
    assert BasePrice(mode, c, amount) == Ok(c.virtualSol * amount / c.virtualToken);
  }

  /** A buy on the same curve fails with `CalculationError` only when the sum
      of base price and surcharge leaves u128; otherwise it quotes that sum
      truncated to u64. */
  lemma BuyAddsSurcharge(mode: MulMode, c: Curve, amount: U64)
    requires c.curveType != Sigmoid && amount > 0 && c.virtualToken > 0
    requires Surcharge(mode, c, amount).Ok?
    ensures var s := c.virtualSol * amount / c.virtualToken + Surcharge(mode, c, amount).value;
            BuyPrice(mode, c, amount) == if s < U128_LIMIT then Ok(AsU64(s)) else Err(CalculationError)
  {
    assert BasePrice(mode, c, amount) == Ok(c.virtualSol * amount / c.virtualToken);
  }

  /** `sigmoid(0, 0)` divides zero by zero: a panic, not `CalculationError`. */
  lemma SigmoidZeroPanics()
    ensures SigmoidRatio(0, 0) == Panic
  {
  }

  /** On a sigmoid curve with midpoint 0, an amount small enough that
      `x = amount * 10000 / virtual_token` is 0 makes both quotes trap. */
  lemma SigmoidSmallAmountPanics(mode: MulMode, c: Curve, amount: U64)
    requires c.curveType == Sigmoid && c.Midpoint() == 0
    requires 0 < amount && amount * BASIS_POINTS < c.virtualToken
    ensures BuyPrice(mode, c, amount) == Panic
    ensures SellPrice(mode, c, amount) == Panic
  {
    var x := Wide(amount, BASIS_POINTS);
    DivOfSmaller(x, c.virtualToken);
    assert DivU128(x, c.virtualToken) == Ok(0);
    assert SigmoidRatio(0, c.Midpoint()) == Panic;
    assert SigmoidPrice(mode, c, amount) == Panic;
  }

  /** The custom curve divides by `midpoint * 10000`, so a zero midpoint makes
      every non-zero quote trap, in both builds. */
  lemma CustomZeroMidpointPanics(mode: MulMode, c: Curve, amount: U64)
    requires c.curveType == Custom && c.Midpoint() == 0 && amount > 0 && c.virtualToken > 0
    ensures BuyPrice(mode, c, amount) == Panic
    ensures SellPrice(mode, c, amount) == Panic
  {
    assert BasePrice(mode, c, amount).Ok?;
  }

  /** A non-zero quote on a curve with no virtual tokens divides by zero. */
  lemma ZeroVirtualTokenPanics(mode: MulMode, c: Curve, amount: U64)
    requires c.virtualToken == 0 && amount > 0
    ensures BuyPrice(mode, c, amount) == Panic && SellPrice(mode, c, amount) == Panic
  {
  }

  // ---------------------------------------------------------------
  // The two builds
  // ---------------------------------------------------------------

  /** Where the trapping multiplication of deep.rs does not trap, it agrees
      with the saturating one of gpt.rs. */
  lemma MulModesAgree(a: U128, b: U128)
    requires !Mul(Trapping, a, b).Panic?
    ensures Mul(Saturating, a, b) == Mul(Trapping, a, b)
  {
  }

  /** Where deep.rs does not trap, its surcharge equals gpt.rs's. */
  lemma SurchargeModesAgree(c: Curve, amount: U64)
    requires c.curveType != Sigmoid && !Surcharge(Trapping, c, amount).Panic?
    ensures Surcharge(Saturating, c, amount) == Surcharge(Trapping, c, amount)
  {
    if c.curveType == Custom {
      var n := Wide(amount, c.Slope());
      if !Mul(Trapping, n, c.Exponent()).Panic? {
        MulModesAgree(n, c.Exponent());
      }
    }
  }

  /** Where deep.rs's sigmoid price does not trap, it equals gpt.rs's. */
  lemma SigmoidPriceModesAgree(c: Curve, amount: U64)
    ensures !SigmoidPrice(Trapping, c, amount).Panic? ==> SigmoidPrice(Saturating, c, amount) == SigmoidPrice(Trapping, c, amount)
  {
    if c.virtualToken > 0 {
      var x := Wide(amount, BASIS_POINTS) / c.virtualToken;
      var s := SigmoidRatio(x, c.Midpoint());
      if s.Ok? {
        var n := Wide(c.virtualSol, amount);
        if !Mul(Trapping, n, s.value).Panic? {
          MulModesAgree(n, s.value);
        }
      }
    }
  }

  /** gpt.rs and deep.rs quote the same buy price whenever deep.rs does not
      trap. */
  lemma BuyPriceModesAgree(c: Curve, amount: U64)
    ensures !BuyPrice(Trapping, c, amount).Panic? ==> BuyPrice(Saturating, c, amount) == BuyPrice(Trapping, c, amount)
  {
    if amount > 0 {
      if c.curveType == Sigmoid {
        SigmoidPriceModesAgree(c, amount);
      } else if c.virtualToken > 0 {
        if !Surcharge(Trapping, c, amount).Panic? {
          SurchargeModesAgree(c, amount);
        }
      }
    }
  }

  /** gpt.rs and deep.rs quote the same sell price whenever deep.rs does not
      trap. */
  lemma SellPriceModesAgree(c: Curve, amount: U64)
    ensures !SellPrice(Trapping, c, amount).Panic? ==> SellPrice(Saturating, c, amount) == SellPrice(Trapping, c, amount)
  {
    if amount > 0 {
      if c.curveType == Sigmoid {
        SigmoidPriceModesAgree(c, amount);
      } else if c.virtualToken > 0 {
        if !Surcharge(Trapping, c, amount).Panic? {
          SurchargeModesAgree(c, amount);
        }
      }
    }
  }

  // ---------------------------------------------------------------
  // Reserves
  // ---------------------------------------------------------------

  /** Applying `+d` and then `-d` to a reserve restores it. */
  lemma ReserveRoundTrip(reserve: U64, delta: I64)
    requires AdjustReserve(reserve, delta).Ok?
    ensures -delta != I64_MIN
    ensures AdjustReserve(AdjustReserve(reserve, delta).value, -delta) == Ok(reserve)
  {
  }

  /** Taking more than the reserve holds fails with `CalculationError` and
      writes nothing. */
  lemma ReserveUnderflowFails(reserve: U64, amount: U64)
    requires reserve < amount <= I64_MAX
    ensures AdjustReserve(reserve, -(amount as int)) == Err(CalculationError)
  {
  }

  /** A completed `update_reserves` is undone by the opposite deltas. */
  lemma UpdateReservesRoundTrip(c: Curve, solDelta: I64, tokenDelta: I64)
    requires UpdateReserves(c, solDelta, tokenDelta).Done?
    ensures UpdateReserves(UpdateReserves(c, solDelta, tokenDelta).state, -solDelta, -tokenDelta) == Done(c)
  {
    var c1 := UpdateReserves(c, solDelta, tokenDelta).state;
    assert DeltaFits(c1.realSol, -solDelta);
    assert DeltaFits(c1.realToken, -tokenDelta);
  }

  /** A failing token side leaves the SOL side already written: with a SOL
      delta that fits and a token side that underflows, the curve left behind
      holds the new SOL reserve and the old token reserve. */
  lemma TokenFailureKeepsSolWrite(c: Curve, solDelta: I64, tokenAmount: U64)
    requires DeltaFits(c.realSol, solDelta) && c.realToken < tokenAmount <= I64_MAX
    ensures UpdateReserves(c, solDelta, -(tokenAmount as int)) == Failed(CalculationError, c.(realSol := c.realSol + solDelta))
  {
  }

  /** A successful sell quote can always be taken out of the SOL reserve: the
      clamp keeps `real_sol_reserves - quote` from underflowing. */
  lemma SellCommitNeverUnderflows(mode: MulMode, c: Curve, amount: U64)
    ensures SellPrice(mode, c, amount).Ok? && SellPrice(mode, c, amount).value <= I64_MAX ==>
              AdjustReserve(c.realSol, -(SellPrice(mode, c, amount).value as int)) == Ok(c.realSol - SellPrice(mode, c, amount).value)
  {
  }
}

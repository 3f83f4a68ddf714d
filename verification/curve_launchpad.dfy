/** The `curve_launchpad` program of deepseek.rs: a launchpad account holding a
linear-only curve, slippage-guarded `buy` and `sell`, an authority-gated
`withdraw` of the custodied SOL and `set_params` that resets the curve.

An instruction either commits its new account state or leaves the account as
it was; the token and lamport moves it makes on the way are summarised by one
flag, `transfersOk`. */
module CurveLaunchpad {
  import opened Outcomes
  import opened RustInt
  import opened LaunchCurve

  datatype Launchpad = Launchpad(
    authority: Pubkey,
    mint: Pubkey,
    curve: Curve,
    feeRecipient: Pubkey,
    withdrawAuthority: Pubkey,
    feeBasisPoints: U64,
    bump: U8)

  /** A curve account as `init` leaves it: zero bytes, which decode as a
      linear curve with every reserve and parameter zero. */
  const ZERO_CURVE: Curve := Curve(Linear, 0, 0, 0, 0, 0, ZERO_U64X3)

  /** `initialize`: a zero-filled account whose authority is the signer. */
  function Initialize(user: Pubkey): (r: Launchpad)
    ensures r.authority == user && r.curve == ZERO_CURVE
  {
    Launchpad(user, 0, ZERO_CURVE, 0, 0, 0, 0)
  }

  // ---------------------------------------------------------------
  // Pricing
  // ---------------------------------------------------------------

  /** `calculate_linear_buy_price` and `calculate_linear_sell_price`, which have
      the same body: `(virtual_sol * amount / virtual_token) as u64`, with no
      zero-amount check, no surcharge and no clamp. */
  function LinearPrice(c: Curve, amount: U64): (r: Res<U64>)
    ensures c.virtualToken == 0 <==> r.Panic?
    ensures c.virtualToken > 0 ==> r == Ok(AsU64(c.virtualSol * amount / c.virtualToken))
  {
    var price :- DivU128(Wide(c.virtualSol, amount), c.virtualToken);
    Ok(AsU64(price))
  }

  /** `calculate_buy_price`: only the linear curve prices. */
  function BuyPrice(c: Curve, amount: U64): (r: Res<U64>)
    ensures c.curveType != Linear ==> r == Err(InvalidCurveParameters)
    ensures c.curveType == Linear ==> r == LinearPrice(c, amount)
  {
    match c.curveType
    case Linear => LinearPrice(c, amount)
    case _ => Err(InvalidCurveParameters)
  }

  /** `calculate_sell_price`: only the linear curve prices. */
  function SellPrice(c: Curve, amount: U64): (r: Res<U64>)
    ensures c.curveType != Linear ==> r == Err(InvalidCurveParameters)
    ensures c.curveType == Linear ==> r == LinearPrice(c, amount)
  {
    match c.curveType
    case Linear => LinearPrice(c, amount)
    case _ => Err(InvalidCurveParameters)
  }

  // ---------------------------------------------------------------
  // Instructions
  // ---------------------------------------------------------------

  /** `buy`: quote, check the buyer's ceiling, move SOL in and tokens out, then
      `update_reserves(sol as i64, -(tokens as i64))`. */
  function Buy(pad: Launchpad, tokenAmount: U64, maxSolCost: U64, transfersOk: bool): (r: Res<Launchpad>)
    ensures BuyPrice(pad.curve, tokenAmount).Err? ==> r == Err(BuyPrice(pad.curve, tokenAmount).code)
    ensures BuyPrice(pad.curve, tokenAmount).Ok? && BuyPrice(pad.curve, tokenAmount).value > maxSolCost ==>
              r == Err(InsufficientBalance)
    ensures r.Ok? ==> BuyPrice(pad.curve, tokenAmount).Ok? && BuyPrice(pad.curve, tokenAmount).value <= maxSolCost && transfersOk
    ensures r.Ok? ==> && r.value.curve.realSol == pad.curve.realSol + U64AsI64(BuyPrice(pad.curve, tokenAmount).value)
                      && r.value.curve.realToken == pad.curve.realToken - U64AsI64(tokenAmount)
                      && r.value.curve.(realSol := pad.curve.realSol, realToken := pad.curve.realToken) == pad.curve
                      && r.value.(curve := pad.curve) == pad
  {
    var sol :- BuyPrice(pad.curve, tokenAmount);
    if sol > maxSolCost then Err(InsufficientBalance)
    else if !transfersOk then Err(TransferFailed)
    else
      var tokenDelta :- NegI64(U64AsI64(tokenAmount));
      var c :- UpdateReserves(pad.curve, U64AsI64(sol), tokenDelta).Commit();
      Ok(pad.(curve := c))
  }

  /** `sell`: quote, check the seller's floor, move tokens in and SOL out, then
      `update_reserves(-(sol as i64), tokens as i64)`. */
  function Sell(pad: Launchpad, tokenAmount: U64, minSolOutput: U64, transfersOk: bool): (r: Res<Launchpad>)
    ensures SellPrice(pad.curve, tokenAmount).Err? ==> r == Err(SellPrice(pad.curve, tokenAmount).code)
    ensures SellPrice(pad.curve, tokenAmount).Ok? && SellPrice(pad.curve, tokenAmount).value < minSolOutput ==>
              r == Err(InsufficientBalance)
    ensures r.Ok? ==> SellPrice(pad.curve, tokenAmount).Ok? && SellPrice(pad.curve, tokenAmount).value >= minSolOutput && transfersOk
    ensures r.Ok? ==> && r.value.curve.realSol == pad.curve.realSol - U64AsI64(SellPrice(pad.curve, tokenAmount).value)
                      && r.value.curve.realToken == pad.curve.realToken + U64AsI64(tokenAmount)
                      && r.value.curve.(realSol := pad.curve.realSol, realToken := pad.curve.realToken) == pad.curve
                      && r.value.(curve := pad.curve) == pad
  {
    var sol :- SellPrice(pad.curve, tokenAmount);
    if sol < minSolOutput then Err(InsufficientBalance)
    else if !transfersOk then Err(TransferFailed)
    else
      var solDelta :- NegI64(U64AsI64(sol));
      var c :- UpdateReserves(pad.curve, solDelta, U64AsI64(tokenAmount)).Commit();
      Ok(pad.(curve := c))
  }

  /** `withdraw`: the authority takes all custodied SOL and the curve's SOL
      reserve drops to zero. */
  function Withdraw(pad: Launchpad, caller: Pubkey, transfersOk: bool): (r: Res<Launchpad>)
    ensures caller != pad.authority ==> r == Err(UnauthorizedAccess)
    ensures r.Ok? <==> caller == pad.authority && transfersOk
    ensures r.Ok? ==> r.value == pad.(curve := pad.curve.(realSol := 0))
  {
    if caller != pad.authority then Err(UnauthorizedAccess)
    else if !transfersOk then Err(TransferFailed)
    else Ok(pad.(curve := pad.curve.(realSol := 0)))
  }

  /** `set_params`: the authority replaces the curve by a fresh linear one and
      sets the fee fields. `initial_token_supply` is accepted and unused, and
      nothing checks the virtual reserves. */
  function SetParams(
    pad: Launchpad,
    caller: Pubkey,
    feeRecipient: Pubkey,
    withdrawAuthority: Pubkey,
    initialVirtualTokenReserves: U64,
    initialVirtualSolReserves: U64,
    initialRealTokenReserves: U64,
    initialTokenSupply: U64,
    feeBasisPoints: U64): (r: Res<Launchpad>)
    ensures caller != pad.authority <==> r == Err(UnauthorizedAccess)
    ensures r.Ok? <==> caller == pad.authority
    ensures r.Ok? ==>
              && r.value.curve == Curve(Linear, initialVirtualSolReserves, initialVirtualTokenReserves, 0,
                                        initialRealTokenReserves, initialVirtualTokenReserves, ZERO_U64X3)
              && r.value.feeRecipient == feeRecipient
              && r.value.withdrawAuthority == withdrawAuthority
              && r.value.feeBasisPoints == feeBasisPoints
              && r.value.authority == pad.authority && r.value.mint == pad.mint && r.value.bump == pad.bump
  {
    if caller != pad.authority then Err(UnauthorizedAccess)
    else
      Ok(pad.(curve := Curve(Linear, initialVirtualSolReserves, initialVirtualTokenReserves, 0,
                             initialRealTokenReserves, initialVirtualTokenReserves, ZERO_U64X3),
              feeRecipient := feeRecipient,
              withdrawAuthority := withdrawAuthority,
              feeBasisPoints := feeBasisPoints))
  }
}

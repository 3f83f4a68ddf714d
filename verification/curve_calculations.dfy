/** The curve account of the `complete_solana_project` program (state/curve.rs)
and the calculator in utils/curve_calculations.rs that prices trades against
it. The curve kind is a raw `u8`: 0 is linear, 1 to 5 name kinds whose code is
`unimplemented!()` or absent, and anything above 5 is rejected. */
module CurveCalculations {
  import opened Outcomes
  import opened RustInt

  datatype Curve = Curve(
    creator: Pubkey,
    mint: Pubkey,
    totalSupply: U64,
    reserveToken: U64,
    reserveSol: U64,
    curveType: U8,
    customParams: U64x3,
    bump: U8)

  /** `LINEAR` is the only curve kind with a body. */
  const LINEAR: int := 0

  /** The largest curve kind the dispatch names. */
  const LAST_KIND: int := 5

  /** `calculate_linear_tokens_out`: `sol_amount * total_supply / reserve_sol`
      in u64, where both the product and the division can trap. */
  function LinearTokensOut(c: Curve, solAmount: U64): (r: Res<U64>)
    ensures r.Ok? <==> solAmount * c.totalSupply < U64_LIMIT && c.reserveSol > 0
    ensures r.Ok? ==> r.value == solAmount * c.totalSupply / c.reserveSol
    ensures !r.Ok? ==> r.Panic?
  {
    var product :- MulU64(solAmount, c.totalSupply);
    DivU64(product, c.reserveSol)
  }

  /** `calculate_linear_sol_out`: `token_amount * reserve_sol / total_supply`
      in u64, where both the product and the division can trap. */
  function LinearSolOut(c: Curve, tokenAmount: U64): (r: Res<U64>)
    ensures r.Ok? <==> tokenAmount * c.reserveSol < U64_LIMIT && c.totalSupply > 0
    ensures r.Ok? ==> r.value == tokenAmount * c.reserveSol / c.totalSupply
    ensures !r.Ok? ==> r.Panic?
  {
    var product :- MulU64(tokenAmount, c.reserveSol);
    DivU64(product, c.totalSupply)
  }

  /** `calculate_tokens_out`: the tokens a buyer gets for `sol_amount`. Kinds
      1 to 5 abort: 1 is `unimplemented!()`, 2 to 5 have no code. */
  function TokensOut(c: Curve, solAmount: U64): (r: Res<U64>)
    ensures c.curveType == LINEAR ==> r == LinearTokensOut(c, solAmount)
    ensures LINEAR < c.curveType <= LAST_KIND ==> r == Panic
    ensures c.curveType > LAST_KIND ==> r == Err(InvalidInstructionData)
  {
    if c.curveType == LINEAR then LinearTokensOut(c, solAmount)
    else if c.curveType <= LAST_KIND then Panic
    else Err(InvalidInstructionData)
  }

  /** `calculate_sol_out`: the SOL a seller gets for `token_amount`. */
  function SolOut(c: Curve, tokenAmount: U64): (r: Res<U64>)
    ensures c.curveType == LINEAR ==> r == LinearSolOut(c, tokenAmount)
    ensures LINEAR < c.curveType <= LAST_KIND ==> r == Panic
    ensures c.curveType > LAST_KIND ==> r == Err(InvalidInstructionData)
  {
    if c.curveType == LINEAR then LinearSolOut(c, tokenAmount)
    else if c.curveType <= LAST_KIND then Panic
    else Err(InvalidInstructionData)
  }

  /** Selling at most the supply never yields more than the SOL reserve. */
  lemma SolOutWithinReserve(c: Curve, tokenAmount: U64)
    requires SolOut(c, tokenAmount).Ok? && tokenAmount <= c.totalSupply
    ensures SolOut(c, tokenAmount).value <= c.reserveSol
  {
    if c.curveType == LINEAR {
      MulDivAtMost(c.reserveSol, tokenAmount, c.totalSupply);
      assert tokenAmount * c.reserveSol == c.reserveSol * tokenAmount;
    }
  }

  /** More SOL in never buys fewer tokens, and a smaller purchase succeeds
      whenever a larger one does. */
  lemma TokensOutMonotone(c: Curve, a1: U64, a2: U64)
    requires a1 <= a2 && TokensOut(c, a2).Ok?
    ensures TokensOut(c, a1).Ok? && TokensOut(c, a1).value <= TokensOut(c, a2).value
  {
    MulLe(c.totalSupply, a1, a2);
    DivMonotone(a1 * c.totalSupply, a2 * c.totalSupply, c.reserveSol);
  }

  /** More tokens in never yields less SOL, and a smaller sale succeeds
      whenever a larger one does. */
  lemma SolOutMonotone(c: Curve, a1: U64, a2: U64)
    requires a1 <= a2 && SolOut(c, a2).Ok?
    ensures SolOut(c, a1).Ok? && SolOut(c, a1).value <= SolOut(c, a2).value
  {
    MulLe(c.reserveSol, a1, a2);
    DivMonotone(a1 * c.reserveSol, a2 * c.reserveSol, c.totalSupply);
  }
}

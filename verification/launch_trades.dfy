/** Creating a launch and trading against it in the `complete_solana_project`
program: `initialize_launch`, `buy_tokens` and `sell_tokens` of src/lib.rs,
whose trade handlers are repeated in src/instructions/buy_tokens.rs and
src/instructions/sell_tokens.rs.

The trades commit with plain u64 `-=` and `+=`, so a reserve that would leave
u64 traps instead of failing with an error code. */
module LaunchTrades {
  import opened Outcomes
  import opened RustInt
  import opened CurveCalculations

  /** `initialize_launch`: the whole supply is in the token reserve and no SOL
      is in the SOL reserve. */
  function InitializeLaunch(creator: Pubkey, mint: Pubkey, totalSupply: U64, curveType: U8,
                            customParams: U64x3, bump: U8): (c: Curve)
    ensures c.reserveToken == c.totalSupply == totalSupply
    ensures c.reserveSol == 0
    ensures c.creator == creator && c.mint == mint && c.curveType == curveType
    ensures c.customParams == customParams && c.bump == bump
  {
    Curve(creator, mint, totalSupply, totalSupply, 0, curveType, customParams, bump)
  }

  /** `buy_tokens`: `amount` is the SOL paid in. A calculator failure returns
      before anything moves; afterwards the token reserve loses `tokens_out`
      and the SOL reserve gains `amount`. */
  function BuyTokens(c: Curve, amount: U64, transfersOk: bool): (r: Res<Curve>)
    ensures TokensOut(c, amount).Err? ==> r == Err(TokensOut(c, amount).code)
    ensures TokensOut(c, amount).Panic? ==> r == Panic
    ensures TokensOut(c, amount).Ok? && !transfersOk ==> r == Err(TransferFailed)
    ensures TokensOut(c, amount).Ok? && transfersOk ==>
              var out := TokensOut(c, amount).value;
              r == if out <= c.reserveToken && IsU64(c.reserveSol + amount)
                   then Ok(c.(reserveToken := c.reserveToken - out, reserveSol := c.reserveSol + amount))
                   else Panic
  {
    var tokensOut :- TokensOut(c, amount);
    if !transfersOk then Err(TransferFailed)
    else
      var reserveToken :- SubU64(c.reserveToken, tokensOut);
      var reserveSol :- AddU64(c.reserveSol, amount);
      Ok(c.(reserveToken := reserveToken, reserveSol := reserveSol))
  }

  /** `sell_tokens`: `amount` is the tokens sold in. A calculator failure
      returns before anything moves; afterwards the token reserve gains
      `amount` and the SOL reserve loses `sol_out`. */
  function SellTokens(c: Curve, amount: U64, transfersOk: bool): (r: Res<Curve>)
    ensures SolOut(c, amount).Err? ==> r == Err(SolOut(c, amount).code)
    ensures SolOut(c, amount).Panic? ==> r == Panic
    ensures SolOut(c, amount).Ok? && !transfersOk ==> r == Err(TransferFailed)
    ensures SolOut(c, amount).Ok? && transfersOk ==>
              var out := SolOut(c, amount).value;
              r == if IsU64(c.reserveToken + amount) && out <= c.reserveSol
                   then Ok(c.(reserveToken := c.reserveToken + amount, reserveSol := c.reserveSol - out))
                   else Panic
  {
    var solOut :- SolOut(c, amount);
    if !transfersOk then Err(TransferFailed)
    else
      var reserveToken :- AddU64(c.reserveToken, amount);
      var reserveSol :- SubU64(c.reserveSol, solOut);
      Ok(c.(reserveToken := reserveToken, reserveSol := reserveSol))
  }

  /** A sell of at most the supply never underflows the SOL reserve: it
      commits unless the token reserve overflows. */
  lemma SellCommitsWithinSupply(c: Curve, amount: U64)
    requires SolOut(c, amount).Ok? && amount <= c.totalSupply && IsU64(c.reserveToken + amount)
    ensures SellTokens(c, amount, true).Ok?
    ensures SellTokens(c, amount, true).value.reserveSol == c.reserveSol - SolOut(c, amount).value
  {
    SolOutWithinReserve(c, amount);
  }

  /** A trade, with whether its transfers go through. */
  datatype Trade = Buy(amount: U64, transfersOk: bool) | Sell(amount: U64, transfersOk: bool)

  /** One transaction: the account after the trade, or unchanged if it failed. */
  function Apply(c: Curve, t: Trade): (r: Curve)
    ensures r.creator == c.creator && r.mint == c.mint && r.totalSupply == c.totalSupply
    ensures r.curveType == c.curveType && r.customParams == c.customParams && r.bump == c.bump
  {
    match t
    case Buy(amount, ok) => Settle(c, BuyTokens(c, amount, ok))
    case Sell(amount, ok) => Settle(c, SellTokens(c, amount, ok))
  }

  /** A sequence of transactions, applied in order. */
  function Run(c: Curve, trades: seq<Trade>): (r: Curve)
    decreases |trades|
  {
    if |trades| == 0 then c else Run(Apply(c, trades[0]), trades[1..])
  }

  /** On a linear curve with no SOL in the reserve, every sell pays out
      nothing and every buy divides by zero, so the SOL reserve stays empty. */
  lemma EmptySolReserveIsStable(c: Curve, t: Trade)
    requires c.curveType == LINEAR && c.reserveSol == 0
    ensures Apply(c, t).reserveSol == 0
    ensures t.Buy? ==> BuyTokens(c, t.amount, t.transfersOk) == Panic
  {
    if t.Sell? && c.totalSupply > 0 {
      assert t.amount * c.reserveSol == 0;
    }
  }

  /** A linear launch created by `initialize_launch` never holds SOL, whatever
      trades follow, and every buy against it traps. */
  lemma {:induction false} LinearLaunchNeverTrades(c: Curve, trades: seq<Trade>, amount: U64, transfersOk: bool)
    requires c.curveType == LINEAR && c.reserveSol == 0
    ensures Run(c, trades).reserveSol == 0
    ensures BuyTokens(Run(c, trades), amount, transfersOk) == Panic
    decreases |trades|
  {
    if |trades| == 0 {
      EmptySolReserveIsStable(c, Buy(amount, transfersOk));
    } else {
      EmptySolReserveIsStable(c, trades[0]);
      LinearLaunchNeverTrades(Apply(c, trades[0]), trades[1..], amount, transfersOk);
    }
  }

  /** The first buy on a fresh linear launch traps. */
  lemma FirstLinearBuyTraps(creator: Pubkey, mint: Pubkey, totalSupply: U64, customParams: U64x3, bump: U8,
                            amount: U64, transfersOk: bool)
    ensures BuyTokens(InitializeLaunch(creator, mint, totalSupply, 0, customParams, bump), amount, transfersOk) == Panic
  {
  }
}

/** The bonding curve of the token-launch programs (`Curve` in gpt.rs and
deep.rs): four pricing formulas evaluated in u128, a sell-side clamp to the
custodied SOL, and checked signed updates of the real reserves.

The two files hold the same code except for the multiplications: gpt.rs uses
`saturating_mul`, deep.rs a plain `*` that traps on overflow. `MulMode` selects
between them, so every formula below is written once.
*/
module LaunchCurve {
  import opened Outcomes
  import opened RustInt

  /** `BASIS_POINTS`: the scale of `slope`, `exponent` and of the sigmoid. */
  const BASIS_POINTS: int := 10000

  datatype CurveType = Linear | Exponential | Sigmoid | Custom

  datatype Curve = Curve(
    curveType: CurveType,
    virtualSol: U64,
    virtualToken: U64,
    realSol: U64,
    realToken: U64,
    initialVirtualToken: U64,
    customParams: U64x3)
  {
    /** `custom_params[0]` */
    function Slope(): U64 { customParams.at0 }

    /** `custom_params[1]` */
    function Exponent(): U64 { customParams.at1 }

    /** `custom_params[2]` */
    function Midpoint(): U64 { customParams.at2 }
  }

  /** How a u128 product is taken: gpt.rs saturates, deep.rs traps. */
  datatype MulMode = Saturating | Trapping

  /** A u128 product of two u64 values: it neither saturates nor traps, so
      both builds compute it exactly. */
  function Wide(a: U64, b: U64): (r: U128)
    ensures r == a * b
  {
    U64ProductFits(a, b);
    a * b
  }

  function Mul(mode: MulMode, a: U128, b: U128): (r: Res<U128>)
    ensures a * b < U128_LIMIT ==> r == Ok(a * b)
    ensures a * b >= U128_LIMIT && mode.Saturating? ==> r == Ok(U128_MAX)
    ensures a * b >= U128_LIMIT && mode.Trapping? ==> r == Panic
  {
    match mode
    case Saturating => Ok(SaturatingMulU128(a, b))
    case Trapping => MulU128(a, b)
  }

  // ---------------------------------------------------------------
  // Initialisation
  // ---------------------------------------------------------------

  /** `Curve::initialize`. The check comes before any field is written, so a
      failure leaves the account as it was. */
  function Initialize(curveType: CurveType, virtualSol: U64, virtualToken: U64, customParams: U64x3): (r: Res<Curve>)
    ensures r.Err? <==> virtualSol == 0 || virtualToken == 0
    ensures r.Err? ==> r.code == InvalidCurveParameters
    ensures !r.Panic?
    ensures r.Ok? ==> && r.value.curveType == curveType
                      && r.value.virtualSol == virtualSol
                      && r.value.virtualToken == virtualToken
                      && r.value.realSol == 0
                      && r.value.realToken == virtualToken
                      && r.value.initialVirtualToken == virtualToken
                      && r.value.customParams == customParams
  {
    if virtualSol > 0 && virtualToken > 0 then
      Ok(Curve(curveType, virtualSol, virtualToken, 0, virtualToken, virtualToken, customParams))
    else
      Err(InvalidCurveParameters)
  }

  // ---------------------------------------------------------------
  // Pricing
  // ---------------------------------------------------------------

  /** `virtual_sol * amount / virtual_token`, the base price shared by the
      linear, exponential and custom curves. */
  function BasePrice(mode: MulMode, c: Curve, amount: U64): (r: Res<U128>)
    ensures c.virtualToken == 0 <==> r.Panic?
    ensures c.virtualToken > 0 ==> r == Ok(c.virtualSol * amount / c.virtualToken)
  {
    DivU128(Wide(c.virtualSol, amount), c.virtualToken)
  }

  /** The surcharge a buy adds to and a sell takes off the base price:
      `amount * slope / 10000` (linear), `(amount * exponent / 10000)^2`
      (exponential) or `amount * slope * exponent / (midpoint * 10000)`
      (custom). */
  function Surcharge(mode: MulMode, c: Curve, amount: U64): (r: Res<U128>)
    requires c.curveType != Sigmoid
    ensures c.curveType == Linear ==> r == Ok(amount * c.Slope() / BASIS_POINTS)
    ensures c.curveType == Exponential ==>
              var f := amount * c.Exponent() / BASIS_POINTS;
              r == if f * f < U128_LIMIT then Ok(f * f) else Panic
    ensures c.curveType == Custom && c.Midpoint() == 0 ==> r == Panic
    ensures c.curveType == Custom && amount * c.Slope() * c.Exponent() < U128_LIMIT && c.Midpoint() > 0 ==>
              r == Ok(amount * c.Slope() * c.Exponent() / (c.Midpoint() * BASIS_POINTS))
    ensures c.curveType == Custom && c.Midpoint() > 0 && amount * c.Slope() * c.Exponent() >= U128_LIMIT ==>
              r == if mode.Saturating? then Ok(U128_MAX / (c.Midpoint() * BASIS_POINTS)) else Panic
  {
    match c.curveType
    case Linear =>
      Ok(Wide(amount, c.Slope()) / BASIS_POINTS)
    case Exponential =>
      SquareU128(Wide(amount, c.Exponent()) / BASIS_POINTS)
    case Custom =>
      var numerator :- Mul(mode, Wide(amount, c.Slope()), c.Exponent());
      DivU128(numerator, Wide(c.Midpoint(), BASIS_POINTS))
  }

  /** `sigmoid(x, midpoint)`: `x * 10000 / (x + midpoint)`, with checked
      multiplication and addition but a plain division. */
  function SigmoidRatio(x: U128, midpoint: U128): (r: Res<U128>)
    ensures x * BASIS_POINTS >= U128_LIMIT ==> r == Err(CalculationError)
    ensures x * BASIS_POINTS < U128_LIMIT && x + midpoint >= U128_LIMIT ==> r == Err(CalculationError)
    ensures x + midpoint == 0 ==> r == Panic
    ensures r.Ok? ==> x + midpoint > 0 && r.value == x * BASIS_POINTS / (x + midpoint)
    ensures r.Ok? ==> r.value <= BASIS_POINTS
  {
    var numerator :- CheckedMulU128(x, BASIS_POINTS);
    var denominator :- CheckedAddU128(x, midpoint);
    if denominator > 0 then MulDivAtMost(BASIS_POINTS, x, denominator); DivU128(numerator, denominator)
    else DivU128(numerator, denominator)
  }

  /** The sigmoid curve's price before the `as u64` cast:
      `virtual_sol * amount * sigmoid / (virtual_token * 10000)` with
      `x = amount * 10000 / virtual_token`. */
  function SigmoidPrice(mode: MulMode, c: Curve, amount: U64): (r: Res<U128>)
    ensures c.virtualToken == 0 ==> r == Panic
  {
    var x :- DivU128(Wide(amount, BASIS_POINTS), c.virtualToken);
    var s :- SigmoidRatio(x, c.Midpoint());
    var numerator :- Mul(mode, Wide(c.virtualSol, amount), s);
    DivU128(numerator, Wide(c.virtualToken, BASIS_POINTS))
  }

  /** `calculate_buy_price`: the SOL a buyer pays for `amount` tokens. */
  function BuyPrice(mode: MulMode, c: Curve, amount: U64): (r: Res<U64>)
    ensures amount == 0 ==> r == Err(InvalidAmount)
    ensures amount > 0 && c.virtualToken == 0 ==> r == Panic
  {
    if amount == 0 then Err(InvalidAmount)
    else if c.curveType == Sigmoid then
      var price :- SigmoidPrice(mode, c, amount);
      Ok(AsU64(price))
    else
      var base :- BasePrice(mode, c, amount);
      var factor :- Surcharge(mode, c, amount);
      var total :- CheckedAddU128(base, factor);
      Ok(AsU64(total))
  }

  /** `calculate_sell_price`: the SOL a seller receives for `amount` tokens,
      never more than the custodied `real_sol_reserves`. */
  function SellPrice(mode: MulMode, c: Curve, amount: U64): (r: Res<U64>)
    ensures amount == 0 ==> r == Err(InvalidAmount)
    ensures amount > 0 && c.virtualToken == 0 ==> r == Panic
    ensures r.Ok? ==> r.value <= c.realSol
  {
    if amount == 0 then Err(InvalidAmount)
    else if c.curveType == Sigmoid then
      var price :- SigmoidPrice(mode, c, amount);
      Ok(MinInt(AsU64(price), c.realSol))
    else
      var base :- BasePrice(mode, c, amount);
      var factor :- Surcharge(mode, c, amount);
      var total :- CheckedSubU128(base, factor);
      Ok(MinInt(AsU64(total), c.realSol))
  }

  // ---------------------------------------------------------------
  // Reserve updates
  // ---------------------------------------------------------------

  /** Whether a signed delta can be applied to a u64 reserve: the new value
      is in range and the delta has an absolute value. */
  predicate DeltaFits(reserve: U64, delta: I64) {
    delta != I64_MIN && IsU64(reserve + delta)
  }

  /** One side of `update_reserves` in gpt.rs and deepseek.rs: checked add of
      a positive delta, checked sub of `|delta|` for a negative one, nothing
      for zero. */
  function AdjustReserve(reserve: U64, delta: I64): (r: Res<U64>)
    ensures delta == I64_MIN <==> r.Panic?
    ensures DeltaFits(reserve, delta) <==> r.Ok?
    ensures r.Ok? ==> r.value == reserve + delta
    ensures r.Err? ==> r.code == CalculationError
  {
    if delta > 0 then CheckedAddU64(reserve, delta)
    else if delta < 0 then
      var magnitude :- AbsI64(delta);
      CheckedSubU64(reserve, magnitude)
    else Ok(reserve)
  }

  /** One side of `update_reserves` in deep.rs: a zero delta takes the
      `else` branch and goes through `checked_sub(0)`. */
  function AdjustReserveViaSub(reserve: U64, delta: I64): (r: Res<U64>)
    ensures r == AdjustReserve(reserve, delta)
    ensures delta == 0 ==> r == Ok(reserve)
  {
    if delta > 0 then CheckedAddU64(reserve, delta)
    else
      var magnitude :- AbsI64(delta);
      CheckedSubU64(reserve, magnitude)
  }

  /** `update_reserves`: the SOL side is written before the token side is
      checked, so a failing token side leaves the new SOL reserve behind. */
  function UpdateReserves(c: Curve, solDelta: I64, tokenDelta: I64): (r: Step<Curve>)
    ensures r.Done? <==> DeltaFits(c.realSol, solDelta) && DeltaFits(c.realToken, tokenDelta)
    ensures r.Done? ==> r.state == c.(realSol := c.realSol + solDelta, realToken := c.realToken + tokenDelta)
    ensures r.Aborted? <==> solDelta == I64_MIN || (DeltaFits(c.realSol, solDelta) && tokenDelta == I64_MIN)
    ensures r.Failed? ==> r.code == CalculationError
    ensures r.Failed? && !DeltaFits(c.realSol, solDelta) ==> r.state == c
    ensures r.Failed? && DeltaFits(c.realSol, solDelta) ==> r.state == c.(realSol := c.realSol + solDelta)
  {
    match AdjustReserve(c.realSol, solDelta)
    case Panic => Aborted
    case Err(e) => Failed(e, c)
    case Ok(s) =>
      var c1 := c.(realSol := s);
      match AdjustReserve(c.realToken, tokenDelta)
      case Panic => Aborted
      case Err(e) => Failed(e, c1)
      case Ok(t) => Done(c1.(realToken := t))
  }

  /** `update_reserves` as deep.rs writes it. */
  function UpdateReservesViaSub(c: Curve, solDelta: I64, tokenDelta: I64): (r: Step<Curve>)
    ensures r == UpdateReserves(c, solDelta, tokenDelta)
  {
    match AdjustReserveViaSub(c.realSol, solDelta)
    case Panic => Aborted
    case Err(e) => Failed(e, c)
    case Ok(s) =>
      var c1 := c.(realSol := s);
      match AdjustReserveViaSub(c.realToken, tokenDelta)
      case Panic => Aborted
      case Err(e) => Failed(e, c1)
      case Ok(t) => Done(c1.(realToken := t))
  }
}

# FunPump launchpad and escrow programs: a Dafny model

FunPump is a set of Solana programs written with Anchor. The integer logic under
their account plumbing falls into four parts, and this project models each of them:

- **The bonding curve of gpt.rs and deep.rs.** It has four curve kinds: linear,
  exponential, sigmoid and custom. Prices are computed in u128, a sell quote is
  clamped to the SOL the curve holds, and `update_reserves` applies checked signed
  deltas. The two files differ in behaviour only in their multiplications: gpt.rs
  saturates and deep.rs traps. deep.rs also writes the zero-delta branch of
  `update_reserves` differently, and the model proves the two forms equal. The
  model writes each formula once over a `MulMode`.
- **The linear-only launchpad of deepseek.rs.** It adds slippage-guarded `buy` and
  `sell`, an authority-gated `withdraw` and `set_params`.
- **The `complete_solana_project` launch.** Its calculator, in
  utils/curve_calculations.rs, dispatches on a `u8` curve kind. Its trade handlers,
  in src/lib.rs and src/instructions/, commit the reserves with unchecked u64
  `+=` and `-=`.
- **The vesting calculator `VestingConfig` of deep.rs.** It has linear, cliff,
  staggered (quarterly) and milestone schedules, behind a cliff gate and clamped
  to the grant.
- **The lock vault and one-shot vesting account.** The model has both versions:
  the validated one in lib.rs and the unvalidated one in src/lib.rs.

Rust's arithmetic is written out explicitly, with overflow checks on as Anchor
builds them. Every operation returns `Ok(v)`, `Err(code)` or `Panic`:

- `checked_*` followed by `ok_or(CalculationError)` gives an error code.
- A plain `+`, `-` or `*` that overflows gives `Panic`.
- So do a division by zero, `abs()` of `i64::MIN`, a u16 `sum()` that overflows,
  and `unimplemented!()`.
- `as u64` keeps the low 64 bits.
- `saturating_mul` caps at `u128::MAX`.
- Rust's `/` on `i64` truncates toward zero.

Two outcome types describe what a failure leaves behind:

- An Anchor instruction either commits all of its account writes or none of
  them. Instructions therefore return `Res<State>`, and `Settle` gives the
  account after the transaction.
- A `&mut self` method returns `Step<State>`: `Done`, `Failed(code, state)` or
  `Aborted`. A field it writes before a later `?` fails stays visible in the
  `Failed` state, as in `update_reserves` and `VestingConfig::initialize`.

Some inputs come from outside the program and are parameters of the model:

- the clock's `unix_timestamp` (`now`);
- the market cap;
- the signer (`owner` or `caller`);
- whether the token and lamport transfers go through (`transfersOk`).

A `has_one = owner` account constraint is an owner comparison made before the
handler runs.

Modules:

- `Outcomes`: `Res`, `Step` and `Settle`.
- `RustInt`: integer ranges, casts, checked and unchecked operations, and the
  arithmetic lemmas the proofs use.
- `LaunchCurve`: the curve of gpt.rs and deep.rs. Its properties are in
  `LaunchCurveFacts`.
- `CurveLaunchpad`: the launchpad of deepseek.rs. Its properties are in
  `CurveLaunchpadFacts`.
- `CurveCalculations` and `LaunchTrades`: the launch of src/lib.rs.
- `Vesting`: the calculator of deep.rs. Its properties are in `VestingFacts`.
- `Escrow` and `EscrowUnchecked`: lib.rs and src/lib.rs. Their properties are in
  `EscrowFacts`.

Behaviours of the code worth noting:

- `sigmoid(0, 0)` divides zero by zero. That is a panic, not `CalculationError`.
- With every milestone passed, the vested amount can still be below the grant,
  because each share is floored separately.
- The staggered schedule releases only `(total / 4) * 4`.
- No code claims vested tokens or advances `released_amount`.

## Model

| member | source | states |
|---|---|---|
| LaunchCurve.Initialize | gpt.rs:109-127 | Fails with `InvalidCurveParameters`, writing nothing, exactly when a virtual reserve is zero. Otherwise it stores the arguments, with no real SOL and the real and initial token reserves equal to the virtual token reserve. |
| LaunchCurve.BasePrice | gpt.rs:161 | The base price is `floor(vsol * amt / vtok)`, with no saturation in either build. It traps exactly when the virtual token reserve is zero. |
| LaunchCurve.Surcharge | gpt.rs:163 | Linear adds `floor(amt * slope / 10000)`. Exponential adds the square of `floor(amt * exponent / 10000)` and traps when the square overflows. Custom adds `floor(amt * slope * exponent / (midpoint * 10000))` when the product fits in u128. When it does not, gpt.rs yields `floor(u128::MAX / (midpoint * 10000))` and deep.rs traps. Both trap on a zero midpoint. |
| LaunchCurve.Mul | gpt.rs:271 | A product that fits in u128 is exact. Beyond u128, gpt.rs's `saturating_mul` yields `u128::MAX` and deep.rs's `*` traps. |
| LaunchCurve.SigmoidRatio | gpt.rs:304-313 | Overflow of `x * 10000` or of `x + midpoint` is `CalculationError`. A zero denominator traps. Otherwise the result is `floor(x * 10000 / (x + midpoint))`, which is at most 10000. |
| LaunchCurve.SigmoidPrice | gpt.rs:228-241 | A zero virtual token reserve makes the sigmoid price trap. |
| LaunchCurve.BuyPrice | gpt.rs:129-138 | A zero amount fails with `InvalidAmount` before the curve kind is looked at. A non-zero amount on a curve with no virtual tokens traps. |
| LaunchCurve.SellPrice | gpt.rs:140-149 | A zero amount fails with `InvalidAmount`. A successful quote, on every curve kind, never exceeds the real SOL reserve. |
| LaunchCurve.AdjustReserve | gpt.rs:319-327 | A delta is a checked add if positive, a checked sub of its magnitude if negative, and nothing if zero. The result is `reserve + delta` when that fits in u64. Otherwise it is `CalculationError`, or a trap for `i64::MIN`. |
| LaunchCurve.AdjustReserveViaSub | deep.rs:340-348 | deep.rs routes a zero delta through `checked_sub(0)`. That gives the same result as the gpt.rs branch structure on every input, and leaves the reserve unchanged for a zero delta. |
| LaunchCurve.UpdateReserves | gpt.rs:318-340 | Completes exactly when both deltas fit, and adds both. Fails with `CalculationError`. A failing token side leaves the new SOL reserve written, and a failing SOL side writes nothing. |
| LaunchCurve.UpdateReservesViaSub | deep.rs:339-361 | deep.rs's `update_reserves` behaves exactly like gpt.rs's on every input. |
| LaunchCurveFacts.SellAfterInitializeIsZero | gpt.rs:121 | Straight after `initialize`, every successful sell quote is 0. |
| LaunchCurveFacts.LinearBuyClosedForm | gpt.rs:154-170 | The linear buy quote is `(floor(vsol*amt/vtok) + floor(amt*slope/10000)) as u64`. It fails only when that sum leaves u128. |
| LaunchCurveFacts.LinearSellClosedForm | gpt.rs:172-187 | The linear sell quote is the base price less the slope surcharge, truncated to u64 and clamped to the real SOL. It fails exactly when the surcharge is larger. |
| LaunchCurveFacts.LinearBuyExample | gpt.rs:154-170 | vsol 100 000 000, vtok 1 000 000, slope 0 and amount 10 000 quote 1 000 000 in both builds. |
| LaunchCurveFacts.SellFailsExactlyOnSurcharge | gpt.rs:209-223 | On the linear, exponential and custom curves, a sell fails with `CalculationError` if and only if the surcharge exceeds the base price. Otherwise it quotes the clamped difference. |
| LaunchCurveFacts.BuyAddsSurcharge | gpt.rs:192-207 | On the same curves, a buy quotes base plus surcharge truncated to u64. It fails only when that sum leaves u128. |
| LaunchCurveFacts.SigmoidZeroPanics | gpt.rs:309-312 | `sigmoid(0, 0)` is a division-by-zero trap. |
| LaunchCurveFacts.SigmoidSmallAmountPanics | gpt.rs:228-256 | With midpoint 0, an amount whose scaled `x` floors to 0 makes both sigmoid quotes trap. |
| LaunchCurveFacts.CustomZeroMidpointPanics | gpt.rs:261-299 | A zero midpoint makes every non-zero custom quote trap in both builds. |
| LaunchCurveFacts.ZeroVirtualTokenPanics | gpt.rs:154-170 | With no virtual tokens, every non-zero quote traps. |
| LaunchCurveFacts.MulModesAgree | deep.rs:195-225 | Where deep.rs's trapping product does not trap, it equals gpt.rs's saturating one. |
| LaunchCurveFacts.SurchargeModesAgree | deep.rs:290-326 | Where deep.rs does not trap, its surcharge equals gpt.rs's. |
| LaunchCurveFacts.SigmoidPriceModesAgree | deep.rs:261-287 | Where deep.rs does not trap, its sigmoid price equals gpt.rs's. |
| LaunchCurveFacts.BuyPriceModesAgree | deep.rs:172-181 | deep.rs and gpt.rs quote the same buy price wherever deep.rs does not trap. |
| LaunchCurveFacts.SellPriceModesAgree | deep.rs:183-192 | deep.rs and gpt.rs quote the same sell price wherever deep.rs does not trap. |
| LaunchCurveFacts.ReserveRoundTrip | gpt.rs:319-327 | Applying `+d` and then `-d` to a reserve restores it. |
| LaunchCurveFacts.ReserveUnderflowFails | gpt.rs:323-326 | Taking more than the reserve holds fails with `CalculationError`. |
| LaunchCurveFacts.UpdateReservesRoundTrip | gpt.rs:318-340 | A completed `update_reserves` is undone by the opposite deltas. |
| LaunchCurveFacts.TokenFailureKeepsSolWrite | gpt.rs:329-337 | When the SOL delta fits and the token side underflows, the failure leaves behind the new SOL reserve and the old token reserve. |
| LaunchCurveFacts.SellCommitNeverUnderflows | gpt.rs:186 | Subtracting a successful sell quote from the real SOL reserve never underflows. |
| CurveLaunchpad.Initialize | deepseek.rs:69-73 | The new launchpad's authority is the signer, and its curve is the zero-filled linear curve. |
| CurveLaunchpad.LinearPrice | deepseek.rs:361-377 | The quote is `floor(vsol * amt / vtok) as u64`, with no zero-amount check, surcharge or clamp. It traps exactly when the virtual token reserve is zero. |
| CurveLaunchpad.BuyPrice | deepseek.rs:347-352 | Any curve kind other than linear fails with `InvalidCurveParameters`. |
| CurveLaunchpad.SellPrice | deepseek.rs:354-359 | Any curve kind other than linear fails with `InvalidCurveParameters`. |
| CurveLaunchpad.Buy | deepseek.rs:118-155 | A quote above `max_sol_cost` fails with `InsufficientBalance` before anything moves. On success the SOL reserve is adjusted by `+quote` and the token reserve by `-amount`, each read as `i64` (`as i64` wraps values from 2^63 on, so a large amount can make a reserve move the other way). No other field changes. |
| CurveLaunchpad.Sell | deepseek.rs:177-213 | A quote below `min_sol_output` fails with `InsufficientBalance`. On success the SOL reserve is adjusted by `-quote` and the token reserve by `+amount`, each read as `i64` (`as i64` wraps values from 2^63 on, so a large quote can make a reserve move the other way). No other field changes. |
| CurveLaunchpad.Withdraw | deepseek.rs:232-255 | Fails with `UnauthorizedAccess` unless the caller is the authority. On success only the real SOL reserve changes, to 0. |
| CurveLaunchpad.SetParams | deepseek.rs:269-301 | Fails with `UnauthorizedAccess` exactly when the caller is not the authority. Otherwise it installs a fresh linear curve with no real SOL and zero custom parameters, plus the new fee fields, and keeps authority, mint and bump. |
| CurveLaunchpadFacts.QuotesSymmetric | deepseek.rs:361-377 | Buying and selling the same amount are quoted alike. |
| CurveLaunchpadFacts.ZeroAmountIsQuoted | deepseek.rs:361-368 | A zero amount is quoted at 0, where the curve of gpt.rs rejects it with `InvalidAmount`. |
| CurveLaunchpadFacts.BuyCommitExact | deepseek.rs:146 | A guarded buy whose deltas fit moves exactly the quote into the SOL reserve and the tokens out of the token reserve. |
| CurveLaunchpadFacts.BuySellRoundTrip | deepseek.rs:118-213 | Selling back what was just bought, with the buy's price as the floor, restores the launchpad exactly. |
| CurveLaunchpadFacts.SellOverdrawFails | deepseek.rs:204 | Because the sell quote is unclamped, a quote above the real SOL reserve passes the guards and then fails in `update_reserves` with `CalculationError`. |
| CurveLaunchpadFacts.SellAfterWithdrawFails | deepseek.rs:252 | After `withdraw`, every sell quoted above zero fails. |
| CurveLaunchpadFacts.BuyOfHalfRangeTraps | deepseek.rs:146 | Buying 2^63 tokens negates `i64::MIN` and traps. |
| CurveLaunchpadFacts.BuyOfWrappedAmountGrowsTokens | deepseek.rs:146 | Because `token_amount as i64` wraps, buying `u64::MAX` tokens at a zero quote adds one token to the reserve instead of removing any. |
| CurveLaunchpadFacts.FreshLaunchpadTraps | deepseek.rs:69-73 | On a freshly initialised launchpad every trade divides by zero. |
| CurveLaunchpadFacts.SetParamsCanDisableTrading | deepseek.rs:286-294 | `set_params` accepts a zero virtual token reserve, after which every trade traps. |
| CurveCalculations.LinearTokensOut | utils/curve_calculations.rs:28-30 | Succeeds exactly when the u64 product fits and the SOL reserve is non-zero, with `floor(sol * supply / reserve_sol)`. Every failure is a trap. |
| CurveCalculations.LinearSolOut | utils/curve_calculations.rs:32-34 | Succeeds exactly when the u64 product fits and the supply is non-zero, with `floor(tokens * reserve_sol / supply)`. Every failure is a trap. |
| CurveCalculations.TokensOut | utils/curve_calculations.rs:4-14 | Kind 0 is linear. Kinds 1 to 5 trap. Kinds above 5 fail with `InvalidInstructionData`. |
| CurveCalculations.SolOut | utils/curve_calculations.rs:16-26 | Kind 0 is linear. Kinds 1 to 5 trap. Kinds above 5 fail with `InvalidInstructionData`. |
| CurveCalculations.SolOutWithinReserve | utils/curve_calculations.rs:32-34 | Selling at most the supply never pays out more than the SOL reserve. |
| CurveCalculations.TokensOutMonotone | utils/curve_calculations.rs:28-30 | More SOL never buys fewer tokens, and a smaller purchase succeeds whenever a larger one does. |
| CurveCalculations.SolOutMonotone | utils/curve_calculations.rs:32-34 | More tokens never yield less SOL, and a smaller sale succeeds whenever a larger one does. |
| LaunchTrades.InitializeLaunch | src/lib.rs:42-58 | The whole supply is in the token reserve and the SOL reserve is empty. |
| LaunchTrades.BuyTokens | src/instructions/buy_tokens.rs:23-58 | A calculator failure is returned before anything moves. Otherwise the token reserve loses exactly `tokens_out` and the SOL reserve gains exactly `amount`, or the unchecked commit traps. No other field changes. |
| LaunchTrades.SellTokens | src/instructions/sell_tokens.rs:23-59 | A calculator failure is returned before anything moves. Otherwise the token reserve gains `amount` and the SOL reserve loses `sol_out`, or the unchecked commit traps. No other field changes. |
| LaunchTrades.SellCommitsWithinSupply | src/lib.rs:115-116 | A sell of at most the supply never underflows the SOL reserve. |
| LaunchTrades.Apply | src/lib.rs:60-119 | A transaction never changes the creator, mint, supply, curve kind, parameters or bump. |
| LaunchTrades.EmptySolReserveIsStable | src/lib.rs:84-85 | On a linear curve with no SOL, every buy traps and no transaction adds SOL. |
| LaunchTrades.LinearLaunchNeverTrades | src/lib.rs:42-119 | After `initialize_launch` with the linear kind, the SOL reserve stays empty under any trade sequence, and every buy traps. |
| LaunchTrades.FirstLinearBuyTraps | src/lib.rs:52-53 | The first buy on a fresh linear launch divides by zero. |
| Vesting.SumPercentagesIsTotal | deep.rs:388-390 | The u16 percentage sum is the mathematical sum when that fits, and traps otherwise. |
| Vesting.Initialize | deep.rs:366-396 | `InvalidTimeParameters` or `InvalidAmount` leave the account untouched. Success happens exactly for a window, a non-negative cliff, a positive grant and, for milestones, a non-empty list summing to 100. With valid scalars, an empty milestone list or a sum other than 100 fails with `InvalidMilestone` and leaves the scalar fields written. A sum beyond u16 traps. |
| Vesting.LinearVesting | deep.rs:413-430 | Returns the grant from `end_time` on, and `CalculationError` when the window length overflows. |
| Vesting.LinearVestingInWindow | deep.rs:418-429 | Inside the window the amount is `floor(total * (now - start) / (end - start))`, below the grant. |
| Vesting.CliffVesting | deep.rs:432-438 | Returns 0 before `end_time` and the whole grant from then on. |
| Vesting.StaggeredVesting | deep.rs:440-451 | A window shorter than four seconds has a zero stage length and traps. |
| Vesting.StaggeredVestingStages | deep.rs:440-451 | The amount is `(total/4) * min((now-start) / ((end-start)/4), 4)`, at most `(total/4)*4`, which is at most the grant. |
| Vesting.MilestoneShare | deep.rs:458-462 | A share is `floor(total * pct / 100)` and, for a percentage up to 100, at most the grant. |
| Vesting.MilestoneSumIsDueTotal | deep.rs:454-470 | The loop sums the shares of the milestones that are due and unclaimed. It fails with `CalculationError` exactly when that sum leaves u64. |
| Vesting.MilestoneVesting | deep.rs:453-471 | The milestone amount is the sum of the due shares, or `CalculationError` when that sum leaves u64. |
| Vesting.VestedAmount | deep.rs:398-411 | 0 before `start_time + cliff_period`, then the schedule's amount clamped to the grant. The cliff sum is a plain i64 addition that traps. |
| VestingFacts.LinearVestingMonotone | deep.rs:413-430 | From `start_time` on, the linear amount never fails, never decreases and never exceeds the grant. |
| VestingFacts.VestedLinearMonotone | deep.rs:398-430 | On a linear schedule `initialize` accepts whose `start + cliff` and `end - start` fit in i64, the vested amount is defined at every time and never decreases. |
| VestingFacts.LinearVestingExamples | deep.rs:413-430 | Start 0, end 1000 and grant 1000 vest 500 at second 500, and 1000 at seconds 1000 and 1001. |
| VestingFacts.StaggeredVestingExamples | deep.rs:440-451 | Start 0, end 400 and grant 1000 vest 250 at second 150 and 1000 at second 450. |
| VestingFacts.StaggeredShortWindowPanics | deep.rs:444-447 | A well-formed staggered schedule shorter than four seconds traps once the cliff has passed. |
| VestingFacts.StaggeredFullRelease | deep.rs:449-450 | From `end_time` on, all four stages are released: `(total/4)*4`, which is below the grant when 4 does not divide it. |
| VestingFacts.StaggeredShortfall | deep.rs:449-450 | When 4 does not divide the grant, the staggered schedule never releases all of it. |
| VestingFacts.DueTotalScaled | deep.rs:456-467 | The due total is at most the due percentage of the grant, and the due percentage is at most the total percentage. |
| VestingFacts.MilestoneVestingWithinGrant | deep.rs:453-471 | With percentages adding up to at most 100, the milestone amount never overflows and never exceeds the grant. |
| VestingFacts.MilestoneFlooringExample | deep.rs:458-466 | Two 50% milestones of a grant of 1, both due, vest 0 on an account `initialize` accepts. |
| Escrow.InitializeVault | lib.rs:16-28 | A new vault is owned by the payer and is empty with a zero unlock time. |
| Escrow.LockTokens | lib.rs:30-57 | Checks, in order, the owner, `amount > 1`, a duration of one week to two years, and the overflow of `now + duration`. Success overwrites the amount and sets the unlock time. |
| Escrow.UnlockTokens | lib.rs:59-98 | Checks, in order, the owner, `TokensStillLocked` and `InsufficientBalance` for an empty vault. Success empties the vault and keeps the unlock time. |
| Escrow.InitializeVesting | lib.rs:100-139 | `InvalidVestingAmount` unless `amount > 1`. `InvalidTimeParameters` unless the account ends after it starts and starts in the future. An `end - start` that overflows i64 then fails with `CalculationError`, and a duration outside one week to two years with `InvalidTimeParameters`. Success gives a locked, valid account. |
| Escrow.LockTokensForVesting | lib.rs:141-154 | Checks, in order, the owner, the exact amount and that the account is still locked. Success changes no field. |
| Escrow.UnlockVestedTokens | lib.rs:156-194 | Checks, in order, the owner, `TokensAlreadyUnlocked`, `VestingPeriodNotEnded` and `MarketCapNotReached`. Success only clears the lock flag. |
| EscrowFacts.LockThenUnlock | lib.rs:30-98 | A lock is released from its unlock time on and not before, and the release empties the vault. |
| EscrowFacts.LockOverwrites | lib.rs:46-48 | A second lock replaces the first instead of adding to it. |
| EscrowFacts.SecondUnlockFails | lib.rs:59-98 | An emptied vault cannot be unlocked again. |
| EscrowFacts.StepVault | lib.rs:30-98 | No vault transaction changes the owner or bump. |
| EscrowFacts.VaultInvariantHolds | lib.rs:30-98 | Under any sequence of lock and unlock transactions, a vault keeps its owner and is either empty or holds more than the minimum amount. |
| EscrowFacts.FreshVaultInvariant | lib.rs:16-28 | A fresh vault satisfies that invariant. |
| EscrowFacts.LockForVestingPreserves | lib.rs:141-154 | A deposit keeps a vesting account valid and locked. |
| EscrowFacts.VestedUnlockIsOneShot | lib.rs:156-194 | After a release, both a second release and a new deposit fail with `TokensAlreadyUnlocked`. |
| EscrowFacts.NoReleaseAtCreation | lib.rs:100-194 | A freshly created vesting account cannot be released at its creation time. |
| EscrowUnchecked.InitializeVault | src/lib.rs:11-16 | A new vault is owned by the payer and zero-filled. |
| EscrowUnchecked.LockTokens | src/lib.rs:18-28 | No checks: any amount and duration are stored, and `now + duration` traps exactly when it overflows. |
| EscrowUnchecked.UnlockTokens | src/lib.rs:30-40 | Only the time is checked, and the vault is emptied even when it already was. |
| EscrowUnchecked.InitializeVesting | src/lib.rs:121-138 | Every argument is stored unvalidated and the account starts locked. |
| EscrowUnchecked.LockTokensForVesting | src/lib.rs:140-147 | Only the amount is checked, not whether the account is still locked. |
| EscrowUnchecked.UnlockVestedTokens | src/lib.rs:149-175 | The same three ordered guards as lib.rs. Success only clears the lock flag. |
| EscrowFacts.LockAgrees | src/lib.rs:18-28 | Where the validated lock succeeds, the unvalidated one computes the same vault. |
| EscrowFacts.UnlockAgrees | src/lib.rs:30-40 | Where the validated unlock succeeds, the unvalidated one computes the same vault. |
| EscrowFacts.UncheckedUnlockRepeats | src/lib.rs:30-40 | The unvalidated unlock succeeds again on the vault it has just emptied, where the validated one fails. |
| EscrowFacts.LockOverflowTraps | src/lib.rs:20 | An overflowing unlock time traps in src/lib.rs, where lib.rs fails with `CalculationError`. |
| EscrowFacts.InitializeVestingAgrees | src/lib.rs:121-138 | Where the validated `initialize_vesting` succeeds, the unvalidated one stores the same account. |
| EscrowFacts.UnlockVestedAgrees | src/lib.rs:149-175 | For the account's owner, the two `unlock_vested_tokens` are the same function. |
| EscrowFacts.UncheckedDepositAfterRelease | src/lib.rs:140-147 | The unvalidated deposit is accepted into an account that has already been released. |

## Left out

- Token transfers, CPIs, PDA signing and direct lamport moves are external effects. Each is one boolean `transfersOk`, and its failure is `Err(TransferFailed)`. This includes the `checked_sub` and `checked_add` on lamports in deepseek.rs's `sell` and `withdraw`, whose `CalculationError` is folded into `TransferFailed`.
- `Clock::get`, `emit!` and `declare_id!` are host services. The clock is the parameter `now`, and events are not modelled.
- Anchor `init` failures, such as an account that already exists or an unpaid rent, are outside the programs' own code. An `init` account starts zero-filled.
- Curve kinds 1 to 5 of utils/curve_calculations.rs are not defined. Kind 1 is `unimplemented!()` and kinds 2 to 5 call functions that are absent from the code, so all five are modelled as a trap.
- deep.rs `StreamConfig` is truncated without a body.
- No code claims vested tokens or advances `released_amount`, so the model has neither.
- state/curve.rs holds only the account's fields and byte size. Its fields are the `CurveCalculations.Curve` datatype.
- src/instructions/initialize_launch.rs calls a `Curve::initialize` that the code does not define.
- deepseek.rs `create` and `TokenMetadata` store strings only.
- The instruction handlers of gpt.rs (`initialize_launch`, `buy_tokens`, `sell_tokens`) are account and lamport plumbing around the modelled curve.
- Vesting.MilestoneShare: the contract bounds the share only for percentages up to 100. A larger percentage is still computed as the code does it, including the `as u64` truncation.
- Vesting.StaggeredVesting: its own contract states only the short-window trap. The closed form and its bound are proved in `Vesting.StaggeredVestingStages`, for windows of at least four seconds and times from `start_time` on.
- Vesting.LinearVesting: its own contract states the edges. The closed form inside the window is proved in `Vesting.LinearVestingInWindow`, which assumes `now >= start_time`, as the cliff gate does when the cliff is non-negative.
- LaunchCurve.SigmoidPrice: the contract states only the division-by-zero trap. The agreement of the two builds is proved in `LaunchCurveFacts.SigmoidPriceModesAgree`.

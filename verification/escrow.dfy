/** The lock vault and the one-shot vesting account of the validated
`complete_solana_project` program in lib.rs.

A vault holds one lock at a time: `lock_tokens` overwrites it and
`unlock_tokens` empties it once its time has come. A vesting account is
created locked and is released once, after `end_time` and only when the market
cap has reached the target. The `has_one = owner` constraints become an
`owner` parameter checked before the handler runs; the clock, the market cap
and the token transfers are parameters too. */
module Escrow {
  import opened Outcomes
  import opened RustInt

  const SECONDS_IN_DAY: int := 86400
  /** One week. */
  const MINIMUM_VESTING_PERIOD: int := SECONDS_IN_DAY * 7
  /** Two years of 365 days. */
  const MAXIMUM_VESTING_PERIOD: int := SECONDS_IN_DAY * 365 * 2
  /** Amounts must be strictly above this. */
  const MINIMUM_AMOUNT: int := 1

  datatype Vault = Vault(owner: Pubkey, bump: U8, lockedAmount: U64, lockedUntil: I64)

  datatype Vesting = Vesting(
    owner: Pubkey,
    tokenMint: Pubkey,
    amount: U64,
    startTime: I64,
    endTime: I64,
    targetMarketCap: U64,
    isLocked: bool,
    bump: U8)

  /** Whether a lock or vesting period is one the program accepts. */
  predicate PeriodAllowed(duration: int) {
    MINIMUM_VESTING_PERIOD <= duration <= MAXIMUM_VESTING_PERIOD
  }

  // ---------------------------------------------------------------
  // Vault
  // ---------------------------------------------------------------

  /** `initialize_vault`: an empty vault owned by the payer. */
  function InitializeVault(payer: Pubkey, bump: U8): (v: Vault)
    ensures v.owner == payer && v.bump == bump
    ensures v.lockedAmount == 0 && v.lockedUntil == 0
  {
    Vault(payer, bump, 0, 0)
  }

  /** `lock_tokens`: lock `amount` until `now + lock_duration`, replacing
      whatever the vault held. */
  function LockTokens(v: Vault, owner: Pubkey, amount: U64, lockDuration: I64, now: I64, transfersOk: bool): (r: Res<Vault>)
    ensures owner != v.owner ==> r == Err(UnauthorizedAccess)
    ensures owner == v.owner && amount <= MINIMUM_AMOUNT ==> r == Err(InvalidAmount)
    ensures owner == v.owner && amount > MINIMUM_AMOUNT && !PeriodAllowed(lockDuration) ==> r == Err(InvalidTimeParameters)
    ensures owner == v.owner && amount > MINIMUM_AMOUNT && PeriodAllowed(lockDuration) && !IsI64(now + lockDuration) ==>
              r == Err(CalculationError)
    ensures r.Ok? <==> owner == v.owner && amount > MINIMUM_AMOUNT && PeriodAllowed(lockDuration) && IsI64(now + lockDuration) && transfersOk
    ensures r.Ok? ==> r.value == v.(lockedAmount := amount, lockedUntil := now + lockDuration)
    ensures !r.Panic?
  {
    if owner != v.owner then Err(UnauthorizedAccess)
    else if amount <= MINIMUM_AMOUNT then Err(InvalidAmount)
    else if !PeriodAllowed(lockDuration) then Err(InvalidTimeParameters)
    else
      var unlockTime :- CheckedAddI64(now, lockDuration);
      if !transfersOk then Err(TransferFailed)
      else Ok(v.(lockedUntil := unlockTime, lockedAmount := amount))
  }

  /** `unlock_tokens`: once `locked_until` has come, hand the locked amount back
      and empty the vault; an empty vault cannot be unlocked. */
  function UnlockTokens(v: Vault, owner: Pubkey, now: I64, transfersOk: bool): (r: Res<Vault>)
    ensures owner != v.owner ==> r == Err(UnauthorizedAccess)
    ensures owner == v.owner && now < v.lockedUntil ==> r == Err(TokensStillLocked)
    ensures owner == v.owner && now >= v.lockedUntil && v.lockedAmount == 0 ==> r == Err(InsufficientBalance)
    ensures r.Ok? <==> owner == v.owner && now >= v.lockedUntil && v.lockedAmount > 0 && transfersOk
    ensures r.Ok? ==> r.value == v.(lockedAmount := 0)
    ensures !r.Panic?
  {
    if owner != v.owner then Err(UnauthorizedAccess)
    else if now < v.lockedUntil then Err(TokensStillLocked)
    else if v.lockedAmount == 0 then Err(InsufficientBalance)
    else if !transfersOk then Err(TransferFailed)
    else Ok(v.(lockedAmount := 0))
  }

  // ---------------------------------------------------------------
  // Vesting
  // ---------------------------------------------------------------

  /** What `initialize_vesting` guarantees of a vesting account. */
  predicate ValidVesting(v: Vesting) {
    && v.amount > MINIMUM_AMOUNT
    && v.startTime < v.endTime
    && PeriodAllowed(v.endTime - v.startTime)
  }

  /** `initialize_vesting`: a locked vesting account that starts in the future
      and lasts between one week and two years. */
  function InitializeVesting(owner: Pubkey, tokenMint: Pubkey, bump: U8, amount: U64, startTime: I64, endTime: I64,
                             targetMarketCap: U64, now: I64): (r: Res<Vesting>)
    ensures amount <= MINIMUM_AMOUNT ==> r == Err(InvalidVestingAmount)
    ensures amount > MINIMUM_AMOUNT && (endTime <= startTime || startTime <= now) ==> r == Err(InvalidTimeParameters)
    ensures amount > MINIMUM_AMOUNT && endTime > startTime && startTime > now && !IsI64(endTime - startTime) ==>
              r == Err(CalculationError)
    ensures && amount > MINIMUM_AMOUNT && endTime > startTime && startTime > now && IsI64(endTime - startTime)
            && !PeriodAllowed(endTime - startTime) ==>
              r == Err(InvalidTimeParameters)
    ensures r.Ok? <==> && amount > MINIMUM_AMOUNT && endTime > startTime && startTime > now
                       && IsI64(endTime - startTime) && PeriodAllowed(endTime - startTime)
    ensures r.Ok? ==> r.value == Vesting(owner, tokenMint, amount, startTime, endTime, targetMarketCap, true, bump)
    ensures r.Ok? ==> ValidVesting(r.value)
    ensures !r.Panic?
  {
    if amount <= MINIMUM_AMOUNT then Err(InvalidVestingAmount)
    else if endTime <= startTime then Err(InvalidTimeParameters)
    else if startTime <= now then Err(InvalidTimeParameters)
    else
      var duration :- CheckedSubI64(endTime, startTime);
      if !PeriodAllowed(duration) then Err(InvalidTimeParameters)
      else Ok(Vesting(owner, tokenMint, amount, startTime, endTime, targetMarketCap, true, bump))
  }

  /** `lock_tokens_for_vesting`: deposit exactly the vested amount into a
      still-locked account; the account itself does not change. */
  function LockTokensForVesting(v: Vesting, owner: Pubkey, amount: U64, transfersOk: bool): (r: Res<Vesting>)
    ensures owner != v.owner ==> r == Err(UnauthorizedAccess)
    ensures owner == v.owner && amount != v.amount ==> r == Err(InvalidVestingAmount)
    ensures owner == v.owner && amount == v.amount && !v.isLocked ==> r == Err(TokensAlreadyUnlocked)
    ensures r.Ok? <==> owner == v.owner && amount == v.amount && v.isLocked && transfersOk
    ensures r.Ok? ==> r.value == v
    ensures !r.Panic?
  {
    if owner != v.owner then Err(UnauthorizedAccess)
    else if amount != v.amount then Err(InvalidVestingAmount)
    else if !v.isLocked then Err(TokensAlreadyUnlocked)
    else if !transfersOk then Err(TransferFailed)
    else Ok(v)
  }

  /** `unlock_vested_tokens`: release a locked account once `end_time` has come
      and the market cap has reached the target, in that order of checks. */
  function UnlockVestedTokens(v: Vesting, owner: Pubkey, currentMarketCap: U64, now: I64, transfersOk: bool): (r: Res<Vesting>)
    ensures owner != v.owner ==> r == Err(UnauthorizedAccess)
    ensures owner == v.owner && !v.isLocked ==> r == Err(TokensAlreadyUnlocked)
    ensures owner == v.owner && v.isLocked && now < v.endTime ==> r == Err(VestingPeriodNotEnded)
    ensures owner == v.owner && v.isLocked && now >= v.endTime && currentMarketCap < v.targetMarketCap ==>
              r == Err(MarketCapNotReached)
    ensures r.Ok? <==> owner == v.owner && v.isLocked && now >= v.endTime && currentMarketCap >= v.targetMarketCap && transfersOk
    ensures r.Ok? ==> r.value == v.(isLocked := false)
    ensures !r.Panic?
  {
    if owner != v.owner then Err(UnauthorizedAccess)
    else if !v.isLocked then Err(TokensAlreadyUnlocked)
    else if now < v.endTime then Err(VestingPeriodNotEnded)
    else if currentMarketCap < v.targetMarketCap then Err(MarketCapNotReached)
    else if !transfersOk then Err(TransferFailed)
    else Ok(v.(isLocked := false))
  }
}

/** The same six vault and vesting instructions as the unvalidated
`complete_solana_project` program in src/lib.rs has them: no owner
constraints, no amount or period checks, an unchecked `now + lock_duration`,
and an unlock that succeeds on an empty vault. */
module EscrowUnchecked {
  import opened Outcomes
  import opened RustInt
  import Escrow

  /** `initialize_vault`: only the owner and bump are written; `init` leaves
      the lock fields zero. */
  function InitializeVault(payer: Pubkey, bump: U8): (v: Escrow.Vault)
    ensures v.owner == payer && v.bump == bump
    ensures v.lockedAmount == 0 && v.lockedUntil == 0
  {
    Escrow.Vault(payer, bump, 0, 0)
  }

  /** `lock_tokens`: any signer may lock any amount for any duration; the
      unlock time is a plain i64 addition, taken before the transfer. */
  function LockTokens(v: Escrow.Vault, amount: U64, lockDuration: I64, now: I64, transfersOk: bool): (r: Res<Escrow.Vault>)
    ensures !IsI64(now + lockDuration) <==> r.Panic?
    ensures r.Ok? <==> IsI64(now + lockDuration) && transfersOk
    ensures r.Ok? ==> r.value == v.(lockedAmount := amount, lockedUntil := now + lockDuration)
  {
    var unlockTime :- AddI64(now, lockDuration);
    if !transfersOk then Err(TransferFailed)
    else Ok(v.(lockedUntil := unlockTime, lockedAmount := amount))
  }

  /** `unlock_tokens`: only the time is checked; the vault is emptied even
      when it already was. */
  function UnlockTokens(v: Escrow.Vault, now: I64, transfersOk: bool): (r: Res<Escrow.Vault>)
    ensures now < v.lockedUntil ==> r == Err(TokensStillLocked)
    ensures r.Ok? <==> now >= v.lockedUntil && transfersOk
    ensures r.Ok? ==> r.value == v.(lockedAmount := 0)
    ensures !r.Panic?
  {
    if now < v.lockedUntil then Err(TokensStillLocked)
    else if !transfersOk then Err(TransferFailed)
    else Ok(v.(lockedAmount := 0))
  }

  /** `initialize_vesting`: every argument is stored as given and the account
      starts locked. */
  function InitializeVesting(owner: Pubkey, tokenMint: Pubkey, bump: U8, amount: U64, startTime: I64, endTime: I64,
                             targetMarketCap: U64): (v: Escrow.Vesting)
    ensures v.isLocked
    ensures v.owner == owner && v.tokenMint == tokenMint && v.amount == amount && v.bump == bump
    ensures v.startTime == startTime && v.endTime == endTime && v.targetMarketCap == targetMarketCap
  {
    Escrow.Vesting(owner, tokenMint, amount, startTime, endTime, targetMarketCap, true, bump)
  }

  /** `lock_tokens_for_vesting`: only the amount is checked, not whether the
      account is still locked. */
  function LockTokensForVesting(v: Escrow.Vesting, amount: U64, transfersOk: bool): (r: Res<Escrow.Vesting>)
    ensures amount != v.amount ==> r == Err(InvalidVestingAmount)
    ensures r.Ok? <==> amount == v.amount && transfersOk
    ensures r.Ok? ==> r.value == v
    ensures !r.Panic?
  {
    if amount != v.amount then Err(InvalidVestingAmount)
    else if !transfersOk then Err(TransferFailed)
    else Ok(v)
  }

  /** `unlock_vested_tokens`: the three ordered guards of the validated
      program, without the owner constraint. */
  function UnlockVestedTokens(v: Escrow.Vesting, currentMarketCap: U64, now: I64, transfersOk: bool): (r: Res<Escrow.Vesting>)
    ensures !v.isLocked ==> r == Err(TokensAlreadyUnlocked)
    ensures v.isLocked && now < v.endTime ==> r == Err(VestingPeriodNotEnded)
    ensures v.isLocked && now >= v.endTime && currentMarketCap < v.targetMarketCap ==> r == Err(MarketCapNotReached)
    ensures r.Ok? <==> v.isLocked && now >= v.endTime && currentMarketCap >= v.targetMarketCap && transfersOk
    ensures r.Ok? ==> r.value == v.(isLocked := false)
    ensures !r.Panic?
  {
    if !v.isLocked then Err(TokensAlreadyUnlocked)
    else if now < v.endTime then Err(VestingPeriodNotEnded)
    else if currentMarketCap < v.targetMarketCap then Err(MarketCapNotReached)
    else if !transfersOk then Err(TransferFailed)
    else Ok(v.(isLocked := false))
  }
}

/** Properties of the vault and vesting state machines: locking and unlocking
compose as expected, the terminal states are terminal, an invariant holds over
any sequence of vault instructions, and the unvalidated program agrees with the
validated one wherever the latter succeeds. */
module EscrowFacts {
  import opened Outcomes
  import opened RustInt
  import opened Escrow
  import Unchecked = EscrowUnchecked

  // ---------------------------------------------------------------
  // Vault
  // ---------------------------------------------------------------

  /** A lock is released at its unlock time and not before; releasing it
      empties the vault and keeps the unlock time. */
  lemma LockThenUnlock(v: Vault, amount: U64, lockDuration: I64, now: I64, later: I64)
    requires LockTokens(v, v.owner, amount, lockDuration, now, true).Ok?
    ensures var v1 := LockTokens(v, v.owner, amount, lockDuration, now, true).value;
            && (later < now + lockDuration ==> UnlockTokens(v1, v.owner, later, true) == Err(TokensStillLocked))
            && (later >= now + lockDuration ==>
                  UnlockTokens(v1, v.owner, later, true) == Ok(v.(lockedAmount := 0, lockedUntil := now + lockDuration)))
  {
  }

  /** A second lock replaces the first instead of adding to it. */
  lemma LockOverwrites(v: Vault, a1: U64, d1: I64, t1: I64, a2: U64, d2: I64, t2: I64)
    requires LockTokens(v, v.owner, a1, d1, t1, true).Ok?
    requires LockTokens(LockTokens(v, v.owner, a1, d1, t1, true).value, v.owner, a2, d2, t2, true).Ok?
    ensures LockTokens(LockTokens(v, v.owner, a1, d1, t1, true).value, v.owner, a2, d2, t2, true).value ==
            v.(lockedAmount := a2, lockedUntil := t2 + d2)
  {
  }

  /** Once unlocked, a vault cannot be unlocked again until it is locked anew. */
  lemma SecondUnlockFails(v: Vault, owner: Pubkey, now: I64, later: I64, transfersOk: bool)
    requires UnlockTokens(v, owner, now, true).Ok?
    ensures later >= v.lockedUntil ==> UnlockTokens(UnlockTokens(v, owner, now, true).value, owner, later, transfersOk) == Err(InsufficientBalance)
    ensures !UnlockTokens(UnlockTokens(v, owner, now, true).value, owner, later, transfersOk).Ok?
  {
  }

  /** A vault instruction, with the signer and clock it runs under. */
  datatype VaultOp =
    | Lock(owner: Pubkey, amount: U64, lockDuration: I64, now: I64, transfersOk: bool)
    | Unlock(owner: Pubkey, now: I64, transfersOk: bool)

  /** One transaction on the vault: the new state, or the old one on failure. */
  function StepVault(v: Vault, op: VaultOp): (r: Vault)
    ensures r.owner == v.owner && r.bump == v.bump
  {
    match op
    case Lock(o, a, d, t, ok) => Settle(v, LockTokens(v, o, a, d, t, ok))
    case Unlock(o, t, ok) => Settle(v, UnlockTokens(v, o, t, ok))
  }

  function RunVault(v: Vault, ops: seq<VaultOp>): Vault
    decreases |ops|
  {
    if |ops| == 0 then v else RunVault(StepVault(v, ops[0]), ops[1..])
  }

  /** A vault is empty or holds more than the minimum amount. */
  predicate VaultInvariant(v: Vault) {
    v.lockedAmount == 0 || v.lockedAmount > MINIMUM_AMOUNT
  }

  /** From `initialize_vault` on, whatever instructions run, the vault keeps
      its owner and is either empty or holds more than the minimum. */
  lemma {:induction false} VaultInvariantHolds(v: Vault, ops: seq<VaultOp>)
    requires VaultInvariant(v)
    ensures VaultInvariant(RunVault(v, ops))
    ensures RunVault(v, ops).owner == v.owner
    decreases |ops|
  {
    if |ops| > 0 {
      var v1 := StepVault(v, ops[0]);
      assert VaultInvariant(v1);
      VaultInvariantHolds(v1, ops[1..]);
    }
  }

  /** A fresh vault satisfies the invariant. */
  lemma FreshVaultInvariant(payer: Pubkey, bump: U8)
    ensures VaultInvariant(InitializeVault(payer, bump))
  {
  }

  // ---------------------------------------------------------------
  // Vesting
  // ---------------------------------------------------------------

  /** Depositing into a vesting account keeps it valid and locked. */
  lemma LockForVestingPreserves(v: Vesting, owner: Pubkey, amount: U64)
    requires ValidVesting(v) && LockTokensForVesting(v, owner, amount, true).Ok?
    ensures ValidVesting(LockTokensForVesting(v, owner, amount, true).value)
    ensures LockTokensForVesting(v, owner, amount, true).value.isLocked
  {
  }

  /** Vested tokens are released once: afterwards both the release and a new
      deposit fail with `TokensAlreadyUnlocked`. */
  lemma VestedUnlockIsOneShot(v: Vesting, cap: U64, now: I64, cap2: U64, now2: I64, amount: U64, transfersOk: bool)
    requires UnlockVestedTokens(v, v.owner, cap, now, true).Ok?
    ensures var v1 := UnlockVestedTokens(v, v.owner, cap, now, true).value;
            && UnlockVestedTokens(v1, v.owner, cap2, now2, transfersOk) == Err(TokensAlreadyUnlocked)
            && (amount == v.amount ==> LockTokensForVesting(v1, v.owner, amount, transfersOk) == Err(TokensAlreadyUnlocked))
            && ValidVesting(v) == ValidVesting(v1)
  {
  }

  /** A release needs `end_time` to have come, so a freshly initialised account
      cannot be released at the time it was created. */
  lemma NoReleaseAtCreation(owner: Pubkey, mint: Pubkey, bump: U8, amount: U64, start: I64, end: I64, target: U64,
                            now: I64, cap: U64)
    requires InitializeVesting(owner, mint, bump, amount, start, end, target, now).Ok?
    ensures UnlockVestedTokens(InitializeVesting(owner, mint, bump, amount, start, end, target, now).value, owner, cap, now, true)
            == Err(VestingPeriodNotEnded)
  {
  }

  // ---------------------------------------------------------------
  // The unvalidated program
  // ---------------------------------------------------------------

  /** Where the validated `lock_tokens` succeeds, the unvalidated one computes
      the same vault. */
  lemma LockAgrees(v: Vault, amount: U64, lockDuration: I64, now: I64)
    requires LockTokens(v, v.owner, amount, lockDuration, now, true).Ok?
    ensures Unchecked.LockTokens(v, amount, lockDuration, now, true) == LockTokens(v, v.owner, amount, lockDuration, now, true)
  {
  }

  /** Where the validated `unlock_tokens` succeeds, the unvalidated one
      computes the same vault. */
  lemma UnlockAgrees(v: Vault, now: I64)
    requires UnlockTokens(v, v.owner, now, true).Ok?
    ensures Unchecked.UnlockTokens(v, now, true) == UnlockTokens(v, v.owner, now, true)
  {
  }

  /** The unvalidated unlock succeeds again on the vault it has just emptied,
      where the validated one fails with `InsufficientBalance`. */
  lemma UncheckedUnlockRepeats(v: Vault, now: I64)
    requires Unchecked.UnlockTokens(v, now, true).Ok?
    ensures Unchecked.UnlockTokens(Unchecked.UnlockTokens(v, now, true).value, now, true) == Unchecked.UnlockTokens(v, now, true)
    ensures UnlockTokens(Unchecked.UnlockTokens(v, now, true).value, v.owner, now, true) == Err(InsufficientBalance)
  {
  }

  /** The unvalidated lock overflows into a trap where the validated one
      fails with `CalculationError`. */
  lemma LockOverflowTraps(v: Vault, amount: U64, now: I64)
    requires amount > MINIMUM_AMOUNT && now > I64_MAX - MINIMUM_VESTING_PERIOD
    ensures Unchecked.LockTokens(v, amount, MINIMUM_VESTING_PERIOD, now, true) == Panic
    ensures LockTokens(v, v.owner, amount, MINIMUM_VESTING_PERIOD, now, true) == Err(CalculationError)
  {
  }

  /** Where the validated `initialize_vesting` succeeds, the unvalidated one
      stores the same account. */
  lemma InitializeVestingAgrees(owner: Pubkey, mint: Pubkey, bump: U8, amount: U64, start: I64, end: I64, target: U64, now: I64)
    requires InitializeVesting(owner, mint, bump, amount, start, end, target, now).Ok?
    ensures Unchecked.InitializeVesting(owner, mint, bump, amount, start, end, target) ==
            InitializeVesting(owner, mint, bump, amount, start, end, target, now).value
  {
  }

  /** For the account's owner the two `unlock_vested_tokens` are the same
      function. */
  lemma UnlockVestedAgrees(v: Vesting, cap: U64, now: I64, transfersOk: bool)
    ensures UnlockVestedTokens(v, v.owner, cap, now, transfersOk) == Unchecked.UnlockVestedTokens(v, cap, now, transfersOk)
  {
  }

  /** The unvalidated deposit is accepted into an account that has already
      been released. */
  lemma UncheckedDepositAfterRelease(v: Vesting, cap: U64, now: I64)
    requires Unchecked.UnlockVestedTokens(v, cap, now, true).Ok?
    ensures Unchecked.LockTokensForVesting(Unchecked.UnlockVestedTokens(v, cap, now, true).value, v.amount, true).Ok?
  {
  }
}

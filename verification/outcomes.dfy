/** Outcomes of the programs' operations.

A Rust `Result<T>` returned through Anchor is either `Ok`, an `Err` carrying one
of the programs' error codes, or, for an arithmetic trap (`overflow-checks`,
division by zero, `unimplemented!()`), a panic that aborts the whole
transaction. The three are kept apart here because the programs mix checked
arithmetic (an error code) with unchecked arithmetic (a panic).
*/
module Outcomes {

  /** The union of the `CustomError` enums of the programs, plus the two
      failures that come from outside them. */
  datatype ErrorCode =
    | UnauthorizedAccess
    | InvalidTimeParameters
    | InvalidAmount
    | CalculationError
    | TokensStillLocked
    | InvalidVestingAmount
    | TokensAlreadyUnlocked
    | VestingPeriodNotEnded
    | MarketCapNotReached
    | InsufficientBalance
    | InvalidCurveParameters
    | InvalidMilestone
      /** `ProgramError::InvalidInstructionData`, returned by the u8 curve dispatch */
    | InvalidInstructionData
      /** whatever the token or system program returns when a transfer is refused */
    | TransferFailed

  /** An account address; only compared for equality. */
  type Pubkey = nat

  /** The outcome of a computation that does not mutate an account. */
  datatype Res<+T> = Ok(value: T) | Err(code: ErrorCode) | Panic {

    predicate IsFailure() {
      !Ok?
    }

    function PropagateFailure<U>(): Res<U>
      requires !Ok?
    {
      if Err? then Err(code) else Panic
    }

    function Extract(): T
      requires Ok?
    {
      value
    }
  }

  /** The outcome of a Rust `&mut self` method: on an early `?` return the fields
      written before the failing check stay written, so `Failed` carries the
      state the method left behind. */
  datatype Step<S> = Done(state: S) | Failed(code: ErrorCode, state: S) | Aborted {

    /** What an Anchor instruction that ends with this step commits: account data
        is serialised only when the handler returns `Ok`, and any error or panic
        rolls the whole transaction back. */
    function Commit(): (r: Res<S>)
      ensures Done? <==> r.Ok?
      ensures Done? ==> r.value == state
      ensures Failed? <==> r.Err?
      ensures Failed? ==> r.code == code
      ensures Aborted? <==> r.Panic?
    {
      match this
      case Done(s) => Ok(s)
      case Failed(e, _) => Err(e)
      case Aborted => Panic
    }
  }

  /** The account an instruction leaves behind: the new state on success, the
      unchanged prior state on any failure. */
  function Settle<S>(prior: S, r: Res<S>): (s: S)
    ensures r.Ok? ==> s == r.value
    ensures !r.Ok? ==> s == prior
  {
    if r.Ok? then r.value else prior
  }
}

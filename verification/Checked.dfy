/** 256-bit checked arithmetic and the error values of the staking handlers. */
module Checked {

  /** Largest value of a 256-bit word. */
  const U256_MAX: nat := 0xFFFF_FFFF_FFFF_FFFF_FFFF_FFFF_FFFF_FFFF_FFFF_FFFF_FFFF_FFFF_FFFF_FFFF_FFFF_FFFF

  /**
   * The errors a staking handler can return.  The source reports every failed
   * checked operation as one "internal error"; the first three constructors
   * keep its causes apart so that each can be ruled out on its own.
   */
  datatype Error =
    | Overflow
    | Underflow
    | DivisionByZero
    | SolvencyError
    | TransferFailed
    | InvalidInput
    | UnknownValidator
    | RequiresAuthAddress
    | CommissionTooHigh
    | NotInValidatorSet
    | ExternalRewardTooSmall
    | ExternalRewardTooLarge
    | DelegationTooSmall
    | InsufficientStake
    | WithdrawalIdExists
    | UnknownWithdrawalId
    | WithdrawalNotReady
    | ValidatorExists
    | Unauthorized
    | SnapshotInBoundary
    | InvalidEpochChange

  datatype Result<+T> = Ok(value: T) | Err(error: Error) {
    predicate IsFailure() {
      Err?
    }

    function PropagateFailure<U>(): (r: Result<U>)
      requires Err?
    {
      Err(error)
    }

    function Extract(): T
      requires Ok?
    {
      value
    }
  }

  function CheckedAdd(a: nat, b: nat): (r: Result<nat>) {
    if a + b <= U256_MAX then Ok(a + b) else Err(Overflow)
  }

  function CheckedSub(a: nat, b: nat): (r: Result<nat>) {
    if b <= a then Ok(a - b) else Err(Underflow)
  }

  function CheckedMulDiv(a: nat, b: nat, d: nat): (r: Result<nat>) {
    if d == 0 then Err(DivisionByZero)
    else if a * b > U256_MAX then Err(Overflow)
    else Ok(a * b / d)
  }

  /** Addition that stops at the largest word, as `saturating_add` does. */
  function SaturatingAdd(a: nat, b: nat): (r: nat) {
    if a + b <= U256_MAX then a + b else U256_MAX
  }
}

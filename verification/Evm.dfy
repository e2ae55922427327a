/** The parts of the EVM that the contracts lean on: 256-bit words, checked
    arithmetic, and calls that either return or revert. */
module Evm {
  import opened Powers

  /** Addresses are only compared, so any countable type will do. */
  type Address = nat
  const ZERO: Address := 0

  /** The largest word. */
  const MAX_UINT256: nat := Pow2(256) - 1

  lemma LargestWord()
    ensures MAX_UINT256 == 0xFFFF_FFFF_FFFF_FFFF_FFFF_FFFF_FFFF_FFFF_FFFF_FFFF_FFFF_FFFF_FFFF_FFFF_FFFF_FFFF
  {
    Pow2Of128();
    Pow2Sum(128, 128);
  }

  type uint256 = x: int | 0 <= x <= MAX_UINT256

  /** One value for each `require` of the contracts, one for Solidity's panic on
      an arithmetic overflow, and one for a call to an address without code. */
  datatype Error =
    | Overflow
    | NoContract
    | NotMinter
    | ZeroRecipient
    | AllowanceExceeded
    | BalanceExceeded
    | ZeroAmountA
    | ZeroAmountB
    | ZeroAmountIn
    | EmptyReserveIn
    | EmptyReserveOut
    | ZeroAmountOut
    | Slippage
    | NotOperator
    | ZeroBuyPool
    | ZeroSellPool
    | SamePool
    | TokenAMismatch
    | TokenBMismatch
    | InsufficientTokenB
    | ProfitBelowMinimum
    | ZeroToken

  datatype Result<+T> = Success(value: T) | Revert(error: Error) {
    predicate IsFailure() {
      Revert?
    }

    function PropagateFailure<U>(): Result<U>
      requires Revert?
    {
      Revert(error)
    }

    function Extract(): T
      requires Success?
    {
      value
    }

    /** How the call ended, without its value. */
    function Status(): Outcome {
      match this
      case Success(_) => Pass
      case Revert(e) => Fail(e)
    }

  }

  datatype Outcome = Pass | Fail(error: Error) {
    predicate IsFailure() {
      Fail?
    }

    function PropagateFailure<U>(): Result<U>
      requires Fail?
    {
      Revert(error)
    }
  }

  /** The storage a call leaves behind: its new storage, or the storage it
      started from when it reverts. */
  function Committed<S>(call: Result<S>, before: S): S {
    if call.Success? then call.value else before
  }

  function Need(condition: bool, error: Error): Outcome {
    if condition then Pass else Fail(error)
  }

  function Checked(n: nat): Result<nat> {
    if n <= MAX_UINT256 then Success(n) else Revert(Overflow)
  }

  function CheckedSub(x: nat, y: nat): Result<nat> {
    if y <= x then Success(x - y) else Revert(Overflow)
  }
}

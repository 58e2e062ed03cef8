/** Machine integers, results and errors shared by every other module. */
module Prelude {
  const TWO_64: nat := 0x1_0000_0000_0000_0000
  const TWO_128: nat := 0x1_0000_0000_0000_0000_0000_0000_0000_0000

  type U16 = x: nat | x < 0x1_0000
  type U64 = x: nat | x < TWO_64
  type U128 = x: nat | x < TWO_128

  /** The cast `x as u64`: it keeps the low 64 bits. */
  function AsU64(x: nat): U64 {
    x % TWO_64
  }

  /** A u128 sum that stops at the largest u128 instead of wrapping. */
  function Saturate(x: nat): U128 {
    if x < TWO_128 then x else TWO_128 - 1
  }

  datatype Option<+T> = None | Some(value: T)

  /** `Panicked` stands for any Rust panic: the transaction aborts and cannot be caught. */
  datatype Error =
    | Panicked
    | InvalidAddress(address: string)
    | InvalidWallet
    | UnsupportedChain(network: string)
    | Unauthorized
    | OnlyTransferSendAllowed
    | BadMessageType
    | HotWalletExists
    | HotWalletDoesNotExist
    | DayUpdateError
    | MonthUpdateError
    | CannotSpendMoreThanLimit(amount: U128, denom: string)
    | CallerIsNotPendingNewAdmin
    | PriceCheckFailed(contractAddr: string)
    | RepayFeesFirst(debt: U128)
    | PairContractNotFound(denom1: string, denom2: string)
    | UnableToRepayDebt(debt: U128)
    | QueryNotSupported

  datatype Result<+T> = Ok(value: T) | Err(error: Error) {
    predicate IsFailure() {
      Err?
    }

    function PropagateFailure<U>(): Result<U>
      requires Err?
    {
      Err(error)
    }

    function Extract(): T
      requires Ok?
    {
      value
    }
  }

  datatype Coin = Coin(denom: string, amount: U128)
}

/** Machine widths, addresses, and the revert-or-value result every on-chain call returns. */
module Types {

  const TWO_64: nat := 0x1_0000_0000_0000_0000
  const TWO_160: nat := 0x1_0000_0000_0000_0000_0000_0000_0000_0000_0000_0000
  const TWO_256: nat := 0x1_0000_0000_0000_0000_0000_0000_0000_0000_0000_0000_0000_0000_0000_0000_0000_0000
  const MAX_U256: nat := TWO_256 - 1

  type Byte = b: int | 0 <= b < 256
  type Bytes = seq<Byte>
  type Address = a: int | 0 <= a < TWO_160
  type U64 = n: int | 0 <= n < TWO_64
  type U256 = n: int | 0 <= n < TWO_256

  const ZERO_ADDRESS: Address := 0

  datatype Option<+T> = None | Some(value: T)

  /** Every reason a call can revert for, one per `require` or checked operation. */
  datatype Error =
    | Reentrant | NotOwner | ZeroTeeAddress
    | ZeroPayToken | ZeroLotToken | DeadlineInPast | LotRequired
    | ZeroLotAmount | LotEscrowFailed | ArrayTooLong
    | NoSuchAuction | AuctionNotOpen | BiddingClosed | EmptyCiphertext
    | AuctionNotClosable | BiddingStillOpen | NotSeller | BidsExist
    | NotRouted | TeeNotSet | TeeReportedFailure
    | BadSignatureLength | BadSignatureV | InvalidSignature | BadSignature | BadResultData
    | NotForThisContract | AuctionNotClosing | BelowReserve
    | NoCode | NoSuchToken | WrongFrom | ZeroRecipient | NotAuthorized
    | AllowanceTooLow | Underflow | Overflow

  /** Outcome of a call: a value, or a revert that leaves no trace. */
  datatype Result<+T> = Ok(value: T) | Revert(error: Error) {
    predicate IsFailure() { Revert? }
    function PropagateFailure<U>(): Result<U>
      requires Revert?
    {
      Revert(error)
    }
    function Extract(): T
      requires Ok?
    {
      value
    }
  }

  /** A `require`. */
  function Require(condition: bool, error: Error): Result<()> {
    if condition then Ok(()) else Revert(error)
  }
}

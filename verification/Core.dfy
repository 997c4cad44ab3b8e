/** Vocabulary shared by every component: options, identifiers and error values. */
module Core {

  datatype Option<+T> = None | Some(value: T)

  type Byte = x: int | 0 <= x < 256

  /** A row identifier (uuid), ordered by its bytes. */
  datatype Uuid = Uuid(bytes: seq<Byte>)

  /** The errors a transfer request can end with. */
  datatype Error =
    | InvalidAmount
    | SameAccount
    | InsufficientFunds
    | MoneyOverflow
    | AccountNotFound
    | BalanceUnreadable    // the summed balance does not fit the int64 it is scanned into
    | KeyReuse
    | RequestInFlight
    | KeyMissing           // the claimed row could not be loaded back
    | DuplicateRow         // primary key violation on a drawn uuid
    | SerializationFailure // SQLSTATE 40001 or 40P01
    | ConcurrencyConflict  // the retrying executor gave up
    | Infrastructure       // connection, deadline, commit or any other fault

  datatype Result<+T> = Ok(value: T) | Err(error: Error)

  function Min(a: int, b: int): int {
    if a <= b then a else b
  }

  function Max(a: int, b: int): int {
    if a >= b then a else b
  }
}

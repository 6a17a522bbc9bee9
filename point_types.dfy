/** The values the point service reads and returns: a user's balance, one
    history record, the two kinds of record, and the outcome of a charge or a
    use (the updated balance, or the reason the call was refused). */
module PointTypes {

  /** A user's id (a Java `long` in the service). */
  type UserId = int

  /** The kind of a history record. */
  datatype TransactionType = CHARGE | USE

  /** A user's current balance, as `getPoint`, `charge` and `use` return it. */
  datatype UserPoint = UserPoint(id: UserId, point: int)

  /** One record of a user's history: who, how much, which kind, and the
      wall-clock time (milliseconds) at which the service wrote it. */
  datatype PointHistory = PointHistory(userId: UserId, amount: int, kind: TransactionType, updateMillis: int)

  /** Why a charge or a use was refused: `InvalidAmount` stands for the
      service's `IllegalArgumentException` (amount not positive),
      `InsufficientBalance` for its `IllegalStateException` (balance smaller
      than the amount to use). */
  datatype Failure = InvalidAmount | InsufficientBalance

  /** What `charge` and `use` give their caller: the updated balance, or the
      exception they throw. */
  datatype Outcome = Ok(updated: UserPoint) | Err(failure: Failure)
}

# Point ledger: a verified Dafny model of `PointService`

This project models the point service of the `io.hhplus.tdd.point` package.
The service keeps two tables. The balance table holds each user's current
point balance; a user never written reads as 0. The history table holds each
user's transaction records, oldest first, and is only ever appended to.
The service has four operations:

- `getPoint` reads a balance.
- `getHistories` reads a history.
- `charge` refuses a non-positive amount. Otherwise it adds the amount to the
  balance, writes the balance back and appends a CHARGE record.
- `use` refuses a non-positive amount, then refuses an amount larger than the
  balance. Otherwise it subtracts the amount, writes the balance back and
  appends a USE record.

The model has four modules:

- `PointTypes` (`point_types.dfy`) holds the values: `UserPoint`,
  `PointHistory`, `TransactionType` (CHARGE | USE), and an `Outcome` that is
  either the updated balance or one of the two failures. `InvalidAmount`
  stands for the service's `IllegalArgumentException`. `InsufficientBalance`
  stands for its `IllegalStateException`.
- `Ledger` (`ledger.dfy`) holds the two tables as a value (`State`), the two
  transitions `Charge` and `Use` as functions, and the ledger invariant
  `Consistent`. The invariant says that every user's balance equals the
  replay of that user's history from 0 (each CHARGE added, each USE
  subtracted). It also says that no prefix of the history replays below 0,
  and that every record belongs to that user and has a positive amount.
  Both transitions are proved to keep this invariant.
- `Service` (`point_service.dfy`) holds the class `PointService`. Its two map
  fields are the tables, which the methods update in place. `Valid()` is the
  ledger invariant on those fields. `Charge` and `Use` are proved against the
  `Ledger` functions of the same name and keep `Valid()`. `GetPoint` and
  `GetHistories` are proved against the lookups `Ledger.Balance` and
  `Ledger.History`. The method `ChargeUseScenario` is a scenario combining
  the unit tests' calls, with their values, on one object.
- `LedgerRuns` (`ledger_runs.dfy`) runs sequences of calls one after
  another. For any mix of charges and uses on one user, the history grows by
  exactly the records of the successful calls, in call order. The lemmas
  also state the assertions of the two concurrency tests: N charges of A give
  N × A and N CHARGE records; uses of A competing for one balance V satisfy
  successes × A + final = V, never overdraw, and leave exactly one USE
  record per success.

The model assumes each call runs atomically. `charge` and `use` take no
per-user lock (`PointService.java` line 24 says concurrency is not
handled), so this is an assumption about the callers and not a property of
the code. Under real concurrency the read-then-write in `charge` and `use`
(`PointService.java` lines 97-101 and 138-150) can lose updates. The
`LedgerRuns` lemmas state the concurrency tests' assertions for serial
executions only.

## Model

| member | source | states |
|---|---|---|
| `Ledger.Empty` | src/main/java/io/hhplus/tdd/point/PointService.java:54-72 | On fresh tables every user reads balance 0 and an empty history. |
| `Ledger.EmptyConsistent` | src/test/java/io/hhplus/tdd/point/PointServiceTest.java:56-67 | Fresh tables satisfy the ledger invariant. |
| `Ledger.Charge` | src/main/java/io/hhplus/tdd/point/PointService.java:90-112 | The call succeeds exactly when amount > 0. A non-positive amount gives InvalidAmount and leaves both tables unchanged. On success the balance becomes old + amount and is returned, the history becomes the old history plus one (userId, amount, CHARGE, now) record, and every other user is untouched. |
| `Ledger.Use` | src/main/java/io/hhplus/tdd/point/PointService.java:131-161 | The call succeeds exactly when 0 < amount <= balance. A non-positive amount gives InvalidAmount; an amount above the balance gives InsufficientBalance; in both cases both tables are unchanged. On success the balance becomes old - amount (at least 0) and is returned, one (userId, amount, USE, now) record is appended, and every other user is untouched. |
| `Ledger.BalanceNonNegative` | src/main/java/io/hhplus/tdd/point/PointService.java:140-147 | In a consistent ledger no balance is negative. |
| `Ledger.ChargePreservesConsistent` | src/main/java/io/hhplus/tdd/point/PointService.java:97-109 | A charge keeps every balance equal to the replay of its history, with no prefix below 0. |
| `Ledger.UsePreservesConsistent` | src/main/java/io/hhplus/tdd/point/PointService.java:138-158 | A use keeps the same invariant, so the balance check before the subtraction is what prevents underflow. |
| `Service.PointService.constructor` | src/test/java/io/hhplus/tdd/point/PointServiceTest.java:38-43 | A service over fresh tables satisfies the invariant; every user reads 0 and an empty history. |
| `Service.PointService.GetPoint` | src/main/java/io/hhplus/tdd/point/PointService.java:54-56 | Returns the user's balance from the table, 0 for a user never written, never negative while the invariant holds. |
| `Service.PointService.GetHistories` | src/main/java/io/hhplus/tdd/point/PointService.java:70-72 | Returns the user's records in insertion order, empty for a user never written. While the invariant holds, they all belong to that user and replay to the current balance. |
| `Service.PointService.Charge` | src/main/java/io/hhplus/tdd/point/PointService.java:90-112 | The new tables and the result are exactly those of `Ledger.Charge` on the old tables, and the invariant is kept. |
| `Service.PointService.Use` | src/main/java/io/hhplus/tdd/point/PointService.java:131-161 | The new tables and the result are exactly those of `Ledger.Use` on the old tables. A failure leaves the tables unchanged, a success returns old - amount >= 0, and the invariant is kept. |
| `LedgerRuns.Run` | src/test/java/io/hhplus/tdd/point/PointServiceConcurrencyTest.java:57-68 | Running a sequence of calls one after another yields exactly one outcome per call. |
| `LedgerRuns.RunPreservesConsistent` | src/test/java/io/hhplus/tdd/point/PointServiceConcurrencyTest.java:136-146 | After any sequence of charges and uses on any users, every balance is >= 0 and equals the replay of its history. |
| `LedgerRuns.RunLeavesOtherUsers` | src/main/java/io/hhplus/tdd/point/PointService.java:97-109 | Calls on other users leave a user's balance and history unchanged. |
| `LedgerRuns.RunAppendsOnly` | src/main/java/io/hhplus/tdd/point/PointService.java:150-158 | Every user's old history is a prefix of the new one. When all calls are on that user, it grows by exactly one record per successful call. |
| `LedgerRuns.RunHistoryAppended` | src/main/java/io/hhplus/tdd/point/PointService.java:97-158 | For any mix of charges and uses on one user, the new history is the old one followed by the (userId, amount, kind, time) record of each successful call, in call order. Failed calls add nothing. |
| `LedgerRuns.RunNetEffect` | src/main/java/io/hhplus/tdd/point/PointService.java:97-147 | For calls on one user, final balance = starting balance + charged amounts - used amounts of the successful calls. |
| `LedgerRuns.ChargesRun` | src/test/java/io/hhplus/tdd/point/PointServiceConcurrencyTest.java:57-65 | Charges of one positive amount A on one user all succeed. The balance grows by count × A, and the history grows by exactly those calls' CHARGE records, in call order. |
| `LedgerRuns.ChargesAccumulate` | src/test/java/io/hhplus/tdd/point/PointServiceConcurrencyTest.java:70-76 | Same run: successes = number of calls, and the CHARGE count grows by the number of calls. |
| `LedgerRuns.FreshUserCharges` | src/test/java/io/hhplus/tdd/point/PointServiceConcurrencyTest.java:47-77 | N charges of A on a user never seen give balance N × A and exactly N records, all CHARGE. |
| `LedgerRuns.UsesRunOutcomes` | src/main/java/io/hhplus/tdd/point/PointService.java:131-147 | For uses of A from a balance V >= 0: the successes are exactly the first n calls, every later call fails with InsufficientBalance, n × A + final = V, final >= 0, and final < A unless all succeeded. |
| `LedgerRuns.UsesRun` | src/test/java/io/hhplus/tdd/point/PointServiceConcurrencyTest.java:110-122 | For uses of A from a balance V >= 0: the successes are exactly the first n calls, and every later call fails with InsufficientBalance. Also n × A + final = V, final >= 0, final < A unless all succeeded, and the history grows by exactly the first n calls' USE records. |
| `LedgerRuns.UsesNeverOverdraw` | src/test/java/io/hhplus/tdd/point/PointServiceConcurrencyTest.java:128-153 | The second concurrency test: n × A <= V, n × A + final = V, final >= 0, the USE count grows by exactly n, and no CHARGE record is added. |

## Left out

- `charge` and `use` take no per-user lock, and the model does not model their interleaving. Every call is assumed to run atomically, and concurrent callers are treated as some serial order of whole calls (`LedgerRuns.Run`). Under real concurrency the code's read-then-write can lose updates. The model does not capture that, and its concurrency lemmas hold only for serial executions.
- Threads, executors, latches and atomic counters of the concurrency tests are not modelled.
- `System.currentTimeMillis()` is not modelled as a clock. Each call receives the time as its `nowMillis` parameter and stores it in the record.
- The record id assigned by `PointHistoryTable` and the `updateMillis` of `UserPoint` are set inside the tables, whose code is not part of this model. Neither field is modelled.
- `PointController` (HTTP routing and logging) is left out. It passes its arguments to the service unchanged.
- `getHistories` leaves the order to the table; the model uses insertion order, oldest first, as the tests read it.
- Ledger.Charge: Java `long` overflow in `current.point() + amount` is not modelled. Balances and amounts are unbounded integers, so the model never wraps around where the service would.

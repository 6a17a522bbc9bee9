/** `PointService`: the object that owns the two tables and runs the four
    operations on them. `Charge` and `Use` are proved against the `Ledger`
    transitions of the same name and keep the ledger invariant; `GetPoint`
    and `GetHistories` are proved against the lookups `Ledger.Balance` and
    `Ledger.History`. */
module Service {
  import opened PointTypes
  import opened Ledger

  class PointService {
    /** The balance table, written by `insertOrUpdate`. */
    var userPoints: map<UserId, int>
    /** The history table: each user's records, oldest first, appended by `insert`. */
    var pointHistories: map<UserId, seq<PointHistory>>

    /** The two tables as a ledger value. */
    function Tables(): State
      reads this
    {
      State(userPoints, pointHistories)
    }

    /** The object invariant: the tables satisfy the ledger invariant. */
    ghost predicate Valid()
      reads this
    {
      Consistent(Tables())
    }

    /** A service over two fresh tables. */
    constructor ()
      ensures Valid()
      ensures forall u :: Balance(Tables(), u) == 0 && History(Tables(), u) == []
    {
      userPoints := map[];
      pointHistories := map[];
      EmptyConsistent();
    }

    /** `getPoint`: the user's current balance, 0 for a user never seen;
        never negative while the invariant holds. */
    method GetPoint(userId: UserId) returns (p: UserPoint)
      ensures p.id == userId
      ensures p.point == Balance(Tables(), userId)
      ensures Valid() ==> p.point >= 0
    {
      var point := if userId in userPoints then userPoints[userId] else 0;
      p := UserPoint(userId, point);
      if Valid() {
        BalanceNonNegative(Tables(), userId);
      }
    }

    /** `getHistories`: the user's records in the order they were written,
        empty for a user never seen; while the invariant holds they all
        belong to that user and replay to the current balance. */
    method GetHistories(userId: UserId) returns (h: seq<PointHistory>)
      ensures h == History(Tables(), userId)
      ensures Valid() ==> Replay(h) == Balance(Tables(), userId)
      ensures Valid() ==> forall i :: 0 <= i < |h| ==> h[i].userId == userId && h[i].amount > 0
    {
      h := if userId in pointHistories then pointHistories[userId] else [];
      if Valid() {
        assert AccountConsistent(userId, Balance(Tables(), userId), History(Tables(), userId));
      }
    }

    /** `charge`: validate the amount, read the balance, write back the sum,
        append a CHARGE record stamped `nowMillis`, return the new balance. */
    method Charge(userId: UserId, amount: int, nowMillis: int) returns (r: Outcome)
      requires Valid()
      modifies this
      ensures Valid()
      ensures Transition(Tables(), r) == Ledger.Charge(old(Tables()), userId, amount, nowMillis)
      ensures r.Ok? ==> r.updated.point == old(Balance(Tables(), userId)) + amount
    {
      ChargePreservesConsistent(Tables(), userId, amount, nowMillis);
      if amount <= 0 {
        return Err(InvalidAmount);
      }
      var current := if userId in userPoints then userPoints[userId] else 0;
      var newAmount := current + amount;
      userPoints := userPoints[userId := newAmount];
      var previous := if userId in pointHistories then pointHistories[userId] else [];
      pointHistories := pointHistories[userId := previous + [PointHistory(userId, amount, CHARGE, nowMillis)]];
      r := Ok(UserPoint(userId, newAmount));
    }

    /** `use`: validate the amount, read the balance, refuse if it is smaller
        than the amount, otherwise write back the difference, append a USE
        record stamped `nowMillis`, return the new balance. */
    method Use(userId: UserId, amount: int, nowMillis: int) returns (r: Outcome)
      requires Valid()
      modifies this
      ensures Valid()
      ensures Transition(Tables(), r) == Ledger.Use(old(Tables()), userId, amount, nowMillis)
      ensures r.Ok? ==> 0 <= r.updated.point == old(Balance(Tables(), userId)) - amount
      ensures r.Err? ==> Tables() == old(Tables())
    {
      UsePreservesConsistent(Tables(), userId, amount, nowMillis);
      if amount <= 0 {
        return Err(InvalidAmount);
      }
      var current := if userId in userPoints then userPoints[userId] else 0;
      if current < amount {
        return Err(InsufficientBalance);
      }
      var newAmount := current - amount;
      userPoints := userPoints[userId := newAmount];
      var previous := if userId in pointHistories then pointHistories[userId] else [];
      pointHistories := pointHistories[userId := previous + [PointHistory(userId, amount, USE, nowMillis)]];
      r := Ok(UserPoint(userId, newAmount));
    }
  }

  /** The unit tests' calls on one service, with their values: refused
      charges of 0 and -100; a charge of 1000 and a use of 400 leaving 600
      and the records [CHARGE 1000, USE 400]; refused uses of 0 and -100;
      and, on a second user charged 500, a use of 1000 refused with
      InsufficientBalance, leaving balance and history as they were. */
  method ChargeUseScenario(userId: UserId, otherId: UserId, t1: int, t2: int, t3: int)
    requires otherId != userId
  {
    var service := new PointService();
    var r := service.Charge(userId, 0, t1);
    assert r == Err(InvalidAmount);
    r := service.Charge(userId, -100, t1);
    assert r == Err(InvalidAmount);
    r := service.Charge(userId, 1000, t1);
    assert r == Ok(UserPoint(userId, 1000));
    r := service.Use(userId, 400, t2);
    assert r == Ok(UserPoint(userId, 600));
    var p := service.GetPoint(userId);
    assert p.point == 600;
    var h := service.GetHistories(userId);
    assert h == [PointHistory(userId, 1000, CHARGE, t1), PointHistory(userId, 400, USE, t2)];
    r := service.Use(userId, 0, t3);
    assert r == Err(InvalidAmount);
    r := service.Use(userId, -100, t3);
    assert r == Err(InvalidAmount);
    h := service.GetHistories(userId);
    assert |h| == 2;

    r := service.Charge(otherId, 500, t1);
    assert r == Ok(UserPoint(otherId, 500));
    r := service.Use(otherId, 1000, t2);
    assert r == Err(InsufficientBalance);
    p := service.GetPoint(otherId);
    assert p.point == 500;
    h := service.GetHistories(otherId);
    assert h == [PointHistory(otherId, 500, CHARGE, t1)];
  }
}

/** The point ledger as a value: the balance table and the history table that
    `PointService` works on, the two transitions `charge` and `use` make on
    them, and the invariant they keep — every user's balance is the replay of
    that user's history from 0, and no prefix of that history ever replays
    below 0. */
module Ledger {
  import opened PointTypes

  /** The balance table (`UserPointTable`) and the history table
      (`PointHistoryTable`). A user missing from a table reads as balance 0
      and an empty history. */
  datatype State = State(points: map<UserId, int>, histories: map<UserId, seq<PointHistory>>)

  /** The state after a call together with what the call returned. */
  datatype Transition = Transition(after: State, outcome: Outcome)

  /** A user's balance; 0 for a user never written. */
  function Balance(s: State, userId: UserId): int
  {
    if userId in s.points then s.points[userId] else 0
  }

  /** A user's history, oldest record first; empty for a user never written. */
  function History(s: State, userId: UserId): seq<PointHistory>
  {
    if userId in s.histories then s.histories[userId] else []
  }

  /** Two fresh tables: every user reads balance 0 and an empty history. */
  function Empty(): (s: State)
    ensures forall u :: Balance(s, u) == 0 && History(s, u) == []
  {
    State(map[], map[])
  }

  // ---------------------------------------------------------------------
  // Replay: the balance a history stands for
  // ---------------------------------------------------------------------

  /** The signed effect of one record on the balance. */
  function Delta(h: PointHistory): int
  {
    if h.kind == CHARGE then h.amount else -h.amount
  }

  /** Replays `h` in order starting from `acc`: adds each CHARGE, subtracts
      each USE. */
  function ReplayFrom(acc: int, h: seq<PointHistory>): int
    decreases |h|
  {
    if h == [] then acc else ReplayFrom(acc + Delta(h[0]), h[1..])
  }

  /** The balance a history stands for: its replay from 0. */
  function Replay(h: seq<PointHistory>): int
  {
    ReplayFrom(0, h)
  }

  /** Replaying a history with one more record at the end applies that
      record's effect to the replay of the history. */
  lemma {:induction false} ReplayFromAppend(acc: int, h: seq<PointHistory>, x: PointHistory)
    ensures ReplayFrom(acc, h + [x]) == ReplayFrom(acc, h) + Delta(x)
    decreases |h|
  {
    if h == [] {
      assert [] + [x] == [x];
      assert [x][1..] == [];
    } else {
      assert (h + [x])[0] == h[0];
      assert (h + [x])[1..] == h[1..] + [x];
      ReplayFromAppend(acc + Delta(h[0]), h[1..], x);
    }
  }

  lemma ReplayAppend(h: seq<PointHistory>, x: PointHistory)
    ensures Replay(h + [x]) == Replay(h) + Delta(x)
  {
    ReplayFromAppend(0, h, x);
  }

  // ---------------------------------------------------------------------
  // The ledger invariant
  // ---------------------------------------------------------------------

  /** What holds of one user's account in every reachable state: the balance
      is the replay of the history, every record belongs to that user and
      carries a positive amount, and replaying any prefix of the history never
      goes below 0 (no call ever overdrew the account). */
  ghost predicate AccountConsistent(u: UserId, balance: int, h: seq<PointHistory>)
  {
    && balance == Replay(h)
    && (forall i :: 0 <= i < |h| ==> h[i].userId == u && h[i].amount > 0)
    && (forall k :: 0 <= k <= |h| ==> Replay(h[..k]) >= 0)
  }

  /** The ledger invariant: every user's account is consistent. */
  ghost predicate Consistent(s: State)
  {
    forall u :: AccountConsistent(u, Balance(s, u), History(s, u))
  }

  /** A consistent account never has a negative balance. */
  lemma AccountBalanceNonNegative(u: UserId, balance: int, h: seq<PointHistory>)
    requires AccountConsistent(u, balance, h)
    ensures balance >= 0
  {
    assert h[..|h|] == h;
  }

  /** In a consistent ledger every balance is at least 0. */
  lemma BalanceNonNegative(s: State, u: UserId)
    requires Consistent(s)
    ensures Balance(s, u) >= 0
  {
    AccountBalanceNonNegative(u, Balance(s, u), History(s, u));
  }

  /** Appending a record that belongs to the user, has a positive amount and
      does not take the balance below 0 keeps the account consistent. */
  lemma AccountConsistentAppend(u: UserId, balance: int, h: seq<PointHistory>, x: PointHistory)
    requires AccountConsistent(u, balance, h)
    requires x.userId == u && x.amount > 0 && balance + Delta(x) >= 0
    ensures AccountConsistent(u, balance + Delta(x), h + [x])
  {
    var h' := h + [x];
    ReplayAppend(h, x);
    forall k | 0 <= k <= |h'|
      ensures Replay(h'[..k]) >= 0
    {
      if k <= |h| {
        assert h'[..k] == h[..k];
      } else {
        assert h'[..k] == h';
      }
    }
  }

  /** Fresh tables satisfy the invariant. */
  lemma EmptyConsistent()
    ensures Consistent(Empty())
  {
  }

  // ---------------------------------------------------------------------
  // The two transitions
  // ---------------------------------------------------------------------

  /** `charge(userId, amount)`: a non-positive amount is refused with
      InvalidAmount and nothing changes; otherwise the balance grows by
      `amount`, one CHARGE record is appended to the user's history, and the
      new balance is returned. */
  function Charge(s: State, userId: UserId, amount: int, nowMillis: int): (t: Transition)
    ensures t.outcome.Ok? <==> amount > 0
    ensures amount <= 0 ==> t.outcome == Err(InvalidAmount) && t.after == s
    ensures amount > 0 ==>
      && t.outcome == Ok(UserPoint(userId, Balance(s, userId) + amount))
      && Balance(t.after, userId) == Balance(s, userId) + amount
      && History(t.after, userId) == History(s, userId) + [PointHistory(userId, amount, CHARGE, nowMillis)]
    ensures forall u :: u != userId ==> Balance(t.after, u) == Balance(s, u) && History(t.after, u) == History(s, u)
  {
    if amount <= 0 then
      Transition(s, Err(InvalidAmount))
    else
      var newAmount := Balance(s, userId) + amount;
      var record := PointHistory(userId, amount, CHARGE, nowMillis);
      Transition(State(s.points[userId := newAmount], s.histories[userId := History(s, userId) + [record]]),
                 Ok(UserPoint(userId, newAmount)))
  }

  /** `use(userId, amount)`: a non-positive amount is refused with
      InvalidAmount, an amount above the balance with InsufficientBalance, and
      in both cases nothing changes; otherwise the balance shrinks by `amount`
      (staying at least 0), one USE record is appended to the user's history,
      and the new balance is returned. */
  function Use(s: State, userId: UserId, amount: int, nowMillis: int): (t: Transition)
    ensures t.outcome.Ok? <==> 0 < amount <= Balance(s, userId)
    ensures amount <= 0 ==> t.outcome == Err(InvalidAmount) && t.after == s
    ensures 0 < amount && Balance(s, userId) < amount ==> t.outcome == Err(InsufficientBalance) && t.after == s
    ensures 0 < amount <= Balance(s, userId) ==>
      && t.outcome == Ok(UserPoint(userId, Balance(s, userId) - amount))
      && 0 <= Balance(t.after, userId) == Balance(s, userId) - amount
      && History(t.after, userId) == History(s, userId) + [PointHistory(userId, amount, USE, nowMillis)]
    ensures forall u :: u != userId ==> Balance(t.after, u) == Balance(s, u) && History(t.after, u) == History(s, u)
  {
    if amount <= 0 then
      Transition(s, Err(InvalidAmount))
    else
      var current := Balance(s, userId);
      if current < amount then
        Transition(s, Err(InsufficientBalance))
      else
        var newAmount := current - amount;
        var record := PointHistory(userId, amount, USE, nowMillis);
        Transition(State(s.points[userId := newAmount], s.histories[userId := History(s, userId) + [record]]),
                   Ok(UserPoint(userId, newAmount)))
  }

  /** A charge keeps the ledger invariant. */
  lemma ChargePreservesConsistent(s: State, userId: UserId, amount: int, nowMillis: int)
    requires Consistent(s)
    ensures Consistent(Charge(s, userId, amount, nowMillis).after)
  {
    var t := Charge(s, userId, amount, nowMillis);
    if amount > 0 {
      var record := PointHistory(userId, amount, CHARGE, nowMillis);
      BalanceNonNegative(s, userId);
      forall u
        ensures AccountConsistent(u, Balance(t.after, u), History(t.after, u))
      {
        if u == userId {
          AccountConsistentAppend(u, Balance(s, u), History(s, u), record);
        } else {
          assert AccountConsistent(u, Balance(s, u), History(s, u));
        }
      }
    }
  }

  /** A use keeps the ledger invariant: in particular it never takes a
      balance below 0. */
  lemma UsePreservesConsistent(s: State, userId: UserId, amount: int, nowMillis: int)
    requires Consistent(s)
    ensures Consistent(Use(s, userId, amount, nowMillis).after)
  {
    var t := Use(s, userId, amount, nowMillis);
    if 0 < amount <= Balance(s, userId) {
      var record := PointHistory(userId, amount, USE, nowMillis);
      forall u
        ensures AccountConsistent(u, Balance(t.after, u), History(t.after, u))
      {
        if u == userId {
          AccountConsistentAppend(u, Balance(s, u), History(s, u), record);
        } else {
          assert AccountConsistent(u, Balance(s, u), History(s, u));
        }
      }
    }
  }
}

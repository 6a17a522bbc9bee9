/** Sequences of calls, run one after another. The model assumes that each
    call runs atomically, as one transition of `Ledger`. The service takes no
    locks, so this is an assumption about the callers, not a property of the
    code: under real concurrency the read-then-write in `charge` and `use`
    can lose updates. The lemmas here hold for every serial order of calls:
    the invariant survives, other users are untouched, histories only grow,
    and the assertions of the two concurrency tests (many charges; many uses
    racing for one balance) hold for serial executions. */
module LedgerRuns {
  import opened PointTypes
  import opened Ledger

  /** One call of `charge` or `use`, with the clock reading it would stamp. */
  datatype Call =
    | ChargeCall(userId: UserId, amount: int, nowMillis: int)
    | UseCall(userId: UserId, amount: int, nowMillis: int)

  /** The transition one call makes. */
  function Apply(s: State, c: Call): Transition
  {
    match c
    case ChargeCall(u, a, t) => Ledger.Charge(s, u, a, t)
    case UseCall(u, a, t) => Ledger.Use(s, u, a, t)
  }

  /** The final state and the outcome of every call, in call order. */
  datatype Trace = Trace(final: State, outcomes: seq<Outcome>)

  /** Runs the calls one after another from `s`. */
  function Run(s: State, calls: seq<Call>): (r: Trace)
    ensures |r.outcomes| == |calls|
    decreases |calls|
  {
    if calls == [] then
      Trace(s, [])
    else
      var t := Apply(s, calls[0]);
      var rest := Run(t.after, calls[1..]);
      Trace(rest.final, [t.outcome] + rest.outcomes)
  }

  /** The number of calls that succeeded. */
  function Successes(outcomes: seq<Outcome>): nat
  {
    if outcomes == [] then 0 else (if outcomes[0].Ok? then 1 else 0) + Successes(outcomes[1..])
  }

  /** The number of records of kind `k` in a history. */
  function CountKind(h: seq<PointHistory>, k: TransactionType): nat
  {
    if h == [] then 0 else (if h[0].kind == k then 1 else 0) + CountKind(h[1..], k)
  }

  lemma {:induction false} CountKindAppend(h: seq<PointHistory>, x: PointHistory, k: TransactionType)
    ensures CountKind(h + [x], k) == CountKind(h, k) + (if x.kind == k then 1 else 0)
    decreases |h|
  {
    if h == [] {
      assert [] + [x] == [x];
      assert [x][1..] == [];
    } else {
      assert (h + [x])[0] == h[0];
      assert (h + [x])[1..] == h[1..] + [x];
      CountKindAppend(h[1..], x, k);
    }
  }

  /** Splitting a trace: the first outcome, then the rest. */
  lemma RunStep(s: State, calls: seq<Call>)
    requires calls != []
    ensures Run(s, calls).final == Run(Apply(s, calls[0]).after, calls[1..]).final
    ensures Run(s, calls).outcomes[0] == Apply(s, calls[0]).outcome
    ensures Run(s, calls).outcomes[1..] == Run(Apply(s, calls[0]).after, calls[1..]).outcomes
    ensures Successes(Run(s, calls).outcomes)
         == (if Apply(s, calls[0]).outcome.Ok? then 1 else 0) + Successes(Run(Apply(s, calls[0]).after, calls[1..]).outcomes)
  {
  }

  /** Over any sequence of calls, on any users, the ledger invariant holds
      at the end: every balance is at least 0 and equals the replay of its
      history. */
  lemma {:induction false} RunPreservesConsistent(s: State, calls: seq<Call>)
    requires Consistent(s)
    ensures Consistent(Run(s, calls).final)
    decreases |calls|
  {
    if calls != [] {
      match calls[0] {
        case ChargeCall(u, a, t) => ChargePreservesConsistent(s, u, a, t);
        case UseCall(u, a, t) => UsePreservesConsistent(s, u, a, t);
      }
      RunStep(s, calls);
      RunPreservesConsistent(Apply(s, calls[0]).after, calls[1..]);
    }
  }

  /** Calls on other users never touch a user's balance or history. */
  lemma {:induction false} RunLeavesOtherUsers(s: State, calls: seq<Call>, u: UserId)
    requires forall i :: 0 <= i < |calls| ==> calls[i].userId != u
    ensures Balance(Run(s, calls).final, u) == Balance(s, u)
    ensures History(Run(s, calls).final, u) == History(s, u)
    decreases |calls|
  {
    if calls != [] {
      RunStep(s, calls);
      RunLeavesOtherUsers(Apply(s, calls[0]).after, calls[1..], u);
    }
  }

  /** The record a successful call appends, given the kind it writes. */
  function RecordOf(c: Call, kind: TransactionType): PointHistory
  {
    PointHistory(c.userId, c.amount, kind, c.nowMillis)
  }

  /** The records a run of successful calls appends, in call order. */
  function Records(calls: seq<Call>, kind: TransactionType): seq<PointHistory>
  {
    seq(|calls|, j requires 0 <= j < |calls| => RecordOf(calls[j], kind))
  }

  /** The kind of record a call writes when it succeeds. */
  function KindOf(c: Call): TransactionType
  {
    if c.ChargeCall? then CHARGE else USE
  }

  /** The records the successful calls of a run append: one per call whose
      outcome is `Ok`, of that call's kind, in call order. */
  function Appended(calls: seq<Call>, outcomes: seq<Outcome>): seq<PointHistory>
    requires |calls| == |outcomes|
    decreases |calls|
  {
    if calls == [] then []
    else
      (if outcomes[0].Ok? then [RecordOf(calls[0], KindOf(calls[0]))] else [])
      + Appended(calls[1..], outcomes[1..])
  }

  /** Histories are append-only: whatever the calls, every user's old
      history is a prefix of the new one. When every call is on that user,
      the history grows by exactly one record per successful call. */
  lemma {:induction false} RunAppendsOnly(s: State, calls: seq<Call>, u: UserId)
    ensures History(s, u) <= History(Run(s, calls).final, u)
    ensures (forall i :: 0 <= i < |calls| ==> calls[i].userId == u) ==>
      |History(Run(s, calls).final, u)| == |History(s, u)| + Successes(Run(s, calls).outcomes)
    decreases |calls|
  {
    if calls != [] {
      var t := Apply(s, calls[0]);
      RunStep(s, calls);
      RunAppendsOnly(t.after, calls[1..], u);
      assert History(s, u) <= History(t.after, u);
      if forall i :: 0 <= i < |calls| ==> calls[i].userId == u {
        assert forall i :: 0 <= i < |calls| - 1 ==> calls[1..][i] == calls[i + 1];
      }
    }
  }

  /** What one call adds to its user's history: its own record if it
      succeeded, nothing if it failed. */
  lemma ApplyAppends(s: State, c: Call)
    ensures History(Apply(s, c).after, c.userId)
         == History(s, c.userId) + (if Apply(s, c).outcome.Ok? then [RecordOf(c, KindOf(c))] else [])
  {
  }

  /** Unfolding `Appended` once. */
  lemma AppendedCons(calls: seq<Call>, outcomes: seq<Outcome>)
    requires |calls| == |outcomes| && calls != []
    ensures Appended(calls, outcomes)
         == (if outcomes[0].Ok? then [RecordOf(calls[0], KindOf(calls[0]))] else []) + Appended(calls[1..], outcomes[1..])
  {
  }

  /** For any mix of charges and uses on one user, the history grows by
      exactly the records of the successful calls, each with that call's
      user, amount, kind and time, in call order. */
  lemma {:induction false} RunHistoryAppended(s: State, calls: seq<Call>, u: UserId)
    requires forall i :: 0 <= i < |calls| ==> calls[i].userId == u
    ensures History(Run(s, calls).final, u) == History(s, u) + Appended(calls, Run(s, calls).outcomes)
    decreases |calls|
  {
    if calls != [] {
      var t := Apply(s, calls[0]);
      var rest := calls[1..];
      assert forall i :: 0 <= i < |rest| ==> rest[i] == calls[i + 1];
      RunStep(s, calls);
      RunHistoryAppended(t.after, rest, u);
      ApplyAppends(s, calls[0]);
      AppendedCons(calls, Run(s, calls).outcomes);
      ConcatAssoc(History(s, u),
                  if t.outcome.Ok? then [RecordOf(calls[0], KindOf(calls[0]))] else [],
                  Appended(rest, Run(t.after, rest).outcomes));
    }
  }

  lemma ConcatAssoc(a: seq<PointHistory>, b: seq<PointHistory>, c: seq<PointHistory>)
    ensures (a + b) + c == a + (b + c)
  {
  }

  lemma RecordsCons(calls: seq<Call>, kind: TransactionType)
    requires calls != []
    ensures Records(calls, kind) == [RecordOf(calls[0], kind)] + Records(calls[1..], kind)
  {
  }

  /** Counting a kind over two histories put end to end. */
  lemma {:induction false} CountKindConcat(a: seq<PointHistory>, b: seq<PointHistory>, k: TransactionType)
    ensures CountKind(a + b, k) == CountKind(a, k) + CountKind(b, k)
    decreases |a|
  {
    if a == [] {
      assert [] + b == b;
    } else {
      assert (a + b)[0] == a[0];
      assert (a + b)[1..] == a[1..] + b;
      CountKindConcat(a[1..], b, k);
    }
  }

  /** Every record in `Records(calls, k)` has kind `k`, so all of them count. */
  lemma {:induction false} CountKindRecords(calls: seq<Call>, k: TransactionType)
    ensures CountKind(Records(calls, k), k) == |calls|
    decreases |calls|
  {
    if calls != [] {
      RecordsCons(calls, k);
      assert ([RecordOf(calls[0], k)] + Records(calls[1..], k))[1..] == Records(calls[1..], k);
      CountKindRecords(calls[1..], k);
    }
  }

  /** A run in which every call succeeded has as many successes as calls. */
  lemma {:induction false} SuccessesAllOk(outcomes: seq<Outcome>)
    requires forall i :: 0 <= i < |outcomes| ==> outcomes[i].Ok?
    ensures Successes(outcomes) == |outcomes|
    decreases |outcomes|
  {
    if outcomes != [] {
      SuccessesAllOk(outcomes[1..]);
    }
  }

  /** Arithmetic hint for the inductive steps below: (n + 1) × a = a + n × a. */
  lemma MulStep(n: int, a: int)
    ensures (n + 1) * a == a + n * a
  {
  }

  /** Arithmetic hint: for a > 0, n × a is at least a once n >= 1. */
  lemma MulAtLeastOnce(n: nat, a: int)
    requires a > 0
    ensures n >= 1 ==> n * a >= a
  {
  }

  /** Charges of one positive amount on one user: every call succeeds, the
      balance grows by count × amount, and the history grows by exactly the
      CHARGE records of those calls, in call order. */
  lemma {:induction false} ChargesRun(s: State, calls: seq<Call>, u: UserId, amount: int)
    requires amount > 0
    requires forall i :: 0 <= i < |calls| ==> calls[i].ChargeCall? && calls[i].userId == u && calls[i].amount == amount
    ensures forall i :: 0 <= i < |calls| ==> Run(s, calls).outcomes[i].Ok?
    ensures Balance(Run(s, calls).final, u) == Balance(s, u) + |calls| * amount
    ensures History(Run(s, calls).final, u) == History(s, u) + Records(calls, CHARGE)
    decreases |calls|
  {
    if calls != [] {
      var t := Apply(s, calls[0]);
      var rest := calls[1..];
      assert forall i :: 0 <= i < |rest| ==> rest[i] == calls[i + 1];
      RunStep(s, calls);
      ChargesRun(t.after, rest, u, amount);
      RecordsCons(calls, CHARGE);
      MulStep(|rest|, amount);
      assert History(t.after, u) == History(s, u) + [RecordOf(calls[0], CHARGE)];
      forall i | 0 < i < |calls|
        ensures Run(s, calls).outcomes[i].Ok?
      {
        assert Run(s, calls).outcomes[i] == Run(t.after, rest).outcomes[i - 1];
      }
    }
  }

  /** Concurrent charges: any number of charges of the same positive amount
      on one user all succeed; the balance grows by count × amount, and the
      history grows by exactly that many CHARGE records of that amount. */
  lemma ChargesAccumulate(s: State, calls: seq<Call>, u: UserId, amount: int)
    requires amount > 0
    requires forall i :: 0 <= i < |calls| ==> calls[i].ChargeCall? && calls[i].userId == u && calls[i].amount == amount
    ensures Successes(Run(s, calls).outcomes) == |calls|
    ensures Balance(Run(s, calls).final, u) == Balance(s, u) + |calls| * amount
    ensures History(Run(s, calls).final, u) == History(s, u) + Records(calls, CHARGE)
    ensures forall j :: 0 <= j < |calls| ==> Records(calls, CHARGE)[j].kind == CHARGE && Records(calls, CHARGE)[j].amount == amount
    ensures CountKind(History(Run(s, calls).final, u), CHARGE) == CountKind(History(s, u), CHARGE) + |calls|
  {
    ChargesRun(s, calls, u, amount);
    SuccessesAllOk(Run(s, calls).outcomes);
    CountKindConcat(History(s, u), Records(calls, CHARGE), CHARGE);
    CountKindRecords(calls, CHARGE);
  }

  /** The first concurrency test: N charges of A on a user never seen give
      balance N × A and a history of exactly N records, all CHARGE. */
  lemma FreshUserCharges(s: State, calls: seq<Call>, u: UserId, amount: int)
    requires Balance(s, u) == 0 && History(s, u) == []
    requires amount > 0
    requires forall i :: 0 <= i < |calls| ==> calls[i].ChargeCall? && calls[i].userId == u && calls[i].amount == amount
    ensures Balance(Run(s, calls).final, u) == |calls| * amount
    ensures |History(Run(s, calls).final, u)| == |calls|
    ensures forall j :: 0 <= j < |calls| ==> History(Run(s, calls).final, u)[j].kind == CHARGE
  {
    ChargesAccumulate(s, calls, u, amount);
    assert [] + Records(calls, CHARGE) == Records(calls, CHARGE);
  }

  /** Uses of one positive amount A on one user, from a balance V >= 0,
      outcomes and balance only: with n successes, the successful calls are
      exactly the first n, every later one fails with InsufficientBalance,
      and n × A + final balance = V with the final balance at least 0 and
      below A unless every call succeeded. */
  lemma {:induction false} UsesRunOutcomes(s: State, calls: seq<Call>, u: UserId, amount: int)
    requires amount > 0
    requires Balance(s, u) >= 0
    requires forall i :: 0 <= i < |calls| ==> calls[i].UseCall? && calls[i].userId == u && calls[i].amount == amount
    ensures var r := Run(s, calls); var n := Successes(r.outcomes);
      && n <= |calls|
      && n * amount + Balance(r.final, u) == Balance(s, u)
      && Balance(r.final, u) >= 0
      && (n < |calls| ==> Balance(r.final, u) < amount)
      && (forall i :: 0 <= i < |calls| ==> (r.outcomes[i].Ok? <==> i < n))
      && (forall i :: n <= i < |calls| ==> r.outcomes[i] == Err(InsufficientBalance))
    decreases |calls|
  {
    if calls != [] {
      var t := Apply(s, calls[0]);
      var rest := calls[1..];
      assert forall i :: 0 <= i < |rest| ==> rest[i] == calls[i + 1];
      RunStep(s, calls);
      UsesRunOutcomes(t.after, rest, u, amount);
      var r := Run(s, calls);
      var r' := Run(t.after, rest);
      var n := Successes(r.outcomes);
      var n' := Successes(r'.outcomes);
      forall i | 0 < i < |calls|
        ensures r.outcomes[i] == r'.outcomes[i - 1]
      {
      }
      if amount <= Balance(s, u) {
        assert n == n' + 1;
        MulStep(n', amount);
      } else {
        assert t.after == s;
        MulAtLeastOnce(n', amount);
        assert n' == 0;
      }
    }
  }

  /** When every call is a use and exactly the first n succeeded, the
      records they append are the USE records of the first n calls. */
  lemma {:induction false} AppendedPrefix(calls: seq<Call>, outcomes: seq<Outcome>, n: nat)
    requires |calls| == |outcomes| && n <= |calls|
    requires forall i :: 0 <= i < |calls| ==> calls[i].UseCall?
    requires forall i :: 0 <= i < |calls| ==> (outcomes[i].Ok? <==> i < n)
    ensures Appended(calls, outcomes) == Records(calls[..n], USE)
    decreases |calls|
  {
    if calls == [] {
      assert calls[..n] == [];
    } else {
      var rest := calls[1..];
      var outs := outcomes[1..];
      assert forall i :: 0 <= i < |rest| ==> rest[i] == calls[i + 1] && outs[i] == outcomes[i + 1];
      AppendedCons(calls, outcomes);
      if n == 0 {
        AppendedPrefix(rest, outs, 0);
        assert calls[..0] == [] && rest[..0] == [];
      } else {
        AppendedPrefix(rest, outs, n - 1);
        assert calls[..n][1..] == rest[..n - 1];
        RecordsCons(calls[..n], USE);
      }
    }
  }

  /** Uses of one positive amount A on one user, from a balance V >= 0: with
      n successes, the successful calls are exactly the first n, every later
      one fails with InsufficientBalance, n × A + final balance = V with the
      final balance at least 0 and below A unless every call succeeded, and
      the history grows by exactly the USE records of the first n calls. */
  lemma UsesRun(s: State, calls: seq<Call>, u: UserId, amount: int)
    requires amount > 0
    requires Balance(s, u) >= 0
    requires forall i :: 0 <= i < |calls| ==> calls[i].UseCall? && calls[i].userId == u && calls[i].amount == amount
    ensures var r := Run(s, calls); var n := Successes(r.outcomes);
      && n <= |calls|
      && n * amount + Balance(r.final, u) == Balance(s, u)
      && Balance(r.final, u) >= 0
      && (n < |calls| ==> Balance(r.final, u) < amount)
      && (forall i :: 0 <= i < |calls| ==> (r.outcomes[i].Ok? <==> i < n))
      && (forall i :: n <= i < |calls| ==> r.outcomes[i] == Err(InsufficientBalance))
      && History(r.final, u) == History(s, u) + Records(calls[..n], USE)
  {
    UsesRunOutcomes(s, calls, u, amount);
    RunHistoryAppended(s, calls, u);
    AppendedPrefix(calls, Run(s, calls).outcomes, Successes(Run(s, calls).outcomes));
  }

  /** The second concurrency test: uses of A racing for a balance V >= 0
      never overdraw it. With n successes, n × A <= V, n × A + final = V,
      the final balance is at least 0, and the user's history holds exactly
      n more USE records, which are its only new records. */
  lemma UsesNeverOverdraw(s: State, calls: seq<Call>, u: UserId, amount: int)
    requires amount > 0
    requires Balance(s, u) >= 0
    requires forall i :: 0 <= i < |calls| ==> calls[i].UseCall? && calls[i].userId == u && calls[i].amount == amount
    ensures var r := Run(s, calls); var n := Successes(r.outcomes);
      && n * amount <= Balance(s, u)
      && n * amount + Balance(r.final, u) == Balance(s, u)
      && Balance(r.final, u) >= 0
      && |History(r.final, u)| == |History(s, u)| + n
      && CountKind(History(r.final, u), USE) == CountKind(History(s, u), USE) + n
      && CountKind(History(r.final, u), CHARGE) == CountKind(History(s, u), CHARGE)
  {
    UsesRun(s, calls, u, amount);
    var n := Successes(Run(s, calls).outcomes);
    var added := Records(calls[..n], USE);
    CountKindConcat(History(s, u), added, USE);
    CountKindConcat(History(s, u), added, CHARGE);
    CountKindRecords(calls[..n], USE);
    NoOtherKind(calls[..n], USE, CHARGE);
  }

  /** Records written with kind `k` hold none of any other kind. */
  lemma {:induction false} NoOtherKind(calls: seq<Call>, k: TransactionType, other: TransactionType)
    requires k != other
    ensures CountKind(Records(calls, k), other) == 0
    decreases |calls|
  {
    if calls != [] {
      RecordsCons(calls, k);
      assert ([RecordOf(calls[0], k)] + Records(calls[1..], k))[1..] == Records(calls[1..], k);
      NoOtherKind(calls[1..], k, other);
    }
  }

  /** The signed amount of a call that succeeded: + for a charge, - for a use;
      0 for a call that failed. */
  function Effect(c: Call, o: Outcome): int
  {
    if o.Err? then 0 else if c.ChargeCall? then c.amount else -c.amount
  }

  /** The sum of the effects of a run's calls. */
  function NetEffect(calls: seq<Call>, outcomes: seq<Outcome>): int
    requires |calls| == |outcomes|
    decreases |calls|
  {
    if calls == [] then 0 else Effect(calls[0], outcomes[0]) + NetEffect(calls[1..], outcomes[1..])
  }

  /** For any mix of charges and uses on one user, the final balance is the
      starting balance plus the charged amounts minus the used amounts of the
      calls that succeeded; failed calls count for nothing. */
  lemma {:induction false} RunNetEffect(s: State, calls: seq<Call>, u: UserId)
    requires forall i :: 0 <= i < |calls| ==> calls[i].userId == u
    ensures Balance(Run(s, calls).final, u) == Balance(s, u) + NetEffect(calls, Run(s, calls).outcomes)
    decreases |calls|
  {
    if calls != [] {
      var t := Apply(s, calls[0]);
      var rest := calls[1..];
      assert forall i :: 0 <= i < |rest| ==> rest[i] == calls[i + 1];
      RunStep(s, calls);
      RunNetEffect(t.after, rest, u);
    }
  }
}

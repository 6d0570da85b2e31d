/** What the engine promises, proved about the specification functions. */
module PaymentLemmas {
  import opened Model
  import opened Request
  import opened PaymentSpec

  // ----- balances -----

  /** Removing one account takes exactly its balance out of the total. */
  lemma {:induction false} TotalRemove(m: map<string, real>, k: string)
    requires k in m
    ensures Total(m) == m[k] + Total(m - {k})
    decreases |m|
  {
    var j := Pick(m);
    if j != k {
      var mj, mk := m - {j}, m - {k};
      assert |mj| == |m| - 1 by { assert mj.Keys == m.Keys - {j}; }
      assert |mk| == |m| - 1 by { assert mk.Keys == m.Keys - {k}; }
      TotalRemove(mj, k);
      TotalRemove(mk, j);
      assert mj - {k} == mk - {j};
    }
  }

  /** Overwriting one balance changes the total by the difference. */
  lemma TotalUpdate(m: map<string, real>, k: string, v: real)
    requires k in m
    ensures Total(m[k := v]) == Total(m) - m[k] + v
  {
    TotalRemove(m, k);
    TotalRemove(m[k := v], k);
    assert m[k := v] - {k} == m - {k};
  }

  /** A commit debits the sender by exactly `amount`, credits the recipient
      by exactly `amount` and leaves every other account as it was. */
  lemma CommitMovesAmount(l: Ledger, fromId: string, toId: string, amount: real, now: Instant)
    requires Check(l.balances, fromId, toId, amount) == None
    ensures var b := Commit(l, fromId, toId, amount, now).0.balances;
      && b.Keys == l.balances.Keys
      && b[fromId] == l.balances[fromId] - amount
      && b[toId] == l.balances[toId] + amount
      && forall id :: id in l.balances && id != fromId && id != toId ==> b[id] == l.balances[id]
  {
  }

  /** A commit conserves the sum of all balances. */
  lemma CommitConservesTotal(l: Ledger, fromId: string, toId: string, amount: real, now: Instant)
    requires Check(l.balances, fromId, toId, amount) == None
    ensures Total(Commit(l, fromId, toId, amount, now).0.balances) == Total(l.balances)
  {
    var b := l.balances;
    var debited := b[fromId := b[fromId] - amount];
    TotalUpdate(b, fromId, b[fromId] - amount);
    TotalUpdate(debited, toId, b[toId] + amount);
  }

  /** With a non-negative amount, a commit keeps every balance non-negative;
      the sender may be left with exactly zero. */
  lemma CommitKeepsNonNegative(l: Ledger, fromId: string, toId: string, amount: real, now: Instant)
    requires Check(l.balances, fromId, toId, amount) == None
    requires amount >= 0.0 && NonNegative(l.balances)
    ensures NonNegative(Commit(l, fromId, toId, amount, now).0.balances)
    ensures l.balances[fromId] == amount ==> Commit(l, fromId, toId, amount, now).0.balances[fromId] == 0.0
  {
    CommitMovesAmount(l, fromId, toId, amount, now);
  }

  /** A commit appends exactly one entry with a fresh id and the request's
      data, and exactly one event that matches it; the log stays consistent. */
  lemma CommitAppendsOneEntry(l: Ledger, fromId: string, toId: string, amount: real, now: Instant)
    requires Check(l.balances, fromId, toId, amount) == None
    requires Consistent(l)
    ensures var (l', tx) := Commit(l, fromId, toId, amount, now);
      && l'.transactions == l.transactions + [tx]
      && tx.id.Some?
      && (forall t :: t in l.transactions ==> t.id != tx.id)
      && tx.fromAccountId == Some(fromId) && tx.toAccountId == Some(toId)
      && tx.amount == Some(amount) && tx.timestamp == Some(now)
      && l'.events == l.events + [TransactionEvent(tx.id.value, fromId, toId, amount)]
      && Consistent(l')
  {
    var (l', tx) := Commit(l, fromId, toId, amount, now);
    var n := |l.transactions|;
    forall t | t in l.transactions
      ensures t.id != tx.id
    {
      var i :| 0 <= i < n && l.transactions[i] == t;
      assert RecordedAt(l, i);
    }
    forall i | 0 <= i < |l'.transactions|
      ensures RecordedAt(l', i)
    {
      if i < n {
        assert RecordedAt(l, i);
        assert l'.transactions[i] == l.transactions[i] && l'.events[i] == l.events[i];
      }
    }
  }

  // ----- the retry policy -----

  /** A business failure ends the call on its first attempt, whatever faults
      were scheduled: no retry, no recovery, nothing changed. */
  lemma BusinessFailureIsNotRetried(l: Ledger, fromId: string, toId: string, amount: real,
                                    clock: nat -> Instant, faults: seq<Fault>)
    requires Check(l.balances, fromId, toId, amount).Some?
    ensures RetrySpec(l, fromId, toId, amount, clock, faults, 0)
      == Run(Err(Check(l.balances, fromId, toId, amount).value), l, 1)
  {
  }

  /** A missing sender is reported first, even when the recipient is missing too. */
  lemma MissingSenderReportedFirst(l: Ledger, fromId: string, toId: string, amount: real,
                                   clock: nat -> Instant, faults: seq<Fault>)
    requires fromId !in l.balances
    ensures RetrySpec(l, fromId, toId, amount, clock, faults, 0) == Run(Err(AccountNotFound(fromId)), l, 1)
  {
  }

  /** Then a missing recipient. */
  lemma MissingRecipientReportedSecond(l: Ledger, fromId: string, toId: string, amount: real,
                                       clock: nat -> Instant, faults: seq<Fault>)
    requires fromId in l.balances && toId !in l.balances
    ensures RetrySpec(l, fromId, toId, amount, clock, faults, 0) == Run(Err(AccountNotFound(toId)), l, 1)
  {
  }

  /** The identical-account check comes after both lookups: a transfer from
      an unknown account to itself is reported as not found. */
  lemma IdenticalAccountCheckedAfterLookups(l: Ledger, id: string, amount: real,
                                            clock: nat -> Instant, faults: seq<Fault>)
    ensures id !in l.balances ==>
      RetrySpec(l, id, id, amount, clock, faults, 0) == Run(Err(AccountNotFound(id)), l, 1)
    ensures id in l.balances ==>
      RetrySpec(l, id, id, amount, clock, faults, 0) == Run(Err(IdenticalAccount(id)), l, 1)
  {
  }

  /** A short balance is reported last, and a balance equal to the amount is enough. */
  lemma InsufficientFundsReportedLast(l: Ledger, fromId: string, toId: string, amount: real,
                                      clock: nat -> Instant, faults: seq<Fault>)
    requires fromId in l.balances && toId in l.balances && fromId != toId
    ensures l.balances[fromId] < amount ==>
      RetrySpec(l, fromId, toId, amount, clock, faults, 0) == Run(Err(InsufficientFunds(fromId)), l, 1)
    ensures l.balances[fromId] == amount ==> Check(l.balances, fromId, toId, amount) == None
  {
  }

  /** Once attempts `i` to `k - 1` have failed transiently and attempt `k`
      is clean, the call commits at attempt `k`. */
  lemma {:induction false} RetryFrom(l: Ledger, fromId: string, toId: string, amount: real,
                                     clock: nat -> Instant, faults: seq<Fault>, i: nat, k: nat)
    requires Check(l.balances, fromId, toId, amount) == None
    requires i <= k < MaxAttempts
    requires forall j :: i <= j < k ==> FaultAt(faults, j) != Clean
    requires FaultAt(faults, k) == Clean
    ensures var (l', tx) := Commit(l, fromId, toId, amount, clock(k));
      RetrySpec(l, fromId, toId, amount, clock, faults, i) == Run(Ok(tx), l', k + 1)
    decreases k - i
  {
    if i < k {
      assert FaultAt(faults, i) != Clean;
      RetryFrom(l, fromId, toId, amount, clock, faults, i + 1, k);
    }
  }

  /** Retry recovers transparently: after `k` transient failures a clean
      attempt commits once, leaving the state a single clean attempt made
      at the same moment would leave. */
  lemma RetryRecovers(l: Ledger, fromId: string, toId: string, amount: real,
                      clock: nat -> Instant, faults: seq<Fault>, k: nat)
    requires Check(l.balances, fromId, toId, amount) == None
    requires k < MaxAttempts
    requires forall j :: 0 <= j < k ==> FaultAt(faults, j) != Clean
    requires FaultAt(faults, k) == Clean
    ensures var r := RetrySpec(l, fromId, toId, amount, clock, faults, 0);
      && r.attempts == k + 1
      && AttemptSpec(l, fromId, toId, amount, clock(k), Clean) == Committed(r.ledger, r.result.value)
  {
    RetryFrom(l, fromId, toId, amount, clock, faults, 0, k);
  }

  /** From attempt `i` on, if every remaining attempt fails transiently the
      call ends in the retry fallback with nothing changed. */
  lemma {:induction false} ExhaustionFrom(l: Ledger, fromId: string, toId: string, amount: real,
                                          clock: nat -> Instant, faults: seq<Fault>, i: nat)
    requires Check(l.balances, fromId, toId, amount) == None
    requires i <= MaxAttempts
    requires forall j :: i <= j < MaxAttempts ==> FaultAt(faults, j) != Clean
    ensures RetrySpec(l, fromId, toId, amount, clock, faults, i)
      == Run(Ok(FallbackProcessPayment(fromId, toId)), l, MaxAttempts)
    decreases MaxAttempts - i
  {
    if i < MaxAttempts {
      assert FaultAt(faults, i) != Clean;
      ExhaustionFrom(l, fromId, toId, amount, clock, faults, i + 1);
    }
  }

  /** Five transient failures in a row end in the zero-amount fallback. */
  lemma RetryExhaustedFallsBack(l: Ledger, fromId: string, toId: string, amount: real,
                                clock: nat -> Instant, faults: seq<Fault>)
    requires Check(l.balances, fromId, toId, amount) == None
    requires forall j :: 0 <= j < MaxAttempts ==> FaultAt(faults, j) != Clean
    ensures var r := RetrySpec(l, fromId, toId, amount, clock, faults, 0);
      && r.attempts == MaxAttempts && r.ledger == l
      && r.result == Ok(FallbackProcessPayment(fromId, toId))
      && r.result.value.amount == Some(0.0)
  {
    ExhaustionFrom(l, fromId, toId, amount, clock, faults, 0);
  }

  // ----- the circuit breaker -----

  /** An open breaker returns its fallback without a single attempt on the ledger. */
  lemma OpenBreakerShortCircuits(l: Ledger, fromId: string, toId: string, amount: real,
                                 clock: nat -> Instant, faults: seq<Fault>)
    ensures var r := ProcessPaymentSpec(l, Open, fromId, toId, amount, clock, faults);
      && r.attempts == 0 && r.ledger == l
      && r.result == Ok(FallbackProcessPaymentCircuitBreaker(fromId, toId))
  {
  }

  /** A closed breaker passes a business failure through unchanged: the
      caller sees the exception, not the breaker's zero-amount record. */
  lemma ClosedBreakerPassesBusinessFailure(l: Ledger, fromId: string, toId: string, amount: real,
                                           clock: nat -> Instant, faults: seq<Fault>)
    requires Check(l.balances, fromId, toId, amount).Some?
    ensures ProcessPaymentSpec(l, Closed, fromId, toId, amount, clock, faults)
      == Run(Err(Check(l.balances, fromId, toId, amount).value), l, 1)
  {
    BusinessFailureIsNotRetried(l, fromId, toId, amount, clock, faults);
  }

  // ----- whole calls -----

  /** A call either leaves the state unchanged or commits exactly one
      transfer; a returned record with an id is the committed one. */
  lemma ProcessPaymentAllOrNothing(l: Ledger, breaker: BreakerState, fromId: string, toId: string, amount: real,
                                   clock: nat -> Instant, faults: seq<Fault>)
    ensures var r := ProcessPaymentSpec(l, breaker, fromId, toId, amount, clock, faults);
      || (r.ledger == l && (r.result.Err? || r.result.value.id == None))
      || (&& Check(l.balances, fromId, toId, amount) == None
          && r.result.Ok? && 0 < r.attempts
          && (r.ledger, r.result.value) == Commit(l, fromId, toId, amount, clock(r.attempts - 1)))
    ensures var r := ProcessPaymentSpec(l, breaker, fromId, toId, amount, clock, faults);
      r.attempts <= MaxAttempts && (breaker == Closed ==> 1 <= r.attempts)
  {
  }

  /** Every call conserves the sum of all balances. */
  lemma ProcessPaymentConservesTotal(l: Ledger, breaker: BreakerState, fromId: string, toId: string, amount: real,
                                     clock: nat -> Instant, faults: seq<Fault>)
    ensures Total(ProcessPaymentSpec(l, breaker, fromId, toId, amount, clock, faults).ledger.balances) == Total(l.balances)
  {
    var r := ProcessPaymentSpec(l, breaker, fromId, toId, amount, clock, faults);
    ProcessPaymentAllOrNothing(l, breaker, fromId, toId, amount, clock, faults);
    if r.ledger != l {
      CommitConservesTotal(l, fromId, toId, amount, clock(r.attempts - 1));
    }
  }

  /** Every call keeps the log consistent: one event per entry, ids in order. */
  lemma ProcessPaymentKeepsConsistent(l: Ledger, breaker: BreakerState, fromId: string, toId: string, amount: real,
                                      clock: nat -> Instant, faults: seq<Fault>)
    requires Consistent(l)
    ensures Consistent(ProcessPaymentSpec(l, breaker, fromId, toId, amount, clock, faults).ledger)
  {
    var r := ProcessPaymentSpec(l, breaker, fromId, toId, amount, clock, faults);
    ProcessPaymentAllOrNothing(l, breaker, fromId, toId, amount, clock, faults);
    if r.ledger != l {
      CommitAppendsOneEntry(l, fromId, toId, amount, clock(r.attempts - 1));
    }
  }

  /** The service itself accepts any amount: a negative one moves money from
      the recipient to the sender and can push the recipient below zero. */
  lemma ServiceAcceptsNegativeAmount(clock: nat -> Instant)
    ensures var l := Ledger(map["acc1" := 0.0, "acc2" := 0.0], [], []);
      var r := ProcessPaymentSpec(l, Closed, "acc1", "acc2", -50.0, clock, []);
      r.result.Ok? && r.ledger.balances["acc2"] == -50.0 && !NonNegative(r.ledger.balances)
  {
    var l := Ledger(map["acc1" := 0.0, "acc2" := 0.0], [], []);
    RetryRecovers(l, "acc1", "acc2", -50.0, clock, [], 0);
  }

  /** A validated request that commits strictly increases the recipient's balance. */
  lemma ValidTransferCreditsRecipient(l: Ledger, req: TransferRequest, breaker: BreakerState,
                                      clock: nat -> Instant, faults: seq<Fault>)
    requires IsValid(req)
    requires TransferSpec(l, req, breaker, clock, faults).ledger != l
    ensures req.toAcct.value in l.balances
    ensures TransferSpec(l, req, breaker, clock, faults).ledger.balances[req.toAcct.value]
          > l.balances[req.toAcct.value]
  {
    var fromId, toId, amount := req.fromAcct.value, req.toAcct.value, req.amount.value;
    var r := TransferSpec(l, req, breaker, clock, faults);
    ProcessPaymentAllOrNothing(l, breaker, fromId, toId, amount, clock, faults);
    CommitMovesAmount(l, fromId, toId, amount, clock(r.attempts - 1));
  }

  /** Behind the request guard no balance ever becomes negative. */
  lemma TransferKeepsNonNegative(l: Ledger, req: TransferRequest, breaker: BreakerState,
                                 clock: nat -> Instant, faults: seq<Fault>)
    requires NonNegative(l.balances)
    ensures NonNegative(TransferSpec(l, req, breaker, clock, faults).ledger.balances)
  {
    if IsValid(req) {
      var fromId, toId, amount := req.fromAcct.value, req.toAcct.value, req.amount.value;
      var r := TransferSpec(l, req, breaker, clock, faults);
      ProcessPaymentAllOrNothing(l, breaker, fromId, toId, amount, clock, faults);
      if r.ledger != l {
        CommitKeepsNonNegative(l, fromId, toId, amount, clock(r.attempts - 1));
      }
    }
  }

  /** A rejected request changes nothing and reaches neither breaker nor ledger. */
  lemma InvalidRequestRejected(l: Ledger, req: TransferRequest, breaker: BreakerState,
                               clock: nat -> Instant, faults: seq<Fault>)
    requires !IsValid(req)
    ensures TransferSpec(l, req, breaker, clock, faults) == Run(Err(InvalidRequest), l, 0)
  {
  }

  // ----- reads -----

  /** In a consistent log, looking up id `n` finds entry `n - 1`, and only
      ids `1 .. |log|` are found. */
  lemma FindTransactionByPosition(l: Ledger, id: int)
    requires Consistent(l)
    ensures FindTransaction(l.transactions, id)
      == if 1 <= id <= |l.transactions| then Some(l.transactions[id - 1]) else None
  {
    var txs := l.transactions;
    var r := FindTransaction(txs, id);
    if 1 <= id <= |txs| {
      assert RecordedAt(l, id - 1);
      assert txs[id - 1] in txs;
    }
    if r.Some? {
      var i :| 0 <= i < |txs| && txs[i] == r.value;
      assert RecordedAt(l, i);
    }
  }

  // ----- scenarios -----

  /** acc1 = 1000 and acc2 = 500; moving 200 commits entry 1 and leaves 800 and 700. */
  lemma ScenarioTransfer(clock: nat -> Instant)
    ensures var l := Ledger(map["acc1" := 1000.0, "acc2" := 500.0], [], []);
      var r := TransferSpec(l, TransferRequest(Some("acc1"), Some("acc2"), Some(200.0)), Closed, clock, []);
      && r.result.Ok? && r.result.value.amount == Some(200.0) && r.result.value.id == Some(1)
      && r.ledger.balances["acc1"] == 800.0 && r.ledger.balances["acc2"] == 700.0
      && r.ledger.events == [TransactionEvent(1, "acc1", "acc2", 200.0)]
  {
    var l := Ledger(map["acc1" := 1000.0, "acc2" := 500.0], [], []);
    RetryRecovers(l, "acc1", "acc2", 200.0, clock, [], 0);
  }

  /** Two transient save failures, then success on the third attempt. */
  lemma ScenarioRetrySuccess(clock: nat -> Instant)
    ensures var l := Ledger(map["acc1" := 1000.0, "acc2" := 500.0], [], []);
      var r := ProcessPaymentSpec(l, Closed, "acc1", "acc2", 200.0, clock,
                                  [SaveTransactionFails, SaveTransactionFails]);
      && r.attempts == 3 && r.result.Ok? && r.result.value.amount == Some(200.0)
      && r.ledger.balances["acc1"] == 800.0 && r.ledger.balances["acc2"] == 700.0
  {
    var l := Ledger(map["acc1" := 1000.0, "acc2" := 500.0], [], []);
    RetryRecovers(l, "acc1", "acc2", 200.0, clock, [SaveTransactionFails, SaveTransactionFails], 2);
  }
}

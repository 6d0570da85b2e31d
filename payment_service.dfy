/** The payment service as an object over the ledger it updates in place.
    Each operation is proved to do exactly what `PaymentSpec` says. */
module Service {
  import opened Model
  import opened Request
  import opened PaymentSpec
  import PaymentLemmas

  class PaymentService {
    /** The account table: balance by account id. */
    var balances: map<string, real>
    /** The transaction table, in insertion order. */
    var transactions: seq<Transaction>
    /** Every event sent to the notification topic. */
    var events: seq<TransactionEvent>

    function State(): Ledger
      reads this
    {
      Ledger(balances, transactions, events)
    }

    ghost predicate Valid()
      reads this
    {
      Consistent(State())
    }

    /** A service over the given accounts, with an empty log. */
    constructor (initial: map<string, real>)
      ensures Valid()
      ensures State() == Ledger(initial, [], [])
    {
      balances := initial;
      transactions := [];
      events := [];
    }

    /** The repository's lookup by primary key. */
    method FindAccount(id: string) returns (a: Option<Account>)
      ensures a.Some? <==> id in balances
      ensures a.Some? ==> a.value.id == id && a.value.balance == balances[id]
    {
      a := if id in balances then Some(Account(id, balances[id])) else None;
    }

    /** Undoes every write of the current database transaction. */
    method Rollback(snapshot: Ledger)
      modifies this
      ensures State() == snapshot
    {
      balances, transactions, events := snapshot.balances, snapshot.transactions, snapshot.events;
    }

    /** One attempt of `processPayment` inside its database transaction:
        lookups, checks, then the writes in source order, each of which may
        meet the scheduled fault and roll everything back. */
    method Attempt(fromId: string, toId: string, amount: real, now: Instant, fault: Fault)
      returns (r: Result<Transaction, Failure>)
      requires Valid()
      modifies this
      ensures Valid()
      ensures match AttemptSpec(old(State()), fromId, toId, amount, now, fault)
        case Committed(l, tx) => r == Ok(tx) && State() == l
        case Failed(f) => r == Err(f) && State() == old(State())
    {
      var found := FindAccount(fromId);
      if found.None? {
        return Err(AccountNotFound(fromId));
      }
      var from := found.value;
      found := FindAccount(toId);
      if found.None? {
        return Err(AccountNotFound(toId));
      }
      var to := found.value;
      if from.id == to.id {
        return Err(IdenticalAccount(fromId));
      }
      if from.balance < amount {
        return Err(InsufficientFunds(fromId));
      }

      var snapshot := State();
      var tx := NewTransaction(from.id, to.id, amount, now);
      if fault == SaveTransactionFails {
        Rollback(snapshot);
        return Err(TransientFailure);
      }
      tx := tx.(id := Some(|transactions| + 1));
      transactions := transactions + [tx];

      from := from.(balance := from.balance - amount);
      to := to.(balance := to.balance + amount);
      if fault == SaveSenderFails {
        Rollback(snapshot);
        return Err(TransientFailure);
      }
      balances := balances[from.id := from.balance];
      if fault == SaveRecipientFails {
        Rollback(snapshot);
        return Err(TransientFailure);
      }
      balances := balances[to.id := to.balance];

      var event := TransactionEvent(tx.id.value, from.id, to.id, amount);
      if fault == PublishFails {
        Rollback(snapshot);
        return Err(TransientFailure);
      }
      events := events + [event];

      PaymentLemmas.CommitAppendsOneEntry(snapshot, fromId, toId, amount, now);
      r := Ok(tx);
    }

    /** The retry policy: at most `MaxAttempts` attempts; a business failure
        is passed on at once, a transient one is retried, and running out of
        attempts yields the retry fallback. */
    method RetryProcessPayment(fromId: string, toId: string, amount: real,
                               clock: nat -> Instant, faults: seq<Fault>)
      returns (r: Result<Transaction, Failure>, attempts: nat)
      requires Valid()
      modifies this
      ensures Valid()
      ensures Run(r, State(), attempts) == RetrySpec(old(State()), fromId, toId, amount, clock, faults, 0)
    {
      attempts := 0;
      while attempts < MaxAttempts
        invariant attempts <= MaxAttempts
        invariant Valid() && State() == old(State())
        invariant RetrySpec(old(State()), fromId, toId, amount, clock, faults, 0)
               == RetrySpec(old(State()), fromId, toId, amount, clock, faults, attempts)
      {
        var outcome := Attempt(fromId, toId, amount, clock(attempts), FaultAt(faults, attempts));
        attempts := attempts + 1;
        if outcome.Ok? || outcome.error != TransientFailure {
          r := outcome;
          return;
        }
      }
      r := Ok(FallbackProcessPayment(fromId, toId));
    }

    /** `processPayment` as the caller sees it: the circuit breaker around
        the retry policy. */
    method ProcessPayment(breaker: BreakerState, fromId: string, toId: string, amount: real,
                          clock: nat -> Instant, faults: seq<Fault>)
      returns (r: Result<Transaction, Failure>, attempts: nat)
      requires Valid()
      modifies this
      ensures Valid()
      ensures Run(r, State(), attempts) == ProcessPaymentSpec(old(State()), breaker, fromId, toId, amount, clock, faults)
    {
      if breaker == Open {
        return Ok(FallbackProcessPaymentCircuitBreaker(fromId, toId)), 0;
      }
      r, attempts := RetryProcessPayment(fromId, toId, amount, clock, faults);
    }

    /** The transfer entry point: the request is validated, then handed to
        `ProcessPayment`. */
    method Transfer(req: TransferRequest, breaker: BreakerState, clock: nat -> Instant, faults: seq<Fault>)
      returns (r: Result<Transaction, Failure>, attempts: nat)
      requires Valid()
      modifies this
      ensures Valid()
      ensures Run(r, State(), attempts) == TransferSpec(old(State()), req, breaker, clock, faults)
    {
      if !IsValid(req) {
        return Err(InvalidRequest), 0;
      }
      r, attempts := ProcessPayment(breaker, req.fromAcct.value, req.toAcct.value, req.amount.value, clock, faults);
    }

    /** Looks a transaction up by id; changes nothing. */
    method GetTransactionById(id: int) returns (r: Option<Transaction>)
      ensures r.Some? ==> r.value in transactions && r.value.id == Some(id)
      ensures r.None? ==> forall t :: t in transactions ==> t.id != Some(id)
      ensures Valid() ==> r == if 1 <= id <= |transactions| then Some(transactions[id - 1]) else None
    {
      r := FindTransaction(transactions, id);
      if Valid() {
        PaymentLemmas.FindTransactionByPosition(State(), id);
      }
    }

    /** The stored balance of an account, or `AccountNotFound`; changes nothing. */
    method GetAccountBalance(accountId: string) returns (r: Result<real, Failure>)
      ensures accountId in balances ==> r == Ok(balances[accountId])
      ensures accountId !in balances ==> r == Err(AccountNotFound(accountId))
    {
      var found := FindAccount(accountId);
      if found.None? {
        return Err(AccountNotFound(accountId));
      }
      r := Ok(found.value.balance);
    }
  }

  /** A client of the class: the worked example end to end. */
  method TransferScenario(clock: nat -> Instant)
  {
    var service := new PaymentService(map["acc1" := 1000.0, "acc2" := 500.0]);
    PaymentLemmas.ScenarioTransfer(clock);
    var r, attempts := service.Transfer(TransferRequest(Some("acc1"), Some("acc2"), Some(200.0)), Closed, clock, []);
    assert r.Ok? && r.value.id == Some(1);
    var balance := service.GetAccountBalance("acc1");
    assert balance == Ok(800.0);
    balance := service.GetAccountBalance("acc2");
    assert balance == Ok(700.0);
    var found := service.GetTransactionById(1);
    assert found == Some(r.value);
  }
}

/** The transfer engine as values: one transactional attempt, the bounded
    retry policy around it, the circuit breaker around that, and the request
    guard in front of everything. The `Service` module's class is proved to
    behave exactly as these functions say. */
module PaymentSpec {
  import opened Model
  import opened Request

  /** `maxAttempts` of the retry policy, the first attempt included. */
  const MaxAttempts: nat := 5

  /** Why a call did not produce a transaction. */
  datatype Failure =
    | AccountNotFound(accountId: string)
    | IdenticalAccount(accountId: string)
    | InsufficientFunds(accountId: string)
    | InvalidRequest
    | TransientFailure

  /** The exceptions named in `noRetryFor` and `notRecoverable`, and the
      request rejection, which never reaches the retry policy at all. */
  predicate IsBusinessFailure(f: Failure)
  {
    !f.TransientFailure?
  }

  /** Where, if anywhere, an attempt meets an infrastructure failure. */
  datatype Fault = Clean | SaveTransactionFails | SaveSenderFails | SaveRecipientFails | PublishFails

  /** The fault oracle: attempt `i` meets `faults[i]`; attempts past its end are clean. */
  function FaultAt(faults: seq<Fault>, i: nat): Fault
  {
    if i < |faults| then faults[i] else Clean
  }

  datatype BreakerState = Closed | Open

  /** Everything the engine can change: balances by account id, the
      transaction log, and the events published so far. */
  datatype Ledger = Ledger(
    balances: map<string, real>,
    transactions: seq<Transaction>,
    events: seq<TransactionEvent>)

  /** What one call did: its result, the state it left and the number of
      attempts it made on the ledger. */
  datatype Run = Run(result: Result<Transaction, Failure>, ledger: Ledger, attempts: nat)

  datatype AttemptOutcome =
    | Committed(ledger: Ledger, tx: Transaction)
    | Failed(failure: Failure)

  /** Entry `i` of the log carries id `i + 1`, all four data fields, two
      distinct accounts, and event `i` announces exactly that entry. */
  predicate RecordedAt(l: Ledger, i: nat)
    requires i < |l.transactions| && i < |l.events|
  {
    var t := l.transactions[i];
    && t.id == Some(i + 1)
    && t.fromAccountId.Some? && t.toAccountId.Some? && t.amount.Some? && t.timestamp.Some?
    && t.fromAccountId != t.toAccountId
    && l.events[i] == TransactionEvent(i + 1, t.fromAccountId.value, t.toAccountId.value, t.amount.value)
  }

  /** One event per ledger entry, ids assigned in order. */
  predicate Consistent(l: Ledger)
  {
    && |l.events| == |l.transactions|
    && forall i :: 0 <= i < |l.transactions| ==> RecordedAt(l, i)
  }

  predicate NonNegative(balances: map<string, real>)
  {
    forall id :: id in balances ==> balances[id] >= 0.0
  }

  /** The checks an attempt makes before its first write, in source order:
      sender lookup, recipient lookup, identical accounts, balance. */
  function Check(balances: map<string, real>, fromId: string, toId: string, amount: real): (r: Option<Failure>)
    ensures r == None <==> fromId in balances && toId in balances && fromId != toId && amount <= balances[fromId]
    ensures r.Some? ==> IsBusinessFailure(r.value) && r.value != InvalidRequest
  {
    if fromId !in balances then Some(AccountNotFound(fromId))
    else if toId !in balances then Some(AccountNotFound(toId))
    else
      var from, to := Account(fromId, balances[fromId]), Account(toId, balances[toId]);
      if from.id == to.id then Some(IdenticalAccount(fromId))
      else if from.balance < amount then Some(InsufficientFunds(fromId))
      else None
  }

  /** The writes of a clean attempt: the saved entry with the next id, the
      debit, the credit (to the balance read before the debit) and the event. */
  function Commit(l: Ledger, fromId: string, toId: string, amount: real, now: Instant): (r: (Ledger, Transaction))
    requires fromId in l.balances && toId in l.balances
    ensures r.0.balances.Keys == l.balances.Keys
    ensures r.0.transactions == l.transactions + [r.1] && r.1.id == Some(|l.transactions| + 1)
    ensures |r.0.events| == |l.events| + 1 && r.0.events[..|l.events|] == l.events
  {
    var id := |l.transactions| + 1;
    var tx := NewTransaction(fromId, toId, amount, now).(id := Some(id));
    var debited := l.balances[fromId := l.balances[fromId] - amount];
    var credited := debited[toId := l.balances[toId] + amount];
    (Ledger(credited, l.transactions + [tx], l.events + [TransactionEvent(id, fromId, toId, amount)]), tx)
  }

  /** One attempt under `@Transactional(rollbackFor = Exception)`: a failure
      anywhere rolls every write back, so `Failed` carries no new state. */
  function AttemptSpec(l: Ledger, fromId: string, toId: string, amount: real, now: Instant, fault: Fault): (r: AttemptOutcome)
    ensures r.Committed? <==> Check(l.balances, fromId, toId, amount) == None && fault == Clean
    ensures r.Committed? ==>
      Check(l.balances, fromId, toId, amount) == None && (r.ledger, r.tx) == Commit(l, fromId, toId, amount, now)
    ensures r.Failed? ==> (r.failure == TransientFailure <==> Check(l.balances, fromId, toId, amount) == None)
    ensures r.Failed? && r.failure != TransientFailure ==> Check(l.balances, fromId, toId, amount) == Some(r.failure)
  {
    match Check(l.balances, fromId, toId, amount)
    case Some(f) => Failed(f)
    case None =>
      if fault != Clean then Failed(TransientFailure)
      else
        var (l', tx) := Commit(l, fromId, toId, amount, now);
        Committed(l', tx)
  }

  /** The retry policy's recovery method: a zero-amount record naming the two
      accounts, with no id and no timestamp. */
  function FallbackProcessPayment(fromId: string, toId: string): (t: Transaction)
    ensures t.fromAccountId == Some(fromId) && t.toAccountId == Some(toId)
    ensures t.amount == Some(0.0) && t.id == None && t.timestamp == None
  {
    EmptyTransaction().(fromAccountId := Some(fromId), toAccountId := Some(toId), amount := Some(0.0))
  }

  /** The circuit breaker's fallback: the same degraded record. */
  function FallbackProcessPaymentCircuitBreaker(fromId: string, toId: string): (t: Transaction)
    ensures t.fromAccountId == Some(fromId) && t.toAccountId == Some(toId)
    ensures t.amount == Some(0.0) && t.id == None && t.timestamp == None
  {
    EmptyTransaction().(fromAccountId := Some(fromId), toAccountId := Some(toId), amount := Some(0.0))
  }

  /** The retry policy from attempt `i` on. Attempt `i` reads the clock at
      `clock(i)` and meets fault `FaultAt(faults, i)`.
      A call ends in exactly one of three ways: a business failure on its
      first attempt with nothing changed; the fallback after all attempts
      failed transiently, with nothing changed; or one commit made by the
      last attempt. */
  function RetrySpec(l: Ledger, fromId: string, toId: string, amount: real,
                     clock: nat -> Instant, faults: seq<Fault>, i: nat): (r: Run)
    requires i <= MaxAttempts
    decreases MaxAttempts - i
    ensures i <= r.attempts <= MaxAttempts
    ensures i < MaxAttempts ==> i < r.attempts
    ensures r.result.Err? ==>
      && Check(l.balances, fromId, toId, amount) == Some(r.result.error)
      && r.ledger == l && r.attempts == i + 1
    ensures r.result.Ok? ==>
      || (r.result.value == FallbackProcessPayment(fromId, toId) && r.ledger == l && r.attempts == MaxAttempts)
      || (&& Check(l.balances, fromId, toId, amount) == None
          && (r.ledger, r.result.value) == Commit(l, fromId, toId, amount, clock(r.attempts - 1)))
  {
    if i == MaxAttempts then
      Run(Ok(FallbackProcessPayment(fromId, toId)), l, MaxAttempts)
    else
      match AttemptSpec(l, fromId, toId, amount, clock(i), FaultAt(faults, i))
      case Committed(l', tx) => Run(Ok(tx), l', i + 1)
      case Failed(f) =>
        if f == TransientFailure then RetrySpec(l, fromId, toId, amount, clock, faults, i + 1)
        else Run(Err(f), l, i + 1)
  }

  /** The circuit breaker wrapped around the retry policy. While open no
      attempt is made; while closed the retry policy's verdict passes through. */
  function ProcessPaymentSpec(l: Ledger, breaker: BreakerState, fromId: string, toId: string, amount: real,
                              clock: nat -> Instant, faults: seq<Fault>): (r: Run)
    ensures r.attempts <= MaxAttempts && (breaker == Closed <==> 1 <= r.attempts)
    ensures r.result.Err? ==> breaker == Closed && IsBusinessFailure(r.result.error) && r.ledger == l
    ensures r.ledger != l ==> breaker == Closed && r.result.Ok? && r.result.value.id.Some?
  {
    match breaker
    case Open => Run(Ok(FallbackProcessPaymentCircuitBreaker(fromId, toId)), l, 0)
    case Closed => RetrySpec(l, fromId, toId, amount, clock, faults, 0)
  }

  /** The public entry point: a request that fails validation is rejected
      before the service is called. */
  function TransferSpec(l: Ledger, req: TransferRequest, breaker: BreakerState,
                        clock: nat -> Instant, faults: seq<Fault>): (r: Run)
    ensures r.result == Err(InvalidRequest) <==> !IsValid(req)
    ensures !IsValid(req) ==> r.ledger == l && r.attempts == 0
    ensures r.result.Err? ==> IsBusinessFailure(r.result.error) && r.ledger == l
  {
    if !IsValid(req) then Run(Err(InvalidRequest), l, 0)
    else ProcessPaymentSpec(l, breaker, req.fromAcct.value, req.toAcct.value, req.amount.value, clock, faults)
  }

  /** The repository's lookup by id over the transaction log. */
  function FindTransaction(txs: seq<Transaction>, id: int): (r: Option<Transaction>)
    ensures r.Some? ==> r.value in txs && r.value.id == Some(id)
    ensures r.None? ==> forall t :: t in txs ==> t.id != Some(id)
  {
    if txs == [] then None
    else if txs[0].id == Some(id) then Some(txs[0])
    else FindTransaction(txs[1..], id)
  }

  /** A key of a non-empty map. */
  ghost function Pick(m: map<string, real>): string
    requires |m| > 0
    ensures Pick(m) in m
  {
    var k :| k in m; k
  }

  /** The sum of all balances. */
  ghost function Total(m: map<string, real>): real
    decreases |m|
  {
    if |m| == 0 then 0.0
    else
      var k := Pick(m);
      assert |m - {k}| == |m| - 1 by { assert (m - {k}).Keys == m.Keys - {k}; }
      m[k] + Total(m - {k})
  }
}

# InstaPay transfer engine — a verified Dafny model

InstaPay moves money between two accounts. The core is `PaymentService.processPayment`.
It looks up the sender and then the recipient. It rejects a transfer between identical
accounts and a transfer the sender cannot cover. Otherwise it saves a ledger entry, debits
the sender, credits the recipient and publishes a notification event. The method runs in
one database transaction that rolls back on any exception. It sits under a retry policy
of at most five attempts, which never retries the three business exceptions. Outside
that is a circuit breaker. Both the retry policy and the breaker degrade to a zero-amount
`Transaction` instead of throwing.

The model has four modules:

- `Model` (`model.dfy`): the `Account`, `Transaction` and `TransactionEvent` records and
  the two `Transaction` constructors. Nullable fields are `Option`. `BigDecimal` amounts
  are exact `real`s.
- `Request` (`transfer_request.dfy`): the transfer request and its validation constraints
  as one predicate, `IsValid`.
- `PaymentSpec` (`payment_spec.dfy`): the engine as pure functions over a `Ledger` value
  (balances, transaction log, events):
  - one transactional attempt (`AttemptSpec`);
  - the retry policy as an explicit loop bound (`RetrySpec`);
  - the breaker around it (`ProcessPaymentSpec`);
  - the validated entry point (`TransferSpec`);
  - the two fallbacks.
- `PaymentLemmas` (`payment_lemmas.dfy`): what these functions guarantee. That is
  conservation, non-negative balances, exactly one entry and one event per commit, the
  order in which errors are reported, all-or-nothing, recovery by retry, the retry
  fallback, the open and the closed breaker, and the worked examples.
- `Service` (`payment_service.dfy`): the class `PaymentService`. Its fields are the
  account table (a map), the transaction table (a sequence) and the published events (a
  sequence). `Attempt` makes the lookups and checks, which write nothing. Just before
  the first write it takes a snapshot of the state, and it restores that snapshot
  (`Rollback`) when a scheduled fault hits any write. `RetryProcessPayment` is the
  bounded `while` loop of attempts. `ProcessPayment` composes the breaker around it, and
  `Transfer` puts the request check in front. Each method's `ensures` equates its result
  and new state with the matching `PaymentSpec` function, so every lemma applies to the
  object.

Parameters stand in for the infrastructure:

- The breaker state is a `BreakerState` (`Open`/`Closed`) parameter.
- The clock is a function from attempt number to `Instant`.
- Transient infrastructure failures are a per-attempt fault schedule, `seq<Fault>`. Each
  entry names the write that fails: saving the entry, saving the sender, saving the
  recipient, or publishing. Attempts past the end of the schedule are clean.

Three behaviours of the code that the model keeps:

- The same-account check runs only after both account lookups have succeeded. So a
  self-transfer from an unknown account reports `AccountNotFound`.
- There is no positivity check in the service. The only one is the request constraint,
  so the model puts it at the entry point (`Transfer`). `ServiceAcceptsNegativeAmount`
  shows what the service alone does with a negative amount.
- There is no optimistic compare-and-swap loop in the code. It reads accounts under a
  pessimistic row lock and has no concurrency-token check, so no such loop is modelled.

## Model

| member | source | states |
|---|---|---|
| `Model.NewTransaction` | src/main/java/com/kibitsolutions/instapay/domain/model/Transaction.java:24-29 | the four-argument constructor stores exactly the given from, to, amount and timestamp, and leaves the id unset |
| `Model.EmptyTransaction` | src/main/java/com/kibitsolutions/instapay/domain/model/Transaction.java:31-33 | the no-argument constructor leaves all five fields unset |
| `Model.TransactionEquality` | src/main/java/com/kibitsolutions/instapay/domain/model/Transaction.java:12 | two transactions are equal exactly when all five fields are equal |
| `Request.IsValid` | src/main/java/com/kibitsolutions/instapay/controller/TransferRequest.java:11-17 | a request is valid if and only if sender, recipient and amount are all present and the amount is strictly positive |
| `Request.NullSenderIsInvalid` | src/main/java/com/kibitsolutions/instapay/controller/TransferRequest.java:11-12 | a request without a sender is invalid |
| `Request.NullRecipientIsInvalid` | src/main/java/com/kibitsolutions/instapay/controller/TransferRequest.java:13-14 | a request without a recipient is invalid |
| `Request.NullAmountIsInvalid` | src/main/java/com/kibitsolutions/instapay/controller/TransferRequest.java:15 | a request without an amount is invalid |
| `Request.ValidExactlyWhenPositive` | src/main/java/com/kibitsolutions/instapay/controller/TransferRequest.java:16-17 | with all fields present, a request is valid if and only if its amount is strictly positive |
| `Request.SameAccountPassesValidation` | src/main/java/com/kibitsolutions/instapay/controller/TransferRequest.java:9-18 | the constraints do not reject a transfer from an account to itself |
| `PaymentSpec.Check` | src/main/java/com/kibitsolutions/instapay/service/PaymentService.java:88-106 | an attempt may proceed if and only if both accounts exist, they differ and the sender's balance covers the amount; every rejection is a business failure |
| `PaymentSpec.Commit` | src/main/java/com/kibitsolutions/instapay/service/PaymentService.java:109-133 | the writes of a clean attempt keep the same accounts, append exactly the returned entry with id log length + 1, and append one event to the unchanged earlier events |
| `PaymentSpec.AttemptSpec` | src/main/java/com/kibitsolutions/instapay/service/PaymentService.java:83-139 | an attempt commits if and only if the checks pass and no fault is scheduled, and then it is exactly `Commit`; a failure is transient exactly when the checks passed, and otherwise it is the checks' business failure |
| `PaymentSpec.RetrySpec` | src/main/java/com/kibitsolutions/instapay/service/PaymentService.java:72-78 | at least one and at most 5 attempts; an error is the business failure of the checks, raised on the first attempt with the state unchanged; a returned record is either the retry fallback after all 5 attempts with the state unchanged, or the single commit made by the last attempt at that attempt's time |
| `PaymentSpec.ProcessPaymentSpec` | src/main/java/com/kibitsolutions/instapay/service/PaymentService.java:79-83 | at most 5 attempts, and at least one exactly when the breaker is closed; an error arises only with the breaker closed, is a business failure and leaves the state unchanged; a state change happens only with the breaker closed and returns an entry with an id |
| `PaymentSpec.TransferSpec` | src/main/java/com/kibitsolutions/instapay/controller/PaymentController.java:36-42 | the result is `InvalidRequest` if and only if the request is invalid, and then nothing changes and no attempt is made; every error is a business failure with the state unchanged |
| `PaymentSpec.FallbackProcessPayment` | src/main/java/com/kibitsolutions/instapay/service/PaymentService.java:191-201 | the retry fallback names the two accounts, has amount zero and no id or timestamp |
| `PaymentSpec.FallbackProcessPaymentCircuitBreaker` | src/main/java/com/kibitsolutions/instapay/service/PaymentService.java:169-178 | the breaker fallback names the two accounts, has amount zero and no id or timestamp |
| `PaymentSpec.FindTransaction` | src/main/java/com/kibitsolutions/instapay/service/PaymentService.java:147-155 | a found transaction is in the log and has the requested id; when none is found, no transaction in the log has that id |
| `PaymentLemmas.TotalRemove` | src/main/java/com/kibitsolutions/instapay/service/PaymentService.java:115-123 | the sum of balances equals one account's balance plus the sum over the others |
| `PaymentLemmas.TotalUpdate` | src/main/java/com/kibitsolutions/instapay/service/PaymentService.java:115-123 | writing one balance changes the sum by exactly the difference |
| `PaymentLemmas.CommitMovesAmount` | src/main/java/com/kibitsolutions/instapay/service/PaymentService.java:115-123 | a commit debits the sender by exactly the amount and credits the recipient by exactly the amount; no account is added or removed and every other balance is unchanged |
| `PaymentLemmas.CommitConservesTotal` | src/main/java/com/kibitsolutions/instapay/service/PaymentService.java:115-123 | a commit leaves the sum of all balances unchanged |
| `PaymentLemmas.CommitKeepsNonNegative` | src/main/java/com/kibitsolutions/instapay/service/PaymentService.java:102-118 | with a non-negative amount no balance becomes negative; a balance exactly equal to the amount is drained to zero |
| `PaymentLemmas.CommitAppendsOneEntry` | src/main/java/com/kibitsolutions/instapay/service/PaymentService.java:109-133 | a commit appends exactly one entry, which carries a fresh id and the request's from, to, amount and time; it appends exactly one event with that id, from, to and amount; the log stays consistent |
| `PaymentLemmas.BusinessFailureIsNotRetried` | src/main/java/com/kibitsolutions/instapay/service/PaymentService.java:73-77 | whatever faults are scheduled, a business failure ends the call after one attempt with that failure and the state unchanged |
| `PaymentLemmas.MissingSenderReportedFirst` | src/main/java/com/kibitsolutions/instapay/service/PaymentService.java:88-89 | a missing sender gives `AccountNotFound` for the sender, whatever else is wrong |
| `PaymentLemmas.MissingRecipientReportedSecond` | src/main/java/com/kibitsolutions/instapay/service/PaymentService.java:92-93 | if the sender exists, a missing recipient gives `AccountNotFound` for the recipient |
| `PaymentLemmas.IdenticalAccountCheckedAfterLookups` | src/main/java/com/kibitsolutions/instapay/service/PaymentService.java:88-100 | a self-transfer gives `IdenticalAccount` only if the account exists, and `AccountNotFound` otherwise |
| `PaymentLemmas.InsufficientFundsReportedLast` | src/main/java/com/kibitsolutions/instapay/service/PaymentService.java:102-106 | for two distinct existing accounts, a balance below the amount gives `InsufficientFunds`; a balance equal to the amount passes |
| `PaymentLemmas.RetryFrom` | src/main/java/com/kibitsolutions/instapay/service/PaymentService.java:73-75 | if attempts from i up to k fail transiently and attempt k is clean, the call commits at attempt k and reports k + 1 attempts |
| `PaymentLemmas.RetryRecovers` | src/main/java/com/kibitsolutions/instapay/service/PaymentService.java:73-75 | after k < 5 transient failures, the call makes k + 1 attempts and leaves exactly the state and result of one clean attempt at the same moment |
| `PaymentLemmas.ExhaustionFrom` | src/main/java/com/kibitsolutions/instapay/service/PaymentService.java:191-201 | if every attempt from i on fails transiently, the call returns the retry fallback with the state unchanged |
| `PaymentLemmas.RetryExhaustedFallsBack` | src/main/java/com/kibitsolutions/instapay/service/PaymentService.java:191-201 | five transient failures give the zero-amount retry fallback after 5 attempts, with the state unchanged |
| `PaymentLemmas.OpenBreakerShortCircuits` | src/main/java/com/kibitsolutions/instapay/service/PaymentService.java:79-82 | an open breaker returns its fallback after zero attempts on the ledger, with the state unchanged |
| `PaymentLemmas.ClosedBreakerPassesBusinessFailure` | src/main/java/com/kibitsolutions/instapay/service/PaymentService.java:69-82 | with a closed breaker a business failure reaches the caller as that failure, after one attempt, with the state unchanged |
| `PaymentLemmas.ProcessPaymentAllOrNothing` | src/main/java/com/kibitsolutions/instapay/service/PaymentService.java:72 | every call either leaves the whole state unchanged, returning an error or an id-less degraded record, or makes exactly one commit and returns its entry; at most 5 attempts, and at least one when the breaker is closed |
| `PaymentLemmas.ProcessPaymentConservesTotal` | src/main/java/com/kibitsolutions/instapay/service/PaymentService.java:83-139 | every call conserves the sum of all balances |
| `PaymentLemmas.ProcessPaymentKeepsConsistent` | src/main/java/com/kibitsolutions/instapay/service/PaymentService.java:109-133 | every call keeps one event per log entry and ids in insertion order |
| `PaymentLemmas.ServiceAcceptsNegativeAmount` | src/main/java/com/kibitsolutions/instapay/service/PaymentService.java:102-118 | without the request check, a negative amount commits and drives the recipient below zero |
| `PaymentLemmas.ValidTransferCreditsRecipient` | src/main/java/com/kibitsolutions/instapay/controller/TransferRequest.java:16 | a valid request that changes the state strictly increases the recipient's balance |
| `PaymentLemmas.TransferKeepsNonNegative` | src/main/java/com/kibitsolutions/instapay/controller/TransferRequest.java:16-17 | through the validated entry point, non-negative balances stay non-negative |
| `PaymentLemmas.InvalidRequestRejected` | src/main/java/com/kibitsolutions/instapay/controller/PaymentController.java:36 | an invalid request is rejected with nothing changed and no attempt made |
| `PaymentLemmas.FindTransactionByPosition` | src/main/java/com/kibitsolutions/instapay/service/PaymentService.java:147-155 | with the model's gapless ids (a property of the model; the code promises only unique ids assigned on save), id n finds the n-th entry, and only ids 1 to the log length are found |
| `PaymentLemmas.ScenarioTransfer` | src/test/java/com/kibitsolutions/instapay/unit/PaymentServiceUnitTest.java:38-71 | balances 1000 and 500 with a transfer of 200 give entry 1 with amount 200, balances 800 and 700, and one matching event |
| `PaymentLemmas.ScenarioRetrySuccess` | src/test/java/com/kibitsolutions/instapay/resilience/PaymentServiceResilienceTest.java:107-147 | two failed saves and then success give 3 attempts and balances 800 and 700 |
| `Service.PaymentService.constructor` | src/main/java/com/kibitsolutions/instapay/service/PaymentService.java:35-42 | a fresh service holds the given accounts, an empty log and no events, and is consistent |
| `Service.PaymentService.FindAccount` | src/main/java/com/kibitsolutions/instapay/domain/repository/AccountRepository.java:16-18 | an account is found if and only if its id is in the table, with that id and its stored balance |
| `Service.PaymentService.Rollback` | src/main/java/com/kibitsolutions/instapay/service/PaymentService.java:72 | after a rollback the state is exactly the snapshot taken before the first write |
| `Service.PaymentService.Attempt` | src/main/java/com/kibitsolutions/instapay/service/PaymentService.java:83-139 | one attempt returns and leaves exactly what `AttemptSpec` gives: the commit on success, and the old state after a business failure or after a fault at any write |
| `Service.PaymentService.RetryProcessPayment` | src/main/java/com/kibitsolutions/instapay/service/PaymentService.java:72-78 | the attempt loop's result, final state and attempt count are exactly those of `RetrySpec` |
| `Service.PaymentService.ProcessPayment` | src/main/java/com/kibitsolutions/instapay/service/PaymentService.java:79-83 | the breaker around the retry loop; result, state and attempts are those of `ProcessPaymentSpec` |
| `Service.PaymentService.Transfer` | src/main/java/com/kibitsolutions/instapay/controller/PaymentController.java:36-42 | the validated entry point; result, state and attempts are those of `TransferSpec` |
| `Service.PaymentService.GetTransactionById` | src/main/java/com/kibitsolutions/instapay/service/PaymentService.java:147-155 | the result is a logged transaction with the requested id, or none has it; with the model's gapless ids, id n is the n-th entry; nothing changes |
| `Service.PaymentService.GetAccountBalance` | src/main/java/com/kibitsolutions/instapay/service/PaymentService.java:210-216 | the stored balance if the account exists, otherwise `AccountNotFound` for that id; nothing changes |

## Left out

- Concurrency is not modelled; transfers run one after another. That covers the
  pessimistic row lock on the account lookup and the `@Version` column on `Account`,
  which is the Spring Data annotation rather than the JPA one.
- Persistence is a map and two sequences. A transaction's id is its log position plus
  one, so ids have no gaps. The code promises only that the id is unique and is assigned
  on save. A database sequence can use up a value on a rolled-back save; the model never
  does.
- Publishing is an append to `events`. Sending happens before the database commit, so a
  commit-time failure would leave an event for a rolled-back transfer. Commit-time
  failures are not modelled; faults are injected at the four writes only.
- The 5000 ms back-off of the retry policy is not modelled, because it is time; only
  attempts are counted. The retry listener only logs.
- Breaker thresholds, sliding window, cool-down and half-open trials are configured
  outside the code. The breaker is an `Open`/`Closed` parameter and its transitions are
  not modelled. Whether the breaker or the retry aspect runs outermost is decided by the
  framework; the model fixes the breaker outside.
- FallbackProcessPaymentCircuitBreaker: is reached only on the open path. This follows
  the `@throws` clauses of `processPayment` (PaymentService.java:69-70) and the exception
  handlers that map these exceptions to 400 and 404 responses. The breaker fallback's own
  doc comment (PaymentService.java:158-161) says the opposite: it runs whenever
  `processPayment` fails, and it accepts any `Throwable`. The only failures that leave the
  retry layer are the three business exceptions, so by that comment the deployed program
  may return the zero-amount record for them instead of the exception.
  `ClosedBreakerPassesBusinessFailure` states the choice the model makes.
- FallbackProcessPayment: the unused amount and exception parameters are dropped, since
  the result does not depend on them.
- `Instant.now()` is the `clock` parameter.
- `BigDecimal` values are exact reals. The scale of a `BigDecimal`, which its `equals`
  compares (2.0 differs from 2.00), is not modelled.
- The HTTP layer, exception handlers, bootstrap data, API documentation and logging are
  not modelled. Only the request validation is kept, as the guard of `Transfer`.

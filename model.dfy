/** Records of the domain model: accounts, ledger entries and the
    notification emitted for each committed transfer. Nullable Java
    fields become `Option`; BigDecimal amounts are exact `real`s. */
module Model {

  datatype Option<T> = None | Some(value: T)

  datatype Result<T, E> = Ok(value: T) | Err(error: E)

  /** A point in time; the clock is outside the model, so an instant is opaque. */
  type Instant = int

  /** An account row. The optimistic-locking version column is not modelled. */
  datatype Account = Account(id: string, balance: real)

  /** A ledger entry. The id stays unset until the entry is saved. */
  datatype Transaction = Transaction(
    id: Option<nat>,
    fromAccountId: Option<string>,
    toAccountId: Option<string>,
    amount: Option<real>,
    timestamp: Option<Instant>)

  /** The four-argument constructor: it stores exactly what it is given and
      leaves the id to the repository. */
  function NewTransaction(fromId: string, toId: string, amount: real, timestamp: Instant): (t: Transaction)
    ensures t.id == None
    ensures t.fromAccountId == Some(fromId) && t.toAccountId == Some(toId)
    ensures t.amount == Some(amount) && t.timestamp == Some(timestamp)
  {
    Transaction(None, Some(fromId), Some(toId), Some(amount), Some(timestamp))
  }

  /** The no-argument constructor used by JPA and by the fallbacks: every field unset. */
  function EmptyTransaction(): (t: Transaction)
    ensures t.id == None && t.fromAccountId == None && t.toAccountId == None
    ensures t.amount == None && t.timestamp == None
  {
    Transaction(None, None, None, None, None)
  }

  /** Lombok's generated equals compares all five fields, as datatype equality does. */
  lemma TransactionEquality(a: Transaction, b: Transaction)
    ensures a == b <==>
      a.id == b.id && a.fromAccountId == b.fromAccountId && a.toAccountId == b.toAccountId
      && a.amount == b.amount && a.timestamp == b.timestamp
  {
  }

  /** The message published for each committed transfer. */
  datatype TransactionEvent = TransactionEvent(
    transactionId: nat,
    fromAccountId: string,
    toAccountId: string,
    amount: real)
}

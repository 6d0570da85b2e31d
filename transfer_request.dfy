/** The body of a transfer request and its bean-validation constraints. */
module Request {
  import opened Model

  datatype TransferRequest = TransferRequest(
    fromAcct: Option<string>,
    toAcct: Option<string>,
    amount: Option<real>)

  /** All three fields present and the amount strictly positive. */
  predicate IsValid(req: TransferRequest): (ok: bool)
    ensures ok <==> req.fromAcct.Some? && req.toAcct.Some? && req.amount.Some? && req.amount.value > 0.0
  {
    match req
    case TransferRequest(Some(_), Some(_), Some(amount)) => amount > 0.0
    case _ => false
  }

  lemma NullSenderIsInvalid(req: TransferRequest)
    requires req.fromAcct == None
    ensures !IsValid(req)
  {
  }

  lemma NullRecipientIsInvalid(req: TransferRequest)
    requires req.toAcct == None
    ensures !IsValid(req)
  {
  }

  lemma NullAmountIsInvalid(req: TransferRequest)
    requires req.amount == None
    ensures !IsValid(req)
  {
  }

  /** Only a strictly positive amount passes: zero and negatives are rejected. */
  lemma ValidExactlyWhenPositive(fromAcct: string, toAcct: string, amount: real)
    ensures IsValid(TransferRequest(Some(fromAcct), Some(toAcct), Some(amount))) <==> amount > 0.0
  {
  }

  /** The request constraints say nothing about the two ids being equal;
      that case is left to the service. */
  lemma SameAccountPassesValidation(id: string, amount: real)
    requires amount > 0.0
    ensures IsValid(TransferRequest(Some(id), Some(id), Some(amount)))
  {
  }
}

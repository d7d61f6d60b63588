/** The value objects of the bank-account kata: accounts, ledger operations,
    balances, and the closed error taxonomy that replaces the service's
    exceptions. */
module Model {

  /** Account identifiers are opaque strings supplied by the caller. */
  type AccountId = string

  /** A point in time (with its zone offset folded in). The service only ever
      copies timestamps around, so nothing here inspects one. */
  datatype Instant = Instant(ticks: int)

  datatype Account = Account(id: AccountId)

  datatype OperationType = Credit | Debit

  /** One ledger entry. The source's `id` field is never assigned by the
      service and is left out; `date` is carried but does not take part in the
      source's notion of equality (see `SameEntry`). */
  datatype Operation = Operation(
    operationType: OperationType,
    amount: real,
    date: Instant,
    balance: real,
    account: Account)

  /** The derived view returned by balance queries and by every successful
      deposit or withdrawal. */
  datatype Balance = Balance(date: Instant, amount: real)

  datatype Error =
    | AccountAlreadyExists
    | AccountNotFound
    | NullOrZeroAmount
    | NegativeAmount
    | InsufficientBalance

  /** A possibly absent value: the nullable `Double` amount and the optional
      lookups of the two stores. */
  datatype Option<+T> = None | Some(value: T)

  /** The outcome of a service call: a value, or the error it was rejected with. */
  datatype Result<+T> = Ok(value: T) | Err(error: Error)

  /** Equality of two operations as the source defines it: every field except
      the timestamp. */
  predicate SameEntry(a: Operation, b: Operation)
  {
    a.(date := b.date) == b
  }

  lemma SameEntryIgnoresOnlyDate(a: Operation, b: Operation)
    ensures SameEntry(a, b) <==>
      && a.operationType == b.operationType
      && a.amount == b.amount
      && a.balance == b.balance
      && a.account == b.account
  {
  }
}

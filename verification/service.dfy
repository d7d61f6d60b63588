/** The account service: creates accounts, runs deposits, withdrawals and
    withdraw-all through one validate-then-compute-then-append routine, and
    reports balances and history. Each call is a pure step from a bank to the
    next bank together with the call's result; the wall clock is the `now`
    parameter. */
module AccountService {
  import opened Model
  import Ledger
  import opened Store

  /** A call's effect: the bank after the call and what the call returned. */
  datatype Step<+T> = Step(bank: Bank, result: Result<T>)

  /** Creating an account fails when the id is taken; otherwise it records
      exactly that id, hands back the new account and leaves every ledger as
      it was. */
  function CreateAccount(b: Bank, id: AccountId): (s: Step<Account>)
    ensures id in b.accounts ==> s == Step(b, Err(AccountAlreadyExists))
    ensures id !in b.accounts ==>
      && s.result == Ok(Account(id))
      && s.bank.accounts == b.accounts + {id}
      && s.bank.ledgers == b.ledgers
  {
    if ExistsAccountById(b, id) then
      Step(b, Err(AccountAlreadyExists))
    else
      Step(SaveAccount(b, Account(id)), Ok(Account(id)))
  }

  /** A deposit: a credit through the shared routine. */
  function Deposit(b: Bank, id: AccountId, amount: Option<real>, now: Instant): (s: Step<Balance>)
    ensures s.result.Ok? <==> amount.Some? && amount.value > 0.0 && id in b.accounts
    ensures s.result.Err? ==> s.bank == b
    ensures s.result.Ok? ==>
      && s.result.value == Balance(now, GetBalanceAmount(b, id).value + amount.value)
      && Operations(s.bank, id) ==
           Operations(b, id) + [Operation(Credit, amount.value, now, s.result.value.amount, Account(id))]
      && s.bank.accounts == b.accounts
      && (forall other :: other != id ==> Operations(s.bank, other) == Operations(b, other))
  {
    ExecuteOperation(b, id, amount, Credit, now)
  }

  /** A withdrawal: a debit through the shared routine. */
  function Withdraw(b: Bank, id: AccountId, amount: Option<real>, now: Instant): (s: Step<Balance>)
    ensures s.result.Ok? <==>
      && amount.Some? && amount.value > 0.0 && id in b.accounts
      && amount.value <= GetBalanceAmount(b, id).value
    ensures s.result.Err? ==> s.bank == b
    ensures s.result.Ok? ==>
      && s.result.value == Balance(now, GetBalanceAmount(b, id).value - amount.value)
      && Operations(s.bank, id) ==
           Operations(b, id) + [Operation(Debit, amount.value, now, s.result.value.amount, Account(id))]
      && s.bank.accounts == b.accounts
      && (forall other :: other != id ==> Operations(s.bank, other) == Operations(b, other))
  {
    ExecuteOperation(b, id, amount, Debit, now)
  }

  /** Withdraws the whole current balance. The balance is read (and the
      account checked) before the amount is validated, so an unknown account
      reports AccountNotFound and an account at zero reports NullOrZeroAmount. */
  function WithdrawAll(b: Bank, id: AccountId, now: Instant): (s: Step<Balance>)
    ensures id !in b.accounts ==> s == Step(b, Err(AccountNotFound))
    ensures id in b.accounts && Ledger.CurrentBalance(Operations(b, id)) == 0.0 ==>
      s == Step(b, Err(NullOrZeroAmount))
    ensures id in b.accounts && Ledger.CurrentBalance(Operations(b, id)) < 0.0 ==>
      s == Step(b, Err(NegativeAmount))
    ensures id in b.accounts && Ledger.CurrentBalance(Operations(b, id)) > 0.0 ==>
      var before := Operations(b, id);
      && s.result == Ok(Balance(now, 0.0))
      && Operations(s.bank, id) ==
           before + [Operation(Debit, Ledger.CurrentBalance(before), now, 0.0, Account(id))]
      && s.bank.accounts == b.accounts
      && (forall other :: other != id ==> Operations(s.bank, other) == Operations(b, other))
  {
    match GetBalanceAmount(b, id)
    case Err(e) => Step(b, Err(e))
    case Ok(amount) => ExecuteOperation(b, id, Some(amount), Debit, now)
  }

  /** The account's history, in insertion order. */
  function ListOperations(b: Bank, id: AccountId): (r: Result<seq<Operation>>)
    ensures r.Err? <==> id !in b.accounts
    ensures r.Err? ==> r.error == AccountNotFound
    ensures r.Ok? ==> r.value == Operations(b, id)
  {
    if !ExistsAccountById(b, id) then Err(AccountNotFound) else Ok(Operations(b, id))
  }

  /** The balance view: the amount and date of the most recent operation, or
      zero at the current time when there is none. */
  function GetBalance(b: Bank, id: AccountId, now: Instant): (r: Result<Balance>)
    ensures r.Err? <==> id !in b.accounts
    ensures r.Err? ==> r.error == AccountNotFound
    ensures r.Ok? ==> r.value.amount == Ledger.CurrentBalance(Operations(b, id))
    ensures r.Ok? && Operations(b, id) == [] ==> r.value == Balance(now, 0.0)
    ensures r.Ok? && Operations(b, id) != [] ==>
      r.value.date == Operations(b, id)[|Operations(b, id)| - 1].date
  {
    if !ExistsAccountById(b, id) then
      Err(AccountNotFound)
    else
      match GetLastOperation(b, id)
      case Some(op) => Ok(Balance(op.date, op.balance))
      case None => Ok(Balance(now, 0.0))
  }

  /** The shared routine behind deposit, withdraw and withdraw-all. The
      checks run in a fixed order — absent or zero amount, negative amount,
      unknown account, insufficient balance — and only a call that passes
      all of them appends, so a failing call leaves the bank as it was. A
      successful call appends exactly one operation to that account's
      ledger, touches no other ledger, and returns the balance it recorded. */
  function ExecuteOperation(b: Bank, id: AccountId, amount: Option<real>, kind: OperationType, now: Instant)
    : (s: Step<Balance>)
    ensures amount.None? || amount.value == 0.0 ==> s.result == Err(NullOrZeroAmount)
    ensures amount.Some? && amount.value < 0.0 ==> s.result == Err(NegativeAmount)
    ensures amount.Some? && amount.value > 0.0 && id !in b.accounts ==> s.result == Err(AccountNotFound)
    ensures amount.Some? && amount.value > 0.0 && id in b.accounts && kind == Debit
            && amount.value > Ledger.CurrentBalance(Operations(b, id)) ==>
            s.result == Err(InsufficientBalance)
    ensures amount.Some? && amount.value > 0.0 && id in b.accounts
            && (kind == Debit ==> amount.value <= Ledger.CurrentBalance(Operations(b, id))) ==>
            s.result.Ok?
    ensures s.result.Err? ==> s.bank == b
    ensures s.result.Ok? ==>
      var before := Operations(b, id);
      && amount.Some? && amount.value > 0.0 && id in b.accounts
      && (kind == Debit ==> amount.value <= Ledger.CurrentBalance(before))
      && s.result.value == Balance(now, Ledger.Apply(Ledger.CurrentBalance(before), kind, amount.value))
      && Operations(s.bank, id) ==
           before + [Operation(kind, amount.value, now, s.result.value.amount, Account(id))]
      && s.bank.accounts == b.accounts
      && (forall other :: other != id ==> Operations(s.bank, other) == Operations(b, other))
  {
    if amount.None? || amount.value == 0.0 then
      Step(b, Err(NullOrZeroAmount))
    else if amount.value < 0.0 then
      Step(b, Err(NegativeAmount))
    else
      match GetAccount(b, id)
      case Err(e) => Step(b, Err(e))
      case Ok(account) =>
        match CalculateNewBalance(b, id, amount.value, kind)
        case Err(e) => Step(b, Err(e))
        case Ok(newBalance) =>
          var op := Operation(kind, amount.value, now, newBalance, account);
          Step(SaveOperation(b, op), Ok(Balance(now, newBalance)))
  }

  /** Looks the account up through the fetch-by-id of the account store. */
  function GetAccount(b: Bank, id: AccountId): (r: Result<Account>)
    ensures r.Ok? <==> id in b.accounts
    ensures r.Ok? ==> r.value == Account(id)
    ensures r.Err? ==> r.error == AccountNotFound
  {
    match GetAccountById(b, id)
    case Some(account) => Ok(account)
    case None => Err(AccountNotFound)
  }

  /** The balance an operation would lead to: the current balance plus the
      amount for a credit, minus it for a debit, and InsufficientBalance for
      a debit larger than the current balance. */
  function CalculateNewBalance(b: Bank, id: AccountId, amount: real, kind: OperationType): (r: Result<real>)
    ensures id !in b.accounts ==> r == Err(AccountNotFound)
    ensures id in b.accounts && kind == Credit ==>
      r == Ok(Ledger.CurrentBalance(Operations(b, id)) + amount)
    ensures id in b.accounts && kind == Debit && amount > Ledger.CurrentBalance(Operations(b, id)) ==>
      r == Err(InsufficientBalance)
    ensures id in b.accounts && kind == Debit && amount <= Ledger.CurrentBalance(Operations(b, id)) ==>
      r == Ok(Ledger.CurrentBalance(Operations(b, id)) - amount)
  {
    match GetBalanceAmount(b, id)
    case Err(e) => Err(e)
    case Ok(lastBalance) =>
      if kind == Credit then
        Ok(lastBalance + amount)
      else if amount > lastBalance then
        Err(InsufficientBalance)
      else
        Ok(lastBalance - amount)
  }

  /** The current balance amount of a known account: the most recent
      operation's balance, or zero when it has none. */
  function GetBalanceAmount(b: Bank, id: AccountId): (r: Result<real>)
    ensures r.Err? <==> id !in b.accounts
    ensures r.Err? ==> r.error == AccountNotFound
    ensures r.Ok? && Operations(b, id) == [] ==> r.value == 0.0
    ensures r.Ok? && Operations(b, id) != [] ==> r.value == Operations(b, id)[|Operations(b, id)| - 1].balance
  {
    if !ExistsAccountById(b, id) then
      Err(AccountNotFound)
    else
      match GetLastOperation(b, id)
      case Some(op) => Ok(op.balance)
      case None => Ok(0.0)
  }

  /** The operation store's fetch-last: the most recently appended operation
      of the account, absent when none was appended. */
  function GetLastOperation(b: Bank, id: AccountId): Option<Operation>
  {
    var ops := Operations(b, id);
    if |ops| == 0 then None else Some(ops[|ops| - 1])
  }

  /** The fetch-last returns what the operation store saved most recently:
      right after a save it is that operation, and a save for one account
      does not change what another account's fetch-last returns. */
  lemma LastOperationIsLastSaved(b: Bank, op: Operation, id: AccountId)
    ensures GetLastOperation(SaveOperation(b, op), op.account.id) == Some(op)
    ensures id != op.account.id ==>
      GetLastOperation(SaveOperation(b, op), id) == GetLastOperation(b, id)
  {
  }
}

/** Properties of the account service that relate several calls: the state
    invariant every call preserves, what holds of every bank reachable from
    the empty one, the deposit/withdraw round trip, the cases the service's
    tests check, and a worked example. */
module Properties {
  import opened Model
  import Ledger
  import opened Store
  import opened AccountService

  /** Creating an account keeps the state invariant. */
  lemma CreatePreservesValid(b: Bank, id: AccountId)
    requires Valid(b)
    ensures Valid(CreateAccount(b, id).bank)
  {
    var b' := CreateAccount(b, id).bank;
    forall other
      ensures LedgerSound(b', other)
    {
      assert Operations(b', other) == Operations(b, other);
      assert LedgerSound(b, other);
    }
  }

  /** A deposit, a withdrawal or a withdraw-all step keeps the state
      invariant: the appended operation extends a valid ledger validly. */
  lemma ExecutePreservesValid(b: Bank, id: AccountId, amount: Option<real>, kind: OperationType, now: Instant)
    requires Valid(b)
    ensures Valid(ExecuteOperation(b, id, amount, kind, now).bank)
  {
    var s := ExecuteOperation(b, id, amount, kind, now);
    if s.result.Ok? {
      var before := Operations(b, id);
      var op := Operation(kind, amount.value, now, s.result.value.amount, Account(id));
      ValidLedgerOf(b, id);
      Ledger.AppendValid(before, op);
      forall other
        ensures LedgerSound(s.bank, other)
      {
        if other != id {
          ValidLedgerOf(b, other);
        }
      }
    }
  }

  lemma WithdrawAllPreservesValid(b: Bank, id: AccountId, now: Instant)
    requires Valid(b)
    ensures Valid(WithdrawAll(b, id, now).bank)
  {
    if id in b.accounts {
      ExecutePreservesValid(b, id, Some(GetBalanceAmount(b, id).value), Debit, now);
    }
  }

  /** The calls that change the bank, as a caller issues them one after the
      other. Balance and history queries return a value and no new bank. */
  datatype Call =
    | CreateAccountCall(id: AccountId)
    | DepositCall(id: AccountId, amount: Option<real>, at: Instant)
    | WithdrawCall(id: AccountId, amount: Option<real>, at: Instant)
    | WithdrawAllCall(id: AccountId, at: Instant)

  function Perform(b: Bank, c: Call): Bank
  {
    match c
    case CreateAccountCall(id) => CreateAccount(b, id).bank
    case DepositCall(id, amount, at) => Deposit(b, id, amount, at).bank
    case WithdrawCall(id, amount, at) => Withdraw(b, id, amount, at).bank
    case WithdrawAllCall(id, at) => WithdrawAll(b, id, at).bank
  }

  /** The bank after the calls, issued in order. */
  function Run(b: Bank, calls: seq<Call>): Bank
    decreases |calls|
  {
    if |calls| == 0 then b else Run(Perform(b, calls[0]), calls[1..])
  }

  lemma PerformPreservesValid(b: Bank, c: Call)
    requires Valid(b)
    ensures Valid(Perform(b, c))
  {
    match c
    case CreateAccountCall(id) => CreatePreservesValid(b, id);
    case DepositCall(id, amount, at) => ExecutePreservesValid(b, id, amount, Credit, at);
    case WithdrawCall(id, amount, at) => ExecutePreservesValid(b, id, amount, Debit, at);
    case WithdrawAllCall(id, at) => WithdrawAllPreservesValid(b, id, at);
  }

  /** Any sequence of calls keeps the state invariant. */
  lemma {:induction false} RunPreservesValid(b: Bank, calls: seq<Call>)
    requires Valid(b)
    ensures Valid(Run(b, calls))
    decreases |calls|
  {
    if |calls| > 0 {
      PerformPreservesValid(b, calls[0]);
      RunPreservesValid(Perform(b, calls[0]), calls[1..]);
    }
  }

  /** The ledger invariant of every bank reachable from the empty one: each
      recorded balance is the previous one plus a credit or minus a debit,
      none is negative, and the reported balance equals the net flow of the
      account's history. */
  lemma ReachableLedgers(calls: seq<Call>, id: AccountId, now: Instant)
    ensures Ledger.Valid(Operations(Run(Empty, calls), id))
    ensures forall i :: 0 <= i < |Operations(Run(Empty, calls), id)| ==>
              Operations(Run(Empty, calls), id)[i].balance >= 0.0
    ensures GetBalance(Run(Empty, calls), id, now).Ok? ==>
              GetBalance(Run(Empty, calls), id, now).value.amount ==
              Ledger.NetFlow(Operations(Run(Empty, calls), id))
  {
    var b := Run(Empty, calls);
    RunPreservesValid(Empty, calls);
    ValidLedgerOf(b, id);
    Ledger.NoNegativeBalance(Operations(b, id));
    Ledger.BalanceIsNetFlow(Operations(b, id));
  }

  /** On a valid bank the balance query and the history agree: the balance is
      the net flow of the listed operations, and it is never negative. */
  lemma BalanceMatchesHistory(b: Bank, id: AccountId, now: Instant)
    requires Valid(b)
    requires id in b.accounts
    ensures GetBalance(b, id, now).Ok? && ListOperations(b, id).Ok?
    ensures GetBalance(b, id, now).value.amount == Ledger.NetFlow(ListOperations(b, id).value)
    ensures GetBalance(b, id, now).value.amount >= 0.0
  {
    ValidLedgerOf(b, id);
    Ledger.BalanceIsNetFlow(Operations(b, id));
    Ledger.NoNegativeBalance(Operations(b, id));
  }

  /** A successful deposit, withdrawal or withdraw-all returns exactly the
      balance a following balance query reports, and the history grows by
      the one operation that recorded it. */
  lemma SuccessIsRecorded(b: Bank, id: AccountId, amount: Option<real>, kind: OperationType, now: Instant, later: Instant)
    requires ExecuteOperation(b, id, amount, kind, now).result.Ok?
    ensures var s := ExecuteOperation(b, id, amount, kind, now);
      && GetBalance(s.bank, id, later) == s.result
      && ListOperations(s.bank, id).Ok?
      && |ListOperations(s.bank, id).value| == |ListOperations(b, id).value| + 1
  {
  }

  /** Withdrawing what was just deposited brings the balance back to where it
      was, and leaves two more operations in the history. */
  lemma DepositWithdrawRoundTrip(b: Bank, id: AccountId, amount: real, t1: Instant, t2: Instant)
    requires Valid(b)
    requires id in b.accounts
    requires amount > 0.0
    ensures var s1 := Deposit(b, id, Some(amount), t1);
      var s2 := Withdraw(s1.bank, id, Some(amount), t2);
      && s1.result.Ok? && s2.result.Ok?
      && s2.result.value.amount == GetBalanceAmount(b, id).value
      && Ledger.NetFlow(Operations(s2.bank, id)) == Ledger.NetFlow(Operations(b, id))
      && |Operations(s2.bank, id)| == |Operations(b, id)| + 2
  {
    var s1 := Deposit(b, id, Some(amount), t1);
    var ops := Operations(b, id);
    ValidLedgerOf(b, id);
    Ledger.NoNegativeBalance(ops);
    var op1 := Operation(Credit, amount, t1, Ledger.CurrentBalance(ops) + amount, Account(id));
    Ledger.AppendValid(ops, op1);
    var op2 := Operation(Debit, amount, t2, Ledger.CurrentBalance(ops), Account(id));
    Ledger.AppendValid(ops + [op1], op2);
  }

  /** On a valid bank withdraw-all succeeds exactly when the balance is
      positive, and then leaves the account at zero; at zero it reports
      NullOrZeroAmount. The NegativeAmount outcome cannot occur. */
  lemma WithdrawAllEmpties(b: Bank, id: AccountId, now: Instant, later: Instant)
    requires Valid(b)
    requires id in b.accounts
    ensures WithdrawAll(b, id, now).result.Ok? <==> GetBalanceAmount(b, id).value > 0.0
    ensures WithdrawAll(b, id, now).result.Ok? ==>
      GetBalance(WithdrawAll(b, id, now).bank, id, later).value.amount == 0.0
    ensures WithdrawAll(b, id, now).result.Err? ==>
      WithdrawAll(b, id, now).result.error == NullOrZeroAmount
  {
    ValidLedgerOf(b, id);
    Ledger.NoNegativeBalance(Operations(b, id));
  }

  /** Every call naming an account that does not exist fails with
      AccountNotFound, provided any amount it carries is positive (the
      amount checks come first), and changes nothing. */
  lemma UnknownAccountRejected(b: Bank, id: AccountId, amount: real, now: Instant)
    requires id !in b.accounts
    requires amount > 0.0
    ensures Deposit(b, id, Some(amount), now) == Step(b, Err(AccountNotFound))
    ensures Withdraw(b, id, Some(amount), now) == Step(b, Err(AccountNotFound))
    ensures WithdrawAll(b, id, now) == Step(b, Err(AccountNotFound))
    ensures ListOperations(b, id) == Err(AccountNotFound)
    ensures GetBalance(b, id, now) == Err(AccountNotFound)
  {
  }

  /** The amount checks come before the account lookup: a zero, absent or
      negative amount is rejected for any id, known or not. */
  lemma AmountCheckedFirst(b: Bank, id: AccountId, kind: OperationType, now: Instant, amount: real)
    requires amount <= 0.0
    ensures ExecuteOperation(b, id, None, kind, now) == Step(b, Err(NullOrZeroAmount))
    ensures ExecuteOperation(b, id, Some(amount), kind, now) ==
      Step(b, Err(if amount == 0.0 then NullOrZeroAmount else NegativeAmount))
  {
  }

  /** Creating the same id twice fails the second time and keeps the bank
      the first call produced. */
  lemma CreateTwiceFails(b: Bank, id: AccountId)
    ensures var s1 := CreateAccount(b, id);
      CreateAccount(s1.bank, id) == Step(s1.bank, Err(AccountAlreadyExists))
  {
  }

  /** A worked example on a fresh account: it starts at zero; depositing
      100 and then withdrawing 30 records a credit of 100 at balance 100 and
      a debit of 30 at balance 70. */
  lemma DepositThenWithdrawScenario(id: AccountId, t0: Instant, t1: Instant, t2: Instant)
    ensures var b1 := CreateAccount(Empty, id).bank;
      var s2 := Deposit(b1, id, Some(100.0), t1);
      var s3 := Withdraw(s2.bank, id, Some(30.0), t2);
      && GetBalance(b1, id, t0) == Ok(Balance(t0, 0.0))
      && s2.result == Ok(Balance(t1, 100.0))
      && s3.result == Ok(Balance(t2, 70.0))
      && ListOperations(s3.bank, id) == Ok([
           Operation(Credit, 100.0, t1, 100.0, Account(id)),
           Operation(Debit, 30.0, t2, 70.0, Account(id))])
  {
    var b1 := CreateAccount(Empty, id).bank;
    assert Operations(b1, id) == [];
    var op1 := Operation(Credit, 100.0, t1, 100.0, Account(id));
    var s2 := Deposit(b1, id, Some(100.0), t1);
    assert Operations(s2.bank, id) == [op1];
    var s3 := Withdraw(s2.bank, id, Some(30.0), t2);
    assert Operations(s3.bank, id) == [op1] + [Operation(Debit, 30.0, t2, 70.0, Account(id))];
    assert [op1] + [Operation(Debit, 30.0, t2, 70.0, Account(id))] ==
      [op1, Operation(Debit, 30.0, t2, 70.0, Account(id))];
  }

  /** The account exists and its most recent operation recorded `amount`:
      the situation the service's tests set up before each call. */
  predicate StandsAt(b: Bank, id: AccountId, amount: real)
  {
    id in b.accounts && Operations(b, id) != [] && Ledger.CurrentBalance(Operations(b, id)) == amount
  }

  /** The last operation saved for the account is, up to its date, the
      expected one, and it is the only operation the call saved. */
  predicate SavedOne(before: Bank, after: Bank, id: AccountId, expected: Operation)
  {
    && |Operations(after, id)| == |Operations(before, id)| + 1
    && Operations(after, id)[..|Operations(before, id)|] == Operations(before, id)
    && SameEntry(Operations(after, id)[|Operations(before, id)|], expected)
  }

  /** On an account standing at 1000, depositing 100 saves a credit of 100
      recorded at 1100. */
  lemma DepositTestCase(b: Bank, id: AccountId, now: Instant, anyDate: Instant)
    requires StandsAt(b, id, 1000.0)
    ensures var s := Deposit(b, id, Some(100.0), now);
      && s.result.Ok?
      && SavedOne(b, s.bank, id, Operation(Credit, 100.0, anyDate, 1100.0, Account(id)))
  {
  }

  /** On an account standing at 1000, withdrawing 100 saves a debit of 100
      recorded at 900. */
  lemma WithdrawTestCase(b: Bank, id: AccountId, now: Instant, anyDate: Instant)
    requires StandsAt(b, id, 1000.0)
    ensures var s := Withdraw(b, id, Some(100.0), now);
      && s.result.Ok?
      && SavedOne(b, s.bank, id, Operation(Debit, 100.0, anyDate, 900.0, Account(id)))
  {
  }

  /** On an account standing at 1000, withdrawing 1100 fails with
      InsufficientBalance and saves nothing. */
  lemma OverdraftTestCase(b: Bank, id: AccountId, now: Instant, later: Instant)
    requires StandsAt(b, id, 1000.0)
    ensures Withdraw(b, id, Some(1100.0), now) == Step(b, Err(InsufficientBalance))
    ensures GetBalance(b, id, later).value.amount == 1000.0
  {
  }

  /** On an account standing at 1000, withdraw-all saves a debit of 1000
      recorded at 0. */
  lemma WithdrawAllTestCase(b: Bank, id: AccountId, now: Instant, anyDate: Instant)
    requires StandsAt(b, id, 1000.0)
    ensures var s := WithdrawAll(b, id, now);
      && s.result.Ok?
      && SavedOne(b, s.bank, id, Operation(Debit, 1000.0, anyDate, 0.0, Account(id)))
  {
  }

  /** The balance query reports the most recent recorded balance (1150
      after a credit recorded at 1150) and zero for an account with no
      operation. */
  lemma GetBalanceTestCase(b: Bank, id: AccountId, now: Instant)
    requires id in b.accounts
    ensures StandsAt(b, id, 1150.0) ==> GetBalance(b, id, now).value.amount == 1150.0
    ensures Operations(b, id) == [] ==> GetBalance(b, id, now).value.amount == 0.0
  {
  }
}

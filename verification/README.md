# Bank-account kata ledger, modelled in Dafny

This project models the ledger logic of the bank-account kata's account
service (`AccountServiceImpl`). The service creates accounts. It runs
deposits, withdrawals and withdraw-all through one shared routine: validate
the amount, look the account up, compute the new balance, then append one
operation. It also reports an account's balance and its operation history.

The model is functional:

- `Model` holds the value objects: `Account`, `Operation`, `Balance`, the
  operation kinds `Credit`/`Debit`, and the five error kinds. `Option` stands
  for the nullable amount and for optional lookups. `Result` replaces the
  service's exceptions.
- `Ledger` is the theory of one account's append-only operation sequence. It
  gives the ledger invariant (`Ledger.Valid`), the current balance, and an
  independent reference balance (`Ledger.NetFlow`: credits minus debits). It
  proves that the two agree and that no recorded balance is negative.
- `Store` replaces the two repository interfaces with one abstract state,
  `Bank`. A `Bank` is a set of account ids plus, per account, a `seq` of
  operations in insertion order. The "last operation" is the last element of
  that sequence. The existence check and the fetch-by-id agree on
  membership by construction.
- `AccountService` has one function per service method, public and private.
  Each state-changing call (`CreateAccount`, `Deposit`, `Withdraw`,
  `WithdrawAll` and the shared `ExecuteOperation`) maps a bank to a `Step`:
  the next bank plus the call's `Result`. The queries and the private lookups
  return a `Result` or an `Option` and leave the bank unchanged. The wall clock
  (`OffsetDateTime.now()`) becomes a `now: Instant` parameter.
- `Properties` holds the properties that relate several calls. These are:
  - the state invariant, and that every call preserves it;
  - the ledger invariant for every bank reachable from the empty one by any
    sequence of calls;
  - the deposit/withdraw round trip;
  - the cases the service's tests check, and a worked example on a fresh
    account.

Amounts are exact `real` numbers. The service only adds, subtracts and
compares them.

`withdrawAll` reads the balance through `getBalanceAmount` before the shared
routine validates anything. So on an unknown account it reports
AccountNotFound. On an account at zero it computes the amount 0 and reports
NullOrZeroAmount instead of doing nothing. The model keeps both behaviours
exactly as written (`AccountService.WithdrawAll`, `Properties.WithdrawAllEmpties`).

A broad reading of the service's promise is that every call on an unknown
account fails with AccountNotFound. The code only does this when the amount
is positive. The amount checks come first, so a zero, absent or negative
amount is rejected with NullOrZeroAmount or NegativeAmount whether or not the
account exists. The model follows the code (`Properties.UnknownAccountRejected`,
`Properties.AmountCheckedFirst`).

The service uses only the two operation kinds CREDIT and DEBIT, and
`OperationType` models exactly those two.

## Model

| member | source | states |
|---|---|---|
| AccountService.CreateAccount | src/main/java/fr/bank/account/kata/service/impl/AccountServiceImpl.java:29-35 | If the id is already present, fails with AccountAlreadyExists and leaves the bank unchanged. Otherwise it adds exactly that id, returns the new account, and leaves every ledger untouched. |
| AccountService.Deposit | src/main/java/fr/bank/account/kata/service/impl/AccountServiceImpl.java:37-39 | Succeeds exactly when the amount is present, positive and the account exists. On success it appends one credit of that amount recorded at the previous balance plus the amount, returns that balance, and changes no other account. A failure changes nothing. |
| AccountService.Withdraw | src/main/java/fr/bank/account/kata/service/impl/AccountServiceImpl.java:41-43 | Succeeds exactly when the amount is present and positive, the account exists, and the amount does not exceed the balance. On success it appends one debit recorded at the previous balance minus the amount, returns that balance, and changes no other account. A failure changes nothing. |
| AccountService.WithdrawAll | src/main/java/fr/bank/account/kata/service/impl/AccountServiceImpl.java:45-47 | Unknown account: AccountNotFound, bank unchanged. Zero balance: NullOrZeroAmount, bank unchanged. Positive balance: appends one debit of exactly that balance, recorded at 0, returns 0, and leaves the account set and every other account's history unchanged. |
| AccountService.ListOperations | src/main/java/fr/bank/account/kata/service/impl/AccountServiceImpl.java:49-56 | Fails with AccountNotFound exactly for unknown ids. Otherwise returns the account's stored operations unmodified, in insertion order. |
| AccountService.GetBalance | src/main/java/fr/bank/account/kata/service/impl/AccountServiceImpl.java:58-77 | Fails with AccountNotFound exactly for unknown ids. The amount is the last operation's balance, or 0 when there is none. The date is the last operation's date, or the current time. |
| AccountService.ExecuteOperation | src/main/java/fr/bank/account/kata/service/impl/AccountServiceImpl.java:79-102 | Check order is absent/zero amount, then negative amount (neither depends on the account), then unknown account, then debit over balance. A call that passes all four checks succeeds; any failure leaves the bank unchanged. A success appends exactly one operation (kind, amount, now, new balance, account), touches no other account, and returns a balance equal to the one stored in that operation. |
| AccountService.GetAccount | src/main/java/fr/bank/account/kata/service/impl/AccountServiceImpl.java:104-112 | Returns the account stored under the id exactly when it exists. Otherwise fails with AccountNotFound. |
| AccountService.CalculateNewBalance | src/main/java/fr/bank/account/kata/service/impl/AccountServiceImpl.java:114-125 | A credit gives current balance + amount. A debit gives current balance − amount, or InsufficientBalance when the amount exceeds the balance. An unknown account gives AccountNotFound. |
| AccountService.GetBalanceAmount | src/main/java/fr/bank/account/kata/service/impl/AccountServiceImpl.java:127-139 | Fails with AccountNotFound exactly for unknown ids. Otherwise returns the last operation's balance, or 0 for an empty history. |
| AccountService.LastOperationIsLastSaved | src/main/java/fr/bank/account/kata/service/impl/AccountServiceImpl.java:141-143 | Right after the operation store saves an operation, the fetch-last of its account returns that operation; a save for one account leaves every other account's fetch-last unchanged. |
| Store.GetAccountById | src/main/java/fr/bank/account/kata/repository/AccountRepository.java:11-13 | The fetch-by-id finds an account exactly when the existence check says it exists. The account found carries the requested id. |
| Store.SavedAccountIsFound | src/main/java/fr/bank/account/kata/repository/AccountRepository.java:9-13 | After saving an account, the fetch-by-id finds exactly that account; lookups of other ids and every account's operations are unchanged. |
| Store.SaveOperation | src/main/java/fr/bank/account/kata/repository/OperationRepository.java:9-13 | Saving an operation appends it to the ledger of the account it names. It leaves every other ledger and the account set unchanged, so the last operation is the one just saved. |
| Model.SameEntryIgnoresOnlyDate | src/main/java/fr/bank/account/kata/model/Operation.java:13-21 | Two operations are the same entry exactly when kind, amount, balance and account agree. The date is ignored. |
| Ledger.BalanceIsNetFlow | src/main/java/fr/bank/account/kata/service/impl/AccountServiceImpl.java:114-139 | In a valid ledger, the recorded current balance equals the sum of credits minus debits. So the balance is fully determined by the operations. |
| Ledger.BalanceNonNegativeAt | src/main/java/fr/bank/account/kata/service/impl/AccountServiceImpl.java:117-123 | Every balance recorded in a valid ledger is at least 0, because a debit never exceeds the balance before it. |
| Ledger.NoNegativeBalance | src/main/java/fr/bank/account/kata/service/impl/AccountServiceImpl.java:120-123 | No recorded balance, and so no current balance, of a valid ledger is negative. |
| Ledger.PrefixValid | src/main/java/fr/bank/account/kata/service/impl/AccountServiceImpl.java:94-99 | Every prefix of a valid ledger is itself valid. The ledger is append-only, so each earlier state was valid. |
| Ledger.AppendValid | src/main/java/fr/bank/account/kata/service/impl/AccountServiceImpl.java:90-99 | Appending an operation built the way the service builds one keeps the ledger valid. It makes that operation's balance the current one and moves the net flow by exactly its signed amount. |
| Properties.CreatePreservesValid | src/main/java/fr/bank/account/kata/service/impl/AccountServiceImpl.java:29-35 | Creating an account keeps the state invariant. |
| Properties.ExecutePreservesValid | src/main/java/fr/bank/account/kata/service/impl/AccountServiceImpl.java:79-102 | Every deposit, withdrawal or withdraw-all step keeps the state invariant. That invariant is: ledgers only for known accounts, each ledger valid, each operation owned by its ledger's account. |
| Properties.WithdrawAllPreservesValid | src/main/java/fr/bank/account/kata/service/impl/AccountServiceImpl.java:45-47 | Withdraw-all keeps the state invariant. |
| Properties.PerformPreservesValid | src/main/java/fr/bank/account/kata/service/AccountService.java:10-16 | Any single state-changing call of the service keeps the state invariant. |
| Properties.RunPreservesValid | src/main/java/fr/bank/account/kata/service/AccountService.java:10-16 | Any sequence of calls, issued one after the other, keeps the state invariant. |
| Properties.ReachableLedgers | src/main/java/fr/bank/account/kata/service/impl/AccountServiceImpl.java:90-123 | In every bank reachable from the empty one, each account's ledger chains its balances from 0. No recorded balance is negative. The reported balance equals credits minus debits. |
| Properties.BalanceMatchesHistory | src/main/java/fr/bank/account/kata/service/impl/AccountServiceImpl.java:49-77 | On a valid bank and a known account, the balance query returns the net flow of the operations the history query lists, and it is never negative. |
| Properties.SuccessIsRecorded | src/main/java/fr/bank/account/kata/service/impl/AccountServiceImpl.java:94-101 | After a successful operation, a balance query returns exactly the balance the call returned, and the history has grown by one. |
| Properties.DepositWithdrawRoundTrip | src/main/java/fr/bank/account/kata/service/impl/AccountServiceImpl.java:37-43 | On a valid bank, a known account and a positive amount, depositing that amount and then withdrawing it both succeed. The balance and the net flow return to where they were, and the history grows by two. |
| Properties.WithdrawAllEmpties | src/main/java/fr/bank/account/kata/service/impl/AccountServiceImpl.java:45-47 | On a valid bank and a known account, withdraw-all succeeds exactly when the balance is positive and then leaves it at 0. Otherwise it fails with NullOrZeroAmount. |
| Properties.UnknownAccountRejected | src/test/java/fr/bank/account/kata/service/AccountServiceTest.java:76-109 | On an unknown account with a positive amount, deposit, withdraw, withdraw-all, history and balance all fail with AccountNotFound and change nothing. |
| Properties.AmountCheckedFirst | src/test/java/fr/bank/account/kata/service/AccountServiceTest.java:111-144 | A zero or absent amount gives NullOrZeroAmount and a negative one gives NegativeAmount, for any account id, with no state change. |
| Properties.CreateTwiceFails | src/test/java/fr/bank/account/kata/service/AccountServiceTest.java:61-73 | Creating the same id a second time fails with AccountAlreadyExists and keeps the bank the first call produced. |
| Properties.DepositThenWithdrawScenario | src/main/java/fr/bank/account/kata/service/impl/AccountServiceImpl.java:90-101 | Worked example on a fresh account: it starts at 0; depositing 100 and then withdrawing 30 returns balances 100 and 70, and the history is exactly a credit of 100 at 100 followed by a debit of 30 at 70. |
| Properties.DepositTestCase | src/test/java/fr/bank/account/kata/service/AccountServiceTest.java:146-166 | On an account whose last operation recorded 1000, depositing 100 succeeds and saves exactly one operation, equal up to its date to a credit of 100 recorded at 1100. |
| Properties.WithdrawTestCase | src/test/java/fr/bank/account/kata/service/AccountServiceTest.java:168-188 | On an account whose last operation recorded 1000, withdrawing 100 succeeds and saves exactly one operation, equal up to its date to a debit of 100 recorded at 900. |
| Properties.OverdraftTestCase | src/test/java/fr/bank/account/kata/service/AccountServiceTest.java:191-207 | On an account whose last operation recorded 1000, withdrawing 1100 fails with InsufficientBalance, the bank is unchanged, and the balance stays 1000. |
| Properties.WithdrawAllTestCase | src/test/java/fr/bank/account/kata/service/AccountServiceTest.java:209-229 | On an account whose last operation recorded 1000, withdraw-all succeeds and saves exactly one operation, equal up to its date to a debit of 1000 recorded at 0. |
| Properties.GetBalanceTestCase | src/test/java/fr/bank/account/kata/service/AccountServiceTest.java:279-309 | The balance query of a known account reports 1150 when its last operation recorded 1150, and 0 when it has no operation. |

## Left out

- Repository implementations: only the two storage interfaces exist. They are replaced by the abstract `Bank` state, so persistence and its failure modes are not modelled.
- Timestamps: `OffsetDateTime.now()` is read from the wall clock. It becomes a caller-supplied `Instant`, and nothing is proved about how two timestamps are ordered.
- `Double` arithmetic: amounts are exact reals. IEEE rounding, NaN, infinities and negative zero are not modelled.
- The `Operation.id` field: the service never assigns it, so it is left out.
- Lombok builders, getters, setters and constructors: these become plain datatype constructors.
- Exception classes and their messages: each exception is one constructor of `Error`. The message text is not modelled.
- Concurrency: there is no locking between reading the balance and appending the operation. The model covers only calls issued one at a time, so the lost-update race under concurrent calls is not represented.
- Balance and history queries: these are read-only functions that return no new bank. Their idempotence (repeated queries give the same answer) holds by construction and is not stated as a lemma.

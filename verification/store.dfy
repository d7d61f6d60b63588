/** The two storage collaborators of the service, replaced by one abstract
    state: the set of known account ids and, per account, the append-only
    sequence of its operations in insertion order. */
module Store {
  import opened Model
  import Ledger

  datatype Bank = Bank(accounts: set<AccountId>, ledgers: map<AccountId, seq<Operation>>)

  /** A bank with no account and no operation. */
  const Empty := Bank({}, map[])

  /** The account store's existence check. */
  predicate ExistsAccountById(b: Bank, id: AccountId)
  {
    id in b.accounts
  }

  /** The account store's fetch-by-id. It agrees with `ExistsAccountById` on
      membership and hands back the account stored under that id. */
  function GetAccountById(b: Bank, id: AccountId): (r: Option<Account>)
    ensures r.Some? <==> ExistsAccountById(b, id)
    ensures r.Some? ==> r.value.id == id
  {
    if id in b.accounts then Some(Account(id)) else None
  }

  /** The account store's save: records the account's id and nothing else. */
  function SaveAccount(b: Bank, a: Account): Bank
  {
    b.(accounts := b.accounts + {a.id})
  }

  /** Saving an account makes the fetch-by-id find exactly that account,
      leaves the lookups of every other id as they were, and changes no
      account's operations. */
  lemma SavedAccountIsFound(b: Bank, a: Account, id: AccountId)
    ensures GetAccountById(SaveAccount(b, a), a.id) == Some(a)
    ensures id != a.id ==> GetAccountById(SaveAccount(b, a), id) == GetAccountById(b, id)
    ensures Operations(SaveAccount(b, a), id) == Operations(b, id)
  {
  }

  /** The operation store's fetch-all: every operation saved for the account,
      in insertion order (none when nothing was saved). */
  function Operations(b: Bank, id: AccountId): seq<Operation>
  {
    if id in b.ledgers then b.ledgers[id] else []
  }

  /** The operation store's save: appends the operation to the ledger of the
      account it names, and touches no other ledger. */
  function SaveOperation(b: Bank, op: Operation): (b': Bank)
    ensures b'.accounts == b.accounts
    ensures Operations(b', op.account.id) == Operations(b, op.account.id) + [op]
    ensures forall id :: id != op.account.id ==> Operations(b', id) == Operations(b, id)
  {
    b.(ledgers := b.ledgers[op.account.id := Operations(b, op.account.id) + [op]])
  }

  /** The ledger of one account is sound: it satisfies the ledger invariant
      and holds only operations that name that account. */
  ghost predicate LedgerSound(b: Bank, id: AccountId)
  {
    && Ledger.Valid(Operations(b, id))
    && forall i :: 0 <= i < |Operations(b, id)| ==> Operations(b, id)[i].account == Account(id)
  }

  /** The state invariant: operations are only stored for known accounts,
      and every account's ledger is sound. */
  ghost predicate Valid(b: Bank)
  {
    && b.ledgers.Keys <= b.accounts
    && forall id :: LedgerSound(b, id)
  }

  /** What the state invariant says of one account seen through the stores. */
  lemma ValidLedgerOf(b: Bank, id: AccountId)
    requires Valid(b)
    ensures Ledger.Valid(Operations(b, id))
    ensures forall i :: 0 <= i < |Operations(b, id)| ==> Operations(b, id)[i].account == Account(id)
    ensures id !in b.accounts ==> Operations(b, id) == []
  {
    assert LedgerSound(b, id);
  }
}

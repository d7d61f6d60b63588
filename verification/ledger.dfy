/** The theory of one account's ledger: the append-only sequence of its
    operations, from which its balance is derived. */
module Ledger {
  import opened Model

  /** The balance the account stands at after `ops`: the balance recorded by
      the most recent operation, or zero when nothing was recorded yet. */
  function CurrentBalance(ops: seq<Operation>): real
  {
    if |ops| == 0 then 0.0 else ops[|ops| - 1].balance
  }

  /** The balance an operation of the given kind and amount leads to. */
  function Apply(previous: real, kind: OperationType, amount: real): real
  {
    match kind
    case Credit => previous + amount
    case Debit => previous - amount
  }

  /** The balance in force just before the `i`-th operation. */
  function BalanceBefore(ops: seq<Operation>, i: nat): real
    requires i < |ops|
  {
    CurrentBalance(ops[..i])
  }

  /** The ledger invariant. Every operation carries a strictly positive
      amount; a debit never exceeds the balance before it; and each recorded
      balance is the previous one (zero for the first) plus the amount for a
      credit, minus it for a debit. */
  ghost predicate Valid(ops: seq<Operation>)
  {
    forall i :: 0 <= i < |ops| ==>
      && ops[i].amount > 0.0
      && (ops[i].operationType == Debit ==> ops[i].amount <= BalanceBefore(ops, i))
      && ops[i].balance == Apply(BalanceBefore(ops, i), ops[i].operationType, ops[i].amount)
  }

  /** The signed contribution of one operation to the account. */
  function Contribution(op: Operation): real
  {
    match op.operationType
    case Credit => op.amount
    case Debit => -op.amount
  }

  /** Reference definition of the balance, independent of the recorded
      balances: the sum of all credits minus the sum of all debits. */
  function NetFlow(ops: seq<Operation>): real
  {
    if |ops| == 0 then 0.0 else NetFlow(ops[..|ops| - 1]) + Contribution(ops[|ops| - 1])
  }

  /** Every prefix of a valid ledger is a valid ledger. */
  lemma PrefixValid(ops: seq<Operation>, n: nat)
    requires Valid(ops)
    requires n <= |ops|
    ensures Valid(ops[..n])
  {
    forall i | 0 <= i < n
      ensures ops[..n][i] == ops[i]
      ensures BalanceBefore(ops[..n], i) == BalanceBefore(ops, i)
    {
      assert ops[..n][..i] == ops[..i];
    }
  }

  /** The balance of a valid ledger is fully determined by its operations:
      the recorded current balance equals the net flow of credits and debits. */
  lemma {:induction false} BalanceIsNetFlow(ops: seq<Operation>)
    requires Valid(ops)
    ensures CurrentBalance(ops) == NetFlow(ops)
  {
    if |ops| > 0 {
      var n := |ops| - 1;
      PrefixValid(ops, n);
      BalanceIsNetFlow(ops[..n]);
      assert ops[n].balance == Apply(BalanceBefore(ops, n), ops[n].operationType, ops[n].amount);
    }
  }

  /** No balance recorded in a valid ledger is negative. */
  lemma {:induction false} BalanceNonNegativeAt(ops: seq<Operation>, i: nat)
    requires Valid(ops)
    requires i < |ops|
    ensures ops[i].balance >= 0.0
  {
    if i > 0 {
      BalanceNonNegativeAt(ops, i - 1);
      assert ops[..i][i - 1] == ops[i - 1];
    }
    assert ops[i].amount > 0.0;
  }

  lemma NoNegativeBalance(ops: seq<Operation>)
    requires Valid(ops)
    ensures forall i :: 0 <= i < |ops| ==> ops[i].balance >= 0.0
    ensures CurrentBalance(ops) >= 0.0
  {
    forall i | 0 <= i < |ops|
      ensures ops[i].balance >= 0.0
    {
      BalanceNonNegativeAt(ops, i);
    }
  }

  /** Appending an operation built the way the service builds one keeps the
      ledger valid and moves the net flow by exactly that operation's
      contribution. */
  lemma AppendValid(ops: seq<Operation>, op: Operation)
    requires Valid(ops)
    requires op.amount > 0.0
    requires op.operationType == Debit ==> op.amount <= CurrentBalance(ops)
    requires op.balance == Apply(CurrentBalance(ops), op.operationType, op.amount)
    ensures Valid(ops + [op])
    ensures CurrentBalance(ops + [op]) == op.balance
    ensures NetFlow(ops + [op]) == NetFlow(ops) + Contribution(op)
  {
    var ops' := ops + [op];
    assert ops'[..|ops|] == ops;
    forall i | 0 <= i < |ops|
      ensures ops'[i] == ops[i]
      ensures BalanceBefore(ops', i) == BalanceBefore(ops, i)
    {
      assert ops'[..i] == ops[..i];
    }
  }
}

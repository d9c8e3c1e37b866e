/**
  The Transaction table: one immutable row per completed deposit or
  withdrawal, and the consistency between those rows and the balances of the
  Account table.
 */
module Ledger {
  import opened Types

  /** The transaction types the engine accepts. */
  datatype Kind = Deposit | Withdrawal

  /** The value stored in the row's TransactionType column. */
  function KindName(k: Kind): string
  {
    match k
    case Deposit => "Deposit"
    case Withdrawal => "Withdrawal"
  }

  /** The engine's dispatch on the submitted `transaction_type`: exactly the
      two names above are accepted, compared as written. */
  function ParseKind(transactionType: string): (r: Option<Kind>)
    ensures r == Some(Deposit) <==> transactionType == "Deposit"
    ensures r == Some(Withdrawal) <==> transactionType == "Withdrawal"
    ensures r.Some? ==> KindName(r.value) == transactionType
  {
    if transactionType == "Withdrawal" then Some(Withdrawal)
    else if transactionType == "Deposit" then Some(Deposit)
    else None
  }

  lemma ParseKindName(k: Kind)
    ensures ParseKind(KindName(k)) == Some(k)
  {
  }

  /** The fixed charge recorded with a transaction: the deposit rate for
      "Deposit", the other rate for every other type name. */
  function ChargeFor(transactionType: string): (r: real)
    ensures r > 0.0
    ensures r == 0.50 <==> transactionType == "Deposit"
    ensures r == 1.00 <==> transactionType != "Deposit"
  {
    if transactionType == "Deposit" then 0.50 else 1.00
  }

  /** A Transaction row. The TransactionID the store generates is left out:
      a row is identified by its position in the ledger. */
  datatype Entry = Entry(kind: Kind, date: Date, time: Time, amount: real, account: int, charge: real)

  /** The movement of money a transaction stands for. The charge takes no
      part in it: it is recorded, not subtracted. */
  function Signed(kind: Kind, amount: real): real
  {
    if kind == Deposit then amount else -amount
  }

  function Contribution(e: Entry, account: int): real
  {
    if e.account == account then Signed(e.kind, e.amount) else 0.0
  }

  /** The net movement of all ledger rows against one account. */
  function Net(ledger: seq<Entry>, account: int): real
  {
    if ledger == [] then 0.0 else Contribution(ledger[0], account) + Net(ledger[1..], account)
  }

  lemma {:induction false} NetAppend(ledger: seq<Entry>, e: Entry, account: int)
    ensures Net(ledger + [e], account) == Net(ledger, account) + Contribution(e, account)
  {
    if ledger == [] {
      assert [e][1..] == [];
    } else {
      assert (ledger + [e])[1..] == ledger[1..] + [e];
      NetAppend(ledger[1..], e, account);
    }
  }

  /** A row as the engine writes it: a positive amount, the charge of its
      type, and an account of the Account table. */
  ghost predicate WellFormed(e: Entry, accounts: set<int>)
  {
    e.amount > 0.0 && e.charge == ChargeFor(KindName(e.kind)) && e.account in accounts
  }

  /** Account table and ledger agree: every balance is its opening value plus
      the net of the ledger rows against it, and every row is well formed. */
  ghost predicate Consistent(opening: map<int, real>, balances: map<int, real>, ledger: seq<Entry>)
  {
    && opening.Keys == balances.Keys
    && (forall a :: a in balances ==> balances[a] == opening[a] + Net(ledger, a))
    && (forall i :: 0 <= i < |ledger| ==> WellFormed(ledger[i], balances.Keys))
  }

  /** Writing a balance moved by exactly one new row's amount, together with
      that row, keeps the Account table and the ledger in agreement. */
  lemma PostPreservesConsistency(opening: map<int, real>, balances: map<int, real>, ledger: seq<Entry>, e: Entry)
    requires Consistent(opening, balances, ledger)
    requires WellFormed(e, balances.Keys)
    ensures Consistent(opening, balances[e.account := balances[e.account] + Signed(e.kind, e.amount)], ledger + [e])
  {
    var balances' := balances[e.account := balances[e.account] + Signed(e.kind, e.amount)];
    forall a | a in balances'
      ensures balances'[a] == opening[a] + Net(ledger + [e], a)
    {
      NetAppend(ledger, e, a);
    }
  }
}

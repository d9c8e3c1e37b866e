/**
  The customer transaction engine: validation of a deposit or withdrawal
  request, the balance update and the ledger row, committed as one step.
 */
module Engine {
  import opened Types
  import opened Ledger
  import opened Access

  /** The ways a request can be turned down. The first six are decided before
      any write; `StoreUnavailable` is the store refusing the commit. */
  datatype Error =
    | AmountNotNumeric            // float() raised: "Invalid amount."
    | AmountNotPositive           // "Amount must be positive."
    | AccountNotOwned             // "Account not found."
    | MalformedAccountNumber      // int() raised on the account field; nothing catches it
    | InsufficientFunds
    | UnsupportedTransactionType
    | StoreUnavailable

  datatype Result<T> = Ok(value: T) | Err(error: Error)

  /** The submitted form, after Python's conversions: `account` is
      `int(account_number)` and `amount` is `float(amount)`, `None` where the
      conversion raises. */
  datatype Request = Request(account: Option<int>, transactionType: string, amount: Option<real>)

  /** What a request that passed every check will write. */
  datatype Plan = Plan(account: int, kind: Kind, amount: real, newBalance: real)

  /** A Customer_Account row: customer `ssn` holds `account`. */
  datatype Link = Link(ssn: string, account: int)

  /** The caller's accounts: the Customer_Account rows of `ssn`, joined with
      the Account table, in table order. */
  function Owned(links: seq<Link>, ssn: string, accounts: set<int>): (r: seq<int>)
    ensures forall a :: a in r <==> a in accounts && Link(ssn, a) in links
  {
    if links == [] then []
    else
      (if links[0].ssn == ssn && links[0].account in accounts then [links[0].account] else [])
      + Owned(links[1..], ssn, accounts)
  }

  /** The checks of the engine, in the order it makes them, and the write
      they lead to. `balances` is the balance column of the caller's rows. */
  function Validate(req: Request, owned: seq<int>, balances: map<int, real>): (r: Result<Plan>)
    requires forall a :: a in owned ==> a in balances
    ensures r.Ok? ==> r.value.account in owned && req.account == Some(r.value.account)
    ensures r.Ok? ==> req.amount == Some(r.value.amount) && r.value.amount > 0.0
    ensures r.Ok? ==> ParseKind(req.transactionType) == Some(r.value.kind)
    ensures r.Ok? ==> r.value.newBalance == balances[r.value.account] + Signed(r.value.kind, r.value.amount)
    ensures r.Ok? && r.value.kind == Withdrawal ==> r.value.newBalance >= 0.0
  {
    if req.amount.None? then Err(AmountNotNumeric)
    else if req.amount.value <= 0.0 then Err(AmountNotPositive)
    else if owned == [] then Err(AccountNotOwned)
    else if req.account.None? then Err(MalformedAccountNumber)
    else if req.account.value !in owned then Err(AccountNotOwned)
    else
      var account, amount := req.account.value, req.amount.value;
      var balance := balances[account];
      if req.transactionType == "Withdrawal" then
        if balance < amount then Err(InsufficientFunds)
        else Ok(Plan(account, Withdrawal, amount, balance - amount))
      else if req.transactionType == "Deposit" then
        Ok(Plan(account, Deposit, amount, balance + amount))
      else
        Err(UnsupportedTransactionType)
  }

  /** The ledger row a plan writes, stamped with the store's date and time. */
  function Record(p: Plan, today: Date, now: Time): Entry
  {
    Entry(p.kind, today, now, p.amount, p.account, ChargeFor(KindName(p.kind)))
  }

  /** What the caller is told: the validation error, the store's refusal, or
      the new balance. */
  function Outcome(v: Result<Plan>, storeOk: bool): Result<real>
  {
    match v
    case Err(e) => Err(e)
    case Ok(p) => if storeOk then Ok(p.newBalance) else Err(StoreUnavailable)
  }

  /** The amount is checked before anything else: whatever the account and
      the type, a missing or non-positive amount is the error reported. */
  lemma AmountCheckedFirst(req: Request, owned: seq<int>, balances: map<int, real>)
    requires forall a :: a in owned ==> a in balances
    ensures req.amount.None? ==> Validate(req, owned, balances) == Err(AmountNotNumeric)
    ensures req.amount.Some? && req.amount.value <= 0.0 ==> Validate(req, owned, balances) == Err(AmountNotPositive)
  {
  }

  /** With a valid amount, ownership is checked next: an account that is not
      the caller's is refused whatever the type, and with no accounts at all
      even an account field that is not a number is refused this way. */
  lemma OwnershipCheckedSecond(req: Request, owned: seq<int>, balances: map<int, real>)
    requires forall a :: a in owned ==> a in balances
    requires req.amount.Some? && req.amount.value > 0.0
    ensures owned == [] ==> Validate(req, owned, balances) == Err(AccountNotOwned)
    ensures owned != [] && req.account.None? ==> Validate(req, owned, balances) == Err(MalformedAccountNumber)
    ensures req.account.Some? && req.account.value !in owned ==> Validate(req, owned, balances) == Err(AccountNotOwned)
  {
  }

  /** The type is checked last: once amount and account pass, the request is
      refused as unsupported exactly when the type is neither name. */
  lemma TypeCheckedLast(req: Request, owned: seq<int>, balances: map<int, real>)
    requires forall a :: a in owned ==> a in balances
    requires req.amount.Some? && req.amount.value > 0.0
    requires req.account.Some? && req.account.value in owned
    ensures Validate(req, owned, balances) == Err(UnsupportedTransactionType) <==>
      ParseKind(req.transactionType).None?
  {
  }

  /** A withdrawal is refused exactly when it exceeds the balance; one equal
      to the balance goes through and leaves exactly zero. */
  lemma WithdrawalBound(account: int, amount: real, owned: seq<int>, balances: map<int, real>)
    requires forall a :: a in owned ==> a in balances
    requires amount > 0.0 && account in owned
    ensures var r := Validate(Request(Some(account), "Withdrawal", Some(amount)), owned, balances);
      (r == Err(InsufficientFunds) <==> balances[account] < amount) &&
      (r.Ok? <==> amount <= balances[account]) &&
      (amount == balances[account] ==> r.Ok? && r.value.newBalance == 0.0)
  {
  }

  /** The requests that go through, and where they leave the balance. */
  lemma Accepted(req: Request, owned: seq<int>, balances: map<int, real>)
    requires forall a :: a in owned ==> a in balances
    ensures var r := Validate(req, owned, balances);
      r.Ok? <==>
        && req.amount.Some? && req.amount.value > 0.0
        && req.account.Some? && req.account.value in owned
        && (req.transactionType == "Deposit" ||
            (req.transactionType == "Withdrawal" && req.amount.value <= balances[req.account.value]))
    ensures var r := Validate(req, owned, balances);
      r.Ok? && req.transactionType == "Deposit" ==> r.value.newBalance == balances[r.value.account] + r.value.amount
    ensures var r := Validate(req, owned, balances);
      r.Ok? && req.transactionType == "Withdrawal" ==> r.value.newBalance == balances[r.value.account] - r.value.amount
  {
  }

  /** The result of looking the submitted account number up among the
      caller's accounts. */
  datatype Lookup = Found(account: int) | NotFound | Malformed

  /** The search `next(acc for acc in accounts if ...)`: the account field is
      converted once per row, so it only raises when there is a row to
      compare it with. */
  method FindAccount(owned: seq<int>, field: Option<int>) returns (r: Lookup)
    ensures r.Malformed? <==> owned != [] && field.None?
    ensures r.Found? <==> field.Some? && field.value in owned
    ensures r.Found? ==> r.account == field.value
  {
    var i := 0;
    while i < |owned|
      invariant 0 <= i <= |owned|
      invariant i > 0 ==> field.Some?
      invariant field.Some? ==> field.value !in owned[..i]
    {
      if field.None? {
        return Malformed;
      }
      if owned[i] == field.value {
        return Found(owned[i]);
      }
      i := i + 1;
    }
    assert owned[..i] == owned;
    return NotFound;
  }

  /** The Account table, the Customer_Account relation and the Transaction
      table, as one store. `opening` holds each account's balance before the
      first ledger row, so `Valid` can say that the two never diverge. */
  class Bank {
    var balances: map<int, real>
    var lastAccess: map<int, Date>
    var links: seq<Link>
    var ledger: seq<Entry>
    ghost var opening: map<int, real>

    ghost predicate Valid()
      reads this
    {
      Consistent(opening, balances, ledger)
    }

    constructor (accounts: map<int, real>, accessed: map<int, Date>, holders: seq<Link>)
      ensures Valid()
      ensures balances == accounts && lastAccess == accessed && links == holders
      ensures ledger == [] && opening == accounts
    {
      balances := accounts;
      lastAccess := accessed;
      links := holders;
      ledger := [];
      opening := accounts;
    }

    /** The accounts query of the transaction page: every account it returns
      has a row in the Account table. */
    function OwnedAccounts(ssn: string): (r: seq<int>)
      reads this
      ensures forall a :: a in r ==> a in balances
    {
      Owned(links, ssn, balances.Keys)
    }

    /** One submitted transaction of customer `ssn`. Every refusal comes
      before any write; on success the balance, the last-access date and the
      new ledger row are committed together, or, when the store refuses the
      commit (`storeOk` false), none of them. */
    method PerformTransaction(ssn: string, req: Request, today: Date, now: Time, storeOk: bool)
      returns (r: Result<real>)
      requires Valid()
      modifies this
      ensures Valid()
      ensures links == old(links) && opening == old(opening)
      ensures r == Outcome(Validate(req, old(OwnedAccounts(ssn)), old(balances)), storeOk)
      ensures r.Err? ==>
        balances == old(balances) && lastAccess == old(lastAccess) && ledger == old(ledger)
      ensures r.Ok? ==>
        var p := Validate(req, old(OwnedAccounts(ssn)), old(balances)).value;
        && balances == old(balances)[p.account := p.newBalance]
        && lastAccess == old(lastAccess)[p.account := today]
        && ledger == old(ledger) + [Record(p, today, now)]
    {
      if req.amount.None? {
        return Err(AmountNotNumeric);
      }
      var amount := req.amount.value;
      if amount <= 0.0 {
        return Err(AmountNotPositive);
      }

      var found := FindAccount(OwnedAccounts(ssn), req.account);
      if found.Malformed? {
        return Err(MalformedAccountNumber);
      }
      if found.NotFound? {
        return Err(AccountNotOwned);
      }
      var account := found.account;

      var balance := balances[account];
      var kind, newBalance;
      if req.transactionType == "Withdrawal" {
        if balance < amount {
          return Err(InsufficientFunds);
        }
        kind, newBalance := Withdrawal, balance - amount;
      } else if req.transactionType == "Deposit" {
        kind, newBalance := Deposit, balance + amount;
      } else {
        return Err(UnsupportedTransactionType);
      }

      var entry := Entry(kind, today, now, amount, account, ChargeFor(req.transactionType));
      if !storeOk {
        return Err(StoreUnavailable);
      }
      PostPreservesConsistency(opening, balances, ledger, entry);
      balances := balances[account := newBalance];
      lastAccess := lastAccess[account := today];
      ledger := ledger + [entry];
      r := Ok(newBalance);
    }
  }

  /** What the transaction route answers. */
  datatype Reply = Refused(denial: Denial) | CustomerNotFound | Completed(result: Result<real>)

  /** The POST branch of the transaction route, behind `customer_required`.
      `ssn` is what the Users lookup for the session's user id returned. */
  method CustomerTransaction(bank: Bank, s: Session, ssn: Option<string>, req: Request,
                             today: Date, now: Time, storeOk: bool)
    returns (reply: Reply)
    requires bank.Valid()
    modifies bank
    ensures bank.Valid()
    ensures CustomerRequired(s).Deny? ==> reply == Refused(CustomerRequired(s).denial)
    ensures CustomerRequired(s) == Pass && ssn.None? ==> reply == CustomerNotFound
    ensures CustomerRequired(s) == Pass && ssn.Some? ==> reply.Completed?
    ensures bank.links == old(bank.links)
    ensures reply.Completed? ==>
      && CustomerRequired(s) == Pass && ssn.Some?
      && reply.result == Outcome(Validate(req, old(bank.OwnedAccounts(ssn.value)), old(bank.balances)), storeOk)
    ensures !(reply.Completed? && reply.result.Ok?) ==>
      bank.balances == old(bank.balances) && bank.lastAccess == old(bank.lastAccess) && bank.ledger == old(bank.ledger)
    ensures reply.Completed? && reply.result.Ok? ==>
      var p := Validate(req, old(bank.OwnedAccounts(ssn.value)), old(bank.balances)).value;
      && bank.balances == old(bank.balances)[p.account := p.newBalance]
      && bank.lastAccess == old(bank.lastAccess)[p.account := today]
      && bank.ledger == old(bank.ledger) + [Record(p, today, now)]
  {
    var gate := CustomerRequired(s);
    if gate.Deny? {
      return Refused(gate.denial);
    }
    if ssn.None? {
      return CustomerNotFound;
    }
    var result := bank.PerformTransaction(ssn.value, req, today, now, storeOk);
    reply := Completed(result);
  }

  /** A worked example on account 1001, opened at 100.00. */
  method Account1001Scenario()
  {
    var bank := new Bank(map[1001 := 100.00], map[1001 := "2024-01-01"], [Link("123-45-6789", 1001)]);
    assert bank.links[1..] == [];
    assert Owned(bank.links[1..], "123-45-6789", bank.balances.Keys) == [];
    assert 1001 in bank.balances.Keys;
    assert bank.OwnedAccounts("123-45-6789") == [1001];

    var r := bank.PerformTransaction("123-45-6789", Request(Some(1001), "Deposit", Some(50.00)), "2024-01-02", "10:00", true);
    assert r == Ok(150.00);
    assert bank.ledger == [Entry(Deposit, "2024-01-02", "10:00", 50.00, 1001, 0.50)];

    r := bank.PerformTransaction("123-45-6789", Request(Some(1001), "Withdrawal", Some(200.00)), "2024-01-02", "10:05", true);
    assert r == Err(InsufficientFunds);
    assert bank.balances[1001] == 150.00;

    r := bank.PerformTransaction("123-45-6789", Request(Some(1001), "Withdrawal", Some(150.00)), "2024-01-02", "10:10", true);
    assert r == Ok(0.0);
    assert bank.ledger[1] == Entry(Withdrawal, "2024-01-02", "10:10", 150.00, 1001, 1.00);

    r := bank.PerformTransaction("999-99-9999", Request(Some(1001), "Deposit", Some(5.00)), "2024-01-02", "10:15", true);
    assert r == Err(AccountNotOwned);
    assert |bank.ledger| == 2;
  }
}
